/**
 * The bilingual system-prompt table and its lookup. The wording of the four
 * prompts is not modelled: each is an opaque constant.
 */
module Prompts {
  import opened Wrappers

  const InfoCollectionHe: string := "info_collection/he"
  const InfoCollectionEn: string := "info_collection/en"
  const QaHe: string := "qa/he"
  const QaEn: string := "qa/en"

  /** PROMPTS: phase, then language code, to prompt. */
  const PromptTable: map<string, map<string, string>> := map[
    "info_collection" := map["he" := InfoCollectionHe, "en" := InfoCollectionEn],
    "qa" := map["he" := QaHe, "en" := QaEn]]

  /** The exception a lookup can raise. */
  datatype LookupError = KeyError(key: string)

  /**
   * get_system_prompt(phase, lang) is PROMPTS.get(phase, {}).get(lang, PROMPTS[phase]["en"]):
   * the default argument PROMPTS[phase]["en"] is evaluated before the lookup, so
   * an unknown phase raises KeyError whatever lang is.
   */
  function GetSystemPrompt(phase: string, lang: string): (r: Result<string, LookupError>)
    ensures r.Failure? <==> phase !in PromptTable
    ensures r.Success? ==> r.value in PromptTable[phase].Values
  {
    if phase !in PromptTable then Failure(KeyError(phase))
    else if "en" !in PromptTable[phase] then Failure(KeyError("en"))
    else
      var fallback := PromptTable[phase]["en"];
      var byLang := if phase in PromptTable then PromptTable[phase] else map[];
      Success(if lang in byLang then byLang[lang] else fallback)
  }

  /** The table holds exactly the phases info_collection and qa, each in Hebrew and English. */
  lemma PromptTableShape()
    ensures PromptTable.Keys == {"info_collection", "qa"}
    ensures forall phase :: phase in PromptTable ==> PromptTable[phase].Keys == {"he", "en"}
  {
  }

  /** A known phase and a known language select that entry. */
  lemma KnownPhaseKnownLang(phase: string, lang: string)
    requires phase in PromptTable && lang in PromptTable[phase]
    ensures GetSystemPrompt(phase, lang) == Success(PromptTable[phase][lang])
  {
  }

  /** A known phase and any other language falls back to that phase's English prompt. */
  lemma UnknownLangFallsBackToEnglish(phase: string, lang: string)
    requires phase in PromptTable && lang !in {"he", "en"}
    ensures GetSystemPrompt(phase, lang) == Success(PromptTable[phase]["en"])
  {
    PromptTableShape();
  }

  /** An unknown phase raises KeyError even with a language the table knows. */
  lemma UnknownPhaseRaises(phase: string, lang: string)
    requires phase !in {"info_collection", "qa"}
    ensures GetSystemPrompt(phase, lang) == Failure(KeyError(phase))
  {
    PromptTableShape();
  }
}
