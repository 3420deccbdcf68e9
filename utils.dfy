/**
 * The bilingual HMO helpers: the Hebrew/English name tables, detection of the
 * HMOs a text mentions, and the fallback branch of language detection.
 */
module Utils {
  import opened Wrappers
  import opened Text
  import opened Models

  /** The three HMOs, Maccabi, Meuhedet and Clalit, by their Hebrew and their English names. */
  const HmoNamesHe: seq<string> := ["מכבי", "מאוחדת", "כללית"]
  const HmoNamesEn: seq<string> := ["maccabi", "meuhedet", "clalit"]

  const He2En: map<string, string> := map["מכבי" := "maccabi", "מאוחדת" := "meuhedet", "כללית" := "clalit"]

  predicate Injective(m: map<string, string>) {
    forall k, j :: k in m && j in m && k != j ==> m[k] != m[j]
  }

  /** The dict comprehension {v: k for k, v in m.items()}, on a map with no repeated value. */
  function Invert(m: map<string, string>): (r: map<string, string>)
    requires Injective(m)
    ensures r.Keys == m.Values
    ensures forall k :: k in m ==> r[m[k]] == k
  {
    map k | k in m :: m[k] := k
  }

  const En2He: map<string, string> := Invert(He2En)

  /** EN_2_HE is exactly the three English names mapped back to their Hebrew names. */
  lemma En2HeContents()
    ensures En2He == map["maccabi" := "מכבי", "meuhedet" := "מאוחדת", "clalit" := "כללית"]
  {
    var m := map["maccabi" := "מכבי", "meuhedet" := "מאוחדת", "clalit" := "כללית"];
    assert He2En.Keys == {"מכבי", "מאוחדת", "כללית"};
    assert He2En["מכבי"] == "maccabi" && He2En["מאוחדת"] == "meuhedet" && He2En["כללית"] == "clalit";
    assert He2En.Values == m.Keys;
  }

  /** The two tables are inverse to each other, and both agree with the name lists position by position. */
  lemma TranslationInverse()
    ensures forall h :: h in He2En ==> He2En[h] in En2He && En2He[He2En[h]] == h
    ensures forall e :: e in En2He ==> En2He[e] in He2En && He2En[En2He[e]] == e
    ensures forall k :: 0 <= k < 3 ==> He2En[HmoNamesHe[k]] == HmoNamesEn[k] && En2He[HmoNamesEn[k]] == HmoNamesHe[k]
  {
    En2HeContents();
  }

  /** The k-th HMO is mentioned: its Hebrew name in the text, or its English name in the lower-cased text. */
  predicate Mentions(text: string, k: nat)
    requires k < 3
  {
    Contains(text, HmoNamesHe[k]) || Contains(Lower(text), HmoNamesEn[k])
  }

  /** What the loop has found after the first n HMOs. */
  function MentionPairs(text: string, n: nat): seq<string>
    requires n <= 3
  {
    if n == 0 then []
    else MentionPairs(text, n - 1) + (if Mentions(text, n - 1) then [HmoNamesHe[n - 1], HmoNamesEn[n - 1]] else [])
  }

  /** detect_hmos(text). */
  method DetectHmos(text: string) returns (found: seq<string>)
    ensures found == MentionPairs(text, 3)
  {
    var lower := Lower(text);
    found := [];
    var k := 0;
    while k < |HmoNamesHe|
      invariant 0 <= k <= 3
      invariant found == MentionPairs(text, k)
    {
      var he, en := HmoNamesHe[k], HmoNamesEn[k];
      if Contains(text, he) || Contains(lower, en) {
        found := found + [he];
        found := found + [en];
      }
      k := k + 1;
    }
  }

  /** The ranks of the mentioned HMOs among the first n, in increasing order. */
  function MentionedRanks(text: string, n: nat): (r: seq<nat>)
    requires n <= 3
    ensures |r| <= n
    ensures forall j :: 0 <= j < |r| ==> r[j] < n && Mentions(text, r[j])
    ensures forall i, j :: 0 <= i < j < |r| ==> r[i] < r[j]
    ensures forall k :: 0 <= k < n && Mentions(text, k) ==> k in r
  {
    if n == 0 then []
    else MentionedRanks(text, n - 1) + (if Mentions(text, n - 1) then [n - 1] else [])
  }

  /** The found list is the Hebrew-then-English pair of each mentioned HMO, in rank order. */
  lemma {:induction false} MentionPairsByRank(text: string, n: nat)
    requires n <= 3
    ensures |MentionPairs(text, n)| == 2 * |MentionedRanks(text, n)|
    ensures forall j :: 0 <= j < |MentionedRanks(text, n)| ==>
      MentionPairs(text, n)[2 * j] == HmoNamesHe[MentionedRanks(text, n)[j]] &&
      MentionPairs(text, n)[2 * j + 1] == HmoNamesEn[MentionedRanks(text, n)[j]]
  {
    if n > 0 {
      MentionPairsByRank(text, n - 1);
    }
  }

  /** The six names are pairwise different. */
  lemma NamesDistinct()
    ensures forall i, j :: 0 <= i < j < 3 ==> HmoNamesHe[i] != HmoNamesHe[j] && HmoNamesEn[i] != HmoNamesEn[j]
    ensures forall i, j :: 0 <= i < 3 && 0 <= j < 3 ==> HmoNamesHe[i] != HmoNamesEn[j]
  {
    assert HmoNamesHe[0][0] == 'מ' && HmoNamesHe[1][0] == 'מ' && HmoNamesHe[2][0] == 'כ';
    assert |HmoNamesHe[0]| == 4 && |HmoNamesHe[1]| == 6;
    assert HmoNamesEn[0][1] == 'a' && HmoNamesEn[1][1] == 'e' && HmoNamesEn[2][1] == 'l';
    assert forall j :: 0 <= j < 3 ==> HmoNamesEn[j][0] == HmoNamesEn[j][0] && 'a' <= HmoNamesEn[j][0] <= 'z';
  }

  /** Position j of the found list holds the Hebrew (j even) or English (j odd) name of the (j/2)-th mentioned HMO. */
  lemma PairAt(text: string, j: nat)
    requires j < |MentionPairs(text, 3)|
    ensures j / 2 < |MentionedRanks(text, 3)|
    ensures MentionPairs(text, 3)[j] ==
      (if j % 2 == 0 then HmoNamesHe else HmoNamesEn)[MentionedRanks(text, 3)[j / 2]]
  {
    MentionPairsByRank(text, 3);
    assert j == 2 * (j / 2) || j == 2 * (j / 2) + 1;
  }

  /**
   * detect_hmos returns, for each mentioned HMO in the order Maccabi, Meuhedet,
   * Clalit, its Hebrew name followed by its English name: an even list of at
   * most six names from the two lists.
   */
  lemma DetectHmosPairs(text: string)
    ensures var r := MentionPairs(text, 3);
      && |r| % 2 == 0 && |r| <= 6
      && (forall j :: 0 <= j < |r| ==> r[j] in HmoNamesHe || r[j] in HmoNamesEn)
      && (forall j :: 0 <= j < |r| / 2 ==> r[2 * j] in He2En && r[2 * j + 1] == He2En[r[2 * j]])
  {
    var r, ranks := MentionPairs(text, 3), MentionedRanks(text, 3);
    MentionPairsByRank(text, 3);
    TranslationInverse();
    forall j | 0 <= j < |r|
      ensures r[j] in HmoNamesHe || r[j] in HmoNamesEn
    {
      PairAt(text, j);
    }
  }

  /** The found list has no duplicates. */
  lemma DetectHmosDistinct(text: string)
    ensures var r := MentionPairs(text, 3);
      forall i, j :: 0 <= i < j < |r| ==> r[i] != r[j]
  {
    var r, ranks := MentionPairs(text, 3), MentionedRanks(text, 3);
    NamesDistinct();
    forall i, j | 0 <= i < j < |r|
      ensures r[i] != r[j]
    {
      PairAt(text, i);
      PairAt(text, j);
      if i / 2 != j / 2 {
        assert ranks[i / 2] < ranks[j / 2];
      }
    }
  }

  /** A Hebrew name is in the found list exactly when its HMO is mentioned. */
  lemma DetectHmosHebrewMember(text: string, k: nat)
    requires k < 3
    ensures HmoNamesHe[k] in MentionPairs(text, 3) <==> Mentions(text, k)
  {
    var r, ranks := MentionPairs(text, 3), MentionedRanks(text, 3);
    if Mentions(text, k) {
      MentionPairsByRank(text, 3);
      var q :| 0 <= q < |ranks| && ranks[q] == k;
      assert r[2 * q] == HmoNamesHe[k];
    }
    if HmoNamesHe[k] in r {
      NamesDistinct();
      var j :| 0 <= j < |r| && r[j] == HmoNamesHe[k];
      PairAt(text, j);
    }
  }

  /** So is an English name. */
  lemma DetectHmosEnglishMember(text: string, k: nat)
    requires k < 3
    ensures HmoNamesEn[k] in MentionPairs(text, 3) <==> Mentions(text, k)
  {
    var r, ranks := MentionPairs(text, 3), MentionedRanks(text, 3);
    if Mentions(text, k) {
      MentionPairsByRank(text, 3);
      var q :| 0 <= q < |ranks| && ranks[q] == k;
      assert r[2 * q + 1] == HmoNamesEn[k];
    }
    if HmoNamesEn[k] in r {
      NamesDistinct();
      var j :| 0 <= j < |r| && r[j] == HmoNamesEn[k];
      PairAt(text, j);
    }
  }

  /** English names match in the lower-cased text, so an upper-case mention counts. */
  lemma UpperCaseMention()
    ensures Mentions("MACCABI", 0)
  {
    assert Lower("MACCABI") == "maccabi";
    assert "maccabi" <= Lower("MACCABI")[0..];
  }

  /** A Hebrew letter, the range U+0590..U+05EA. */
  predicate IsHebrewChar(c: char) {
    '\U{0590}' <= c <= '\U{05EA}'
  }

  predicate HasHebrew(s: string) {
    exists i :: 0 <= i < |s| && IsHebrewChar(s[i])
  }

  /** The position of the most recent user message, if any. */
  function LastUserIndex(history: seq<Message>): (r: Option<nat>)
    ensures r.Some? ==> r.value < |history| && history[r.value].role == "user"
    ensures r.Some? ==> forall j :: r.value < j < |history| ==> history[j].role != "user"
    ensures r.None? ==> forall j :: 0 <= j < |history| ==> history[j].role != "user"
  {
    if history == [] then None
    else if history[|history| - 1].role == "user" then Some(|history| - 1)
    else LastUserIndex(history[..|history| - 1])
  }

  /** The fallback's answer: "he" exactly when the most recent user message holds a Hebrew letter. */
  function FallbackLang(history: seq<Message>): string {
    match LastUserIndex(history)
    case Some(i) => if HasHebrew(history[i].content) then "he" else "en"
    case None => "en"
  }

  /** The except branch of detect_lang: walk the history backwards to the first user message. */
  method Fallback(history: seq<Message>) returns (lang: string)
    ensures lang == FallbackLang(history)
  {
    var i := |history|;
    while i > 0
      invariant 0 <= i <= |history|
      invariant LastUserIndex(history) == LastUserIndex(history[..i])
      decreases i
    {
      var m := history[i - 1];
      if m.role == "user" {
        var hebrew := false;
        var j := 0;
        while j < |m.content| && !hebrew
          invariant 0 <= j <= |m.content|
          invariant hebrew <==> exists q :: 0 <= q < j && IsHebrewChar(m.content[q])
        {
          hebrew := IsHebrewChar(m.content[j]);
          j := j + 1;
        }
        if hebrew {
          return "he";
        }
        break;
      }
      assert history[..i][..i - 1] == history[..i - 1];
      i := i - 1;
    }
    return "en";
  }

  /**
   * detect_lang(message, history): detected is what langdetect made of the
   * message, None when it raised LangDetectException.
   */
  function DetectLang(detected: Option<string>, history: seq<Message>): (lang: string)
    ensures lang == "he" || lang == "en"
    ensures detected.Some? ==> (lang == "he" <==> detected.value == "he")
    ensures detected.None? && LastUserIndex(history).None? ==> lang == "en"
  {
    match detected
    case Some(code) => if code == "he" then "he" else "en"
    case None => FallbackLang(history)
  }

  /** Only the most recent user message counts: a later non-user message changes nothing. */
  lemma FallbackSkipsOtherRoles(history: seq<Message>, m: Message)
    requires m.role != "user"
    ensures FallbackLang(history + [m]) == FallbackLang(history)
  {
    assert (history + [m])[..|history|] == history;
  }

  /** ... and a new user message decides alone, whatever came before it. */
  lemma FallbackLastUserDecides(history: seq<Message>, m: Message)
    requires m.role == "user"
    ensures FallbackLang(history + [m]) == (if HasHebrew(m.content) then "he" else "en")
  {
  }
}
