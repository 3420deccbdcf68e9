/**
 * The secondary extraction call: the conversation is flattened into one user
 * message, a strict-JSON system prompt is put before it, and the model's reply
 * is cleaned of markdown fences, decoded and cut down to the profile's keys.
 * The model call and json.loads are parameters.
 */
module ProfileExtractor {
  import opened Wrappers
  import opened Text
  import opened Models

  /** The keys of JSON_TEMPLATE, in order; every value of the template is null. */
  const TemplateKeys: seq<string> :=
    ["first_name", "last_name", "id_number", "gender", "age", "hmo", "hmo_card", "tier"]

  /** The template has exactly the fields of UserInfo, in the same order. */
  lemma TemplateMatchesUserInfo()
    ensures TemplateKeys == FieldNames
  {
  }

  /** One line of json.dumps(JSON_TEMPLATE, indent=2). */
  function TemplateLine(key: string): string {
    "  \"" + key + "\": null"
  }

  /** json.dumps(template, ensure_ascii=False, indent=2) for a template whose every value is null. */
  function DumpTemplate(keys: seq<string>): string {
    "{\n" + Join(seq(|keys|, i requires 0 <= i < |keys| => TemplateLine(keys[i])), ",\n") + "\n}"
  }

  const SysPrompt: string :=
    "You are a strict JSON extractor. "
    + "Given the conversation so far, return ONLY the following JSON "
    + "with the fields you can infer filled in (all others must be null).\n\n"
    + DumpTemplate(TemplateKeys)

  /** The system prompt names every template key, quoted. */
  lemma SysPromptNamesEveryKey(key: string)
    requires key in TemplateKeys
    ensures Contains(SysPrompt, "\"" + key + "\"")
  {
    var i :| 0 <= i < |TemplateKeys| && TemplateKeys[i] == key;
    var lines := seq(|TemplateKeys|, j requires 0 <= j < |TemplateKeys| => TemplateLine(TemplateKeys[j]));
    var quoted := "\"" + key + "\"";
    assert TemplateLine(key) == "  " + quoted + ": null";
    ContainsMiddle("  ", quoted, ": null");
    JoinContainsPart(lines, ",\n", i);
    ContainsTrans(Join(lines, ",\n"), TemplateLine(key), quoted);
    var dump := DumpTemplate(TemplateKeys);
    ContainsMiddle("{\n", Join(lines, ",\n"), "\n}");
    ContainsTrans(dump, Join(lines, ",\n"), quoted);
    var intro := SysPrompt[..|SysPrompt| - |dump|];
    assert SysPrompt == intro + dump + "";
    ContainsMiddle(intro, dump, "");
    ContainsTrans(SysPrompt, dump, quoted);
  }

  /** One history line, "role: content". */
  function HistoryLine(m: Message): string {
    m.role + ": " + m.content
  }

  function HistoryLines(history: seq<Message>): (r: seq<string>)
    ensures |r| == |history|
    ensures forall i :: 0 <= i < |history| ==> r[i] == HistoryLine(history[i])
  {
    seq(|history|, i requires 0 <= i < |history| => HistoryLine(history[i]))
  }

  /** _format_history: one "role: content" line per message, in history order, joined by newlines. */
  function FormatHistory(history: seq<Message>): string {
    Join(HistoryLines(history), "\n")
  }

  /**
   * When no role or content holds a newline, splitting the flattened history on
   * newlines gives back one "role: content" line per message.
   */
  lemma FormatHistoryLines(history: seq<Message>)
    requires history != []
    requires forall i :: 0 <= i < |history| ==> '\n' !in history[i].role && '\n' !in history[i].content
    ensures Split(FormatHistory(history), '\n') == HistoryLines(history)
  {
    var lines := HistoryLines(history);
    forall i | 0 <= i < |lines|
      ensures '\n' !in lines[i]
    {
      var m := history[i];
      assert lines[i] == m.role + ": " + m.content;
    }
    SplitJoin(lines, '\n');
  }

  /** An empty history flattens to the empty string. */
  lemma FormatEmptyHistory()
    ensures FormatHistory([]) == ""
  {
  }

  /** The two messages sent to the extraction model. */
  function ExtractorMessages(history: seq<Message>): (r: seq<Message>)
    ensures |r| == 2
    ensures r[0].role == "system" && r[1].role == "user"
    ensures forall key :: key in TemplateKeys ==> Contains(r[0].content, "\"" + key + "\"")
    ensures r[1].content == FormatHistory(history)
  {
    forall key | key in TemplateKeys
      ensures Contains(SysPrompt, "\"" + key + "\"")
    {
      SysPromptNamesEveryKey(key);
    }
    [Message("system", SysPrompt), Message("user", FormatHistory(history))]
  }

  /** The reply starts with "```json" in any ASCII letter case. */
  predicate JsonFenceAt(s: string) {
    |s| >= 7 && Lower(s[..7]) == "```json"
  }

  /**
   * re.sub(r"^```json|```$", "", raw.strip(), flags=re.I).strip(): the opening
   * fence can only match at the start, and the closing one only at the end of
   * what the opening fence left (the stripped text has no final newline for `$`
   * to stop before).
   */
  function StripFences(raw: string): (r: string)
    ensures Trimmed(r)
  {
    Strip(DropClosingFence(DropOpeningFence(Strip(raw))))
  }

  /** The `^```json` alternative. */
  function DropOpeningFence(s: string): string {
    if JsonFenceAt(s) then s[7..] else s
  }

  /** The ````$` alternative, on what the opening fence left. */
  function DropClosingFence(body: string): string {
    if |body| >= 3 && body[|body| - 3..] == "```" then body[..|body| - 3] else body
  }

  lemma OpeningFence(tag: string, rest: string)
    requires |tag| == 7 && Lower(tag) == "```json"
    ensures JsonFenceAt(tag + rest) && (tag + rest)[7..] == rest && (tag + rest)[0] == '`'
  {
    assert (tag + rest)[..7] == tag;
    assert LowerChar(tag[0]) == '`';
  }

  lemma ClosingFenceOff(inner: string)
    ensures DropClosingFence(inner + "```") == inner
  {
    var body := inner + "```";
    assert body[|body| - 3..] == "```";
    assert body[..|body| - 3] == inner;
  }

  /** StripFences is the composition of its four steps. */
  lemma StripFencesSteps(raw: string, s: string, body: string, inner: string, out: string)
    requires Strip(raw) == s && DropOpeningFence(s) == body
    requires DropClosingFence(body) == inner && Strip(inner) == out
    ensures StripFences(raw) == out
  {
  }

  /** The opening fence comes off a fenced text with no whitespace outside its fences. */
  lemma OpeningFenceOff(tag: string, inner: string)
    requires |tag| == 7 && Lower(tag) == "```json"
    ensures Trimmed(tag + (inner + "```"))
    ensures DropOpeningFence(tag + (inner + "```")) == inner + "```"
  {
    var rest := inner + "```";
    var fenced := tag + rest;
    OpeningFence(tag, rest);
    assert fenced[|fenced| - 1] == '`';
  }

  /** Whitespace around the reply does not matter. */
  lemma StripFencesOuterSpace(raw: string)
    ensures StripFences(raw) == StripFences(Strip(raw))
  {
    StripTrimmed(Strip(raw));
  }

  lemma FencedRegroup(w1: string, tag: string, v1: string, payload: string, v2: string, w2: string)
    ensures w1 + tag + v1 + payload + v2 + "```" + w2 == w1 + (tag + (v1 + payload + v2 + "```")) + w2
  {
  }

  lemma FencedGrouped(w1: string, tag: string, v1: string, payload: string, v2: string, w2: string)
    requires AllSpace(w1) && AllSpace(v1) && AllSpace(v2) && AllSpace(w2)
    requires |tag| == 7 && Lower(tag) == "```json" && Trimmed(payload)
    ensures StripFences(w1 + (tag + (v1 + payload + v2 + "```")) + w2) == payload
  {
    var inner := v1 + payload + v2;
    var fenced := tag + (inner + "```");
    OpeningFenceOff(tag, inner);
    StripSurrounded(w1, fenced, w2);
    ClosingFenceOff(inner);
    StripSurrounded(v1, payload, v2);
    StripFencesSteps(w1 + fenced + w2, fenced, inner + "```", inner, payload);
  }

  /** A fenced payload comes out as the payload, whatever whitespace surrounds it or its fences. */
  lemma FencedPayload(w1: string, tag: string, v1: string, payload: string, v2: string, w2: string)
    requires AllSpace(w1) && AllSpace(v1) && AllSpace(v2) && AllSpace(w2)
    requires |tag| == 7 && Lower(tag) == "```json" && Trimmed(payload)
    ensures StripFences(w1 + tag + v1 + payload + v2 + "```" + w2) == payload
  {
    FencedRegroup(w1, tag, v1, payload, v2, w2);
    FencedGrouped(w1, tag, v1, payload, v2, w2);
  }

  /** A reply without fences is only stripped. */
  lemma UnfencedReply(raw: string)
    requires !JsonFenceAt(Strip(raw))
    requires var s := Strip(raw); !(|s| >= 3 && s[|s| - 3..] == "```")
    ensures StripFences(raw) == Strip(raw)
  {
    var s := Strip(raw);
    StripTrimmed(s);
    assert DropClosingFence(DropOpeningFence(s)) == s;
  }

  /** What json.loads yields: a decode failure, an object, or any other JSON value. */
  datatype JsonDoc = DecodeError | Object(fields: Dict) | NonObject

  const TemplateKeySet: set<string> := set k | k in TemplateKeys

  /** {k: data.get(k) for k in JSON_TEMPLATE}. */
  function KeepTemplateKeys(data: Dict): (r: Dict)
    ensures r.Keys == TemplateKeySet
  {
    map k | k in TemplateKeySet :: if k in data then data[k] else Null
  }

  /** The filter keeps the template keys' values, sends absent ones to None and drops every other key. */
  lemma KeepTemplateKeysMeaning(data: Dict, extra: Dict)
    requires forall k :: k in extra ==> k !in TemplateKeys
    ensures forall k :: k in TemplateKeys && k in data ==> KeepTemplateKeys(data)[k] == data[k]
    ensures forall k :: k in TemplateKeys && k !in data ==> KeepTemplateKeys(data)[k] == Null
    ensures KeepTemplateKeys(data + extra) == KeepTemplateKeys(data)
    ensures KeepTemplateKeys(KeepTemplateKeys(data)) == KeepTemplateKeys(data)
  {
  }

  /** Filtering does not change which record the dictionary builds. */
  lemma KeepTemplateKeysFromDict(data: Dict)
    ensures FromDict(KeepTemplateKeys(data)) == FromDict(data)
  {
    var kept := KeepTemplateKeys(data);
    assert forall k :: k in FieldNames ==> StrField(kept, k) == StrField(data, k) && IntField(kept, k) == IntField(data, k);
    SameFields(kept, data);
  }

  /** What escapes extract_profile: the model call raising, or `.get` on a JSON value that is not an object. */
  datatype ExtractError = ChatRaised | NotAnObject

  /**
   * extract_profile(history): llm is the model call (None when it raises) and
   * parse is json.loads. A decode failure yields the empty dictionary.
   */
  function ExtractProfile(history: seq<Message>, llm: seq<Message> -> Option<string>, parse: string -> JsonDoc): (r: Result<Dict, ExtractError>)
    ensures r == Failure(ChatRaised) <==> llm(ExtractorMessages(history)).None?
    ensures r.Success? ==> r.value == map[] || r.value.Keys == TemplateKeySet
  {
    match llm(ExtractorMessages(history))
    case None => Failure(ChatRaised)
    case Some(raw) =>
      match parse(StripFences(raw))
      case DecodeError => Success(map[])
      case Object(data) => Success(KeepTemplateKeys(data))
      case NonObject => Failure(NotAnObject)
  }

  /** A reply that does not decode gives the empty dictionary and raises nothing. */
  lemma DecodeFailureIsEmpty(history: seq<Message>, llm: seq<Message> -> Option<string>, parse: string -> JsonDoc)
    requires llm(ExtractorMessages(history)).Some?
    requires parse(StripFences(llm(ExtractorMessages(history)).value)) == DecodeError
    ensures ExtractProfile(history, llm, parse) == Success(map[])
  {
  }
}
