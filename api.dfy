/**
 * The /chat turn: the two-phase state machine info_collection -> qa. A turn
 * checks the phase, picks the language and the system prompt, gathers and
 * validates the profile (extracting new fields with the model during
 * info_collection), switches to qa once the profile is complete, injects the
 * profile and the knowledge-base context in qa, asks the model, and builds
 * the response.
 *
 * The language detector, the chat model and json.loads are opaque functions
 * in Env; every list of messages handed to the chat model is recorded, in
 * call order, so that the model can say which calls a turn makes.
 */
module Api {
  import opened Wrappers
  import opened Text
  import opened Models
  import Validators
  import Utils
  import Prompts
  import ProfileExtractor
  import KbSearch

  const InfoCollection: string := "info_collection"
  const Qa: string := "qa"

  const BadPhaseDetail: string := "Phase must be 'info_collection' or 'qa'."
  const IncompleteDetail: string := "Incomplete or invalid profile for QA phase."

  /** The services a turn calls: language detection, the chat model, and json.loads. */
  datatype Env = Env(
    detect: string -> Option<string>,
    llm: seq<Message> -> Option<string>,
    parse: string -> ProfileExtractor.JsonDoc)

  /** The retriever's state: its index, embedding client, similarity and top_k. */
  datatype Retrieval = Retrieval(
    index: seq<KbSearch.Entry>,
    embed: string -> KbSearch.Vector,
    score: (KbSearch.Vector, KbSearch.Vector) -> real,
    topK: int)

  /** The raised exception a failed turn reports: HTTPException(status, detail), or an unexpected one (status 500). */
  datatype Fault = ExtractionFailed(cause: ProfileExtractor.ExtractError) | ChatFailed
  datatype ChatError = HttpError(status: int, detail: string) | ServerError(fault: Fault)

  // ---------------------------------------------------------------------
  // gather_profile
  // ---------------------------------------------------------------------

  /** dict(existing or {}): the fields of the request's user_info, or nothing. */
  function Existing(existing: Option<UserInfo>): Dict {
    match existing
    case None => map[]
    case Some(u) => ToDict(u)
  }

  /** profile.update({k: v for k, v in extracted.items() if v}). */
  function Merge(profile: Dict, extracted: Dict): Dict {
    map k | k in profile.Keys + extracted.Keys && (k in profile || Truthy(extracted[k])) ::
      if k in extracted && Truthy(extracted[k]) then extracted[k] else profile[k]
  }

  /**
   * Only a truthy extracted value overwrites: None, False, 0 and "" leave
   * the field as it was, present or absent.
   */
  lemma MergeTruthyOnly(profile: Dict, extracted: Dict)
    ensures forall k :: k in extracted && Truthy(extracted[k]) ==> k in Merge(profile, extracted) && Merge(profile, extracted)[k] == extracted[k]
    ensures forall k :: k in profile && (k !in extracted || !Truthy(extracted[k])) ==> k in Merge(profile, extracted) && Merge(profile, extracted)[k] == profile[k]
    ensures forall k :: k !in profile && (k !in extracted || !Truthy(extracted[k])) ==> k !in Merge(profile, extracted)
  {
  }

  /** Merging the same extraction twice changes nothing more. */
  lemma MergeIdempotent(profile: Dict, extracted: Dict)
    ensures Merge(Merge(profile, extracted), extracted) == Merge(profile, extracted)
  {
  }

  /** The profile a turn settles on, and whether it is complete and valid. */
  datatype Gathered = Gathered(profile: Dict, ok: bool)

  /**
   * profile = dict(existing or {}), updated in info_collection with the
   * truthy fields the extractor found; the extractor raising escapes.
   */
  function Merged(phase: string, history: seq<Message>, userText: string, existing: Option<UserInfo>, env: Env)
    : (r: Result<Dict, ProfileExtractor.ExtractError>)
    ensures phase != InfoCollection ==> r == Success(Existing(existing))
    ensures r.Failure? ==> (phase == InfoCollection
      && ProfileExtractor.ExtractProfile(history + [Message("user", userText)], env.llm, env.parse) == Failure(r.error))
    ensures phase == InfoCollection && r.Success? ==> (exists extracted ::
      ProfileExtractor.ExtractProfile(history + [Message("user", userText)], env.llm, env.parse) == Success(extracted)
      && r.value == Merge(Existing(existing), extracted))
  {
    if phase == InfoCollection then
      match ProfileExtractor.ExtractProfile(history + [Message("user", userText)], env.llm, env.parse)
      case Failure(e) => Failure(e)
      case Success(extracted) => Success(Merge(Existing(existing), extracted))
    else Success(Existing(existing))
  }

  /** UserInfo(**profile) succeeds and validate_profile accepts the record. */
  predicate Complete(profile: Dict, lang: string) {
    FromDict(profile).Some? && Validators.ProfileErrors(AsProfile(FromDict(profile).value), lang) == []
  }

  /**
   * gather_profile(phase, history, user_text, lang, existing): extraction
   * (only in info_collection) may raise, and that escapes; a profile that
   * UserInfo rejects is kept with ok false; one that validate_profile rejects
   * is replaced by {}; ok exactly when the merged profile is complete.
   */
  function Gather(phase: string, history: seq<Message>, userText: string, lang: string, existing: Option<UserInfo>, env: Env): (r: Result<Gathered, ProfileExtractor.ExtractError>)
    ensures r.Failure? <==> Merged(phase, history, userText, existing, env).Failure?
    ensures r.Failure? ==> r.error == Merged(phase, history, userText, existing, env).error
    ensures r.Success? ==> (r.value.ok <==> Complete(Merged(phase, history, userText, existing, env).value, lang))
    ensures r.Success? && r.value.ok ==> r.value.profile == Merged(phase, history, userText, existing, env).value
    ensures r.Success? && FromDict(Merged(phase, history, userText, existing, env).value).None? ==>
      r.value == Gathered(Merged(phase, history, userText, existing, env).value, false)
    ensures r.Success? && FromDict(Merged(phase, history, userText, existing, env).value).Some? && !r.value.ok ==>
      r.value == Gathered(map[], false)
    ensures r.Success? && r.value.ok ==> Complete(r.value.profile, lang)
    ensures phase != InfoCollection ==> r.Success? && r.value.profile in {Existing(existing), map[]}
  {
    match Merged(phase, history, userText, existing, env)
    case Failure(e) => Failure(e)
    case Success(profile) =>
      match FromDict(profile)
      case None => Success(Gathered(profile, false))
      case Some(u) =>
        if Validators.ProfileErrors(AsProfile(u), lang) == [] then Success(Gathered(profile, true))
        else Success(Gathered(map[], false))
  }

  /** gather_profile, step by step: copy, update, construct, validate. */
  method GatherProfile(phase: string, history: seq<Message>, userText: string, lang: string, existing: Option<UserInfo>, env: Env)
    returns (r: Result<Gathered, ProfileExtractor.ExtractError>)
    ensures r == Gather(phase, history, userText, lang, existing, env)
  {
    var profile := Existing(existing);
    if phase == InfoCollection {
      var extracted := ProfileExtractor.ExtractProfile(history + [Message("user", userText)], env.llm, env.parse);
      if extracted.Failure? {
        return Failure(extracted.error);
      }
      profile := Merge(profile, extracted.value);
    }
    var user := FromDict(profile);
    if user.None? {
      return Success(Gathered(profile, false));
    }
    var ok, _ := Validators.ValidateProfile(AsProfile(user.value), lang);
    if !ok {
      return Success(Gathered(map[], false));
    }
    return Success(Gathered(profile, true));
  }

  /** In qa, a request that carries a user_info passing validation keeps exactly that profile. */
  lemma GatherQaKeepsUserInfo(history: seq<Message>, userText: string, lang: string, u: UserInfo, env: Env)
    requires ValidUserInfo(u) && Validators.ProfileErrors(AsProfile(u), lang) == []
    ensures Gather(Qa, history, userText, lang, Some(u), env) == Success(Gathered(ToDict(u), true))
  {
    FromToDict(u);
  }

  /** In qa, a request without user_info has no profile. */
  lemma GatherQaWithoutUserInfo(history: seq<Message>, userText: string, lang: string, env: Env)
    ensures Gather(Qa, history, userText, lang, None, env) == Success(Gathered(map[], false))
  {
    assert "first_name" in FieldNames;
    FromDictNeedsEveryField(map[], "first_name");
  }

  // ---------------------------------------------------------------------
  // add_kb_and_profile
  // ---------------------------------------------------------------------

  /** list.insert(i, x): before position i, or at the end when i is past it. */
  function InsertAt<T>(s: seq<T>, i: nat, x: T): (r: seq<T>)
    ensures |r| == |s| + 1
  {
    if i <= |s| then s[..i] + [x] + s[i..] else s + [x]
  }

  /** The profile system message. */
  function ProfileText(u: UserInfo): string {
    "User profile:\n"
      + "Full name: " + u.firstName + " " + u.lastName + "\n"
      + "HMO: " + u.hmo + "\n"
      + "Tier: " + u.tier + "\n"
      + "Age: " + IntToString(u.age) + "\n"
      + "Gender: " + u.gender + "\n"
  }

  /** [h.lower() for h in names]. */
  function LowerAll(names: seq<string>): (r: seq<string>)
    ensures |r| == |names| && forall i :: 0 <= i < |names| ==> r[i] == Lower(names[i])
  {
    seq(|names|, i requires 0 <= i < |names| => Lower(names[i]))
  }

  lemma NamesNoUpper(k: nat)
    requires k < 3
    ensures NoUpper(Utils.HmoNamesHe[k]) && NoUpper(Utils.HmoNamesEn[k])
  {
    if k == 0 {
      assert Utils.HmoNamesHe[k] == "מכבי" && Utils.HmoNamesEn[k] == "maccabi";
    } else if k == 1 {
      assert Utils.HmoNamesHe[k] == "מאוחדת" && Utils.HmoNamesEn[k] == "meuhedet";
    } else {
      assert Utils.HmoNamesHe[k] == "כללית" && Utils.HmoNamesEn[k] == "clalit";
    }
  }

  lemma {:induction false} MentionPairsNoUpper(text: string, n: nat)
    requires n <= 3
    ensures forall i :: 0 <= i < |Utils.MentionPairs(text, n)| ==> NoUpper(Utils.MentionPairs(text, n)[i])
  {
    if n > 0 {
      MentionPairsNoUpper(text, n - 1);
      NamesNoUpper(n - 1);
    }
  }

  /** The detected names are already lower-case, so lowering them changes nothing. */
  lemma DetectedAreLower(text: string)
    ensures LowerAll(Utils.MentionPairs(text, 3)) == Utils.MentionPairs(text, 3)
  {
    var found := Utils.MentionPairs(text, 3);
    MentionPairsNoUpper(text, 3);
    forall i | 0 <= i < |found|
      ensures Lower(found[i]) == found[i]
    {
      LowerNoUpper(found[i]);
    }
  }

  /** `if name not in names: names.append(name)`. */
  function AddIfAbsent(names: seq<string>, name: string): (r: seq<string>) {
    if name in names then names else names + [name]
  }

  /** The profile HMO, lower-cased, or "" when it is empty. */
  function ProfileHmo(u: UserInfo): string {
    if u.hmo != "" then Lower(u.hmo) else ""
  }

  /** EN_2_HE.get(name, name) and HE_2_EN.get(name, name). */
  function HebrewName(name: string): string {
    if name in Utils.En2He then Utils.En2He[name] else name
  }

  function EnglishName(name: string): string {
    if name in Utils.He2En then Utils.He2En[name] else name
  }

  /** The profile HMO's three forms appended to the mentions, each only when absent. */
  function WithProfileHmo(mentions: seq<string>, hmo: string): seq<string> {
    AddIfAbsent(AddIfAbsent(AddIfAbsent(mentions, hmo), HebrewName(hmo)), EnglishName(hmo))
  }

  /** The HMO names the knowledge base is searched for. */
  function RetrievalHmos(userText: string, u: UserInfo): seq<string> {
    WithProfileHmo(LowerAll(Utils.MentionPairs(userText, 3)), ProfileHmo(u))
  }

  predicate Distinct(names: seq<string>) {
    forall i, j :: 0 <= i < j < |names| ==> names[i] != names[j]
  }

  lemma AddIfAbsentDistinct(names: seq<string>, name: string)
    requires Distinct(names)
    ensures Distinct(AddIfAbsent(names, name))
    ensures names <= AddIfAbsent(names, name) && name in AddIfAbsent(names, name)
  {
  }

  /**
   * The search list starts with the mentions, then holds the profile HMO
   * in its lower-cased, Hebrew and English forms, each added once: no name
   * is repeated when the mentions repeat none.
   */
  lemma WithProfileHmoShape(mentions: seq<string>, hmo: string)
    requires Distinct(mentions)
    ensures mentions <= WithProfileHmo(mentions, hmo)
    ensures hmo in WithProfileHmo(mentions, hmo)
    ensures HebrewName(hmo) in WithProfileHmo(mentions, hmo)
    ensures EnglishName(hmo) in WithProfileHmo(mentions, hmo)
    ensures |WithProfileHmo(mentions, hmo)| <= |mentions| + 3
    ensures Distinct(WithProfileHmo(mentions, hmo))
    ensures forall n :: n in WithProfileHmo(mentions, hmo) <==>
      n in mentions || n == hmo || n == HebrewName(hmo) || n == EnglishName(hmo)
  {
    var s1 := AddIfAbsent(mentions, hmo);
    var s2 := AddIfAbsent(s1, HebrewName(hmo));
    AddIfAbsentDistinct(mentions, hmo);
    AddIfAbsentDistinct(s1, HebrewName(hmo));
    AddIfAbsentDistinct(s2, EnglishName(hmo));
    assert hmo in s2 by {
      assert s1 <= s2;
    }
  }

  /** The search list: the mentions, then the profile HMO's missing forms, none repeated. */
  lemma RetrievalHmosShape(userText: string, u: UserInfo)
    ensures Utils.MentionPairs(userText, 3) <= RetrievalHmos(userText, u)
    ensures ProfileHmo(u) in RetrievalHmos(userText, u)
    ensures HebrewName(ProfileHmo(u)) in RetrievalHmos(userText, u)
    ensures EnglishName(ProfileHmo(u)) in RetrievalHmos(userText, u)
    ensures |RetrievalHmos(userText, u)| <= |Utils.MentionPairs(userText, 3)| + 3
    ensures Distinct(RetrievalHmos(userText, u))
    ensures forall n :: n in RetrievalHmos(userText, u) <==>
      n in Utils.MentionPairs(userText, 3) || n == ProfileHmo(u) || n == HebrewName(ProfileHmo(u)) || n == EnglishName(ProfileHmo(u))
  {
    DetectedAreLower(userText);
    Utils.DetectHmosDistinct(userText);
    WithProfileHmoShape(Utils.MentionPairs(userText, 3), ProfileHmo(u));
  }

  /** A Hebrew HMO name has no English translation to undo and translates to its English name. */
  lemma HebrewNameForms(k: nat)
    requires k < 3
    ensures HebrewName(Utils.HmoNamesHe[k]) == Utils.HmoNamesHe[k]
    ensures EnglishName(Utils.HmoNamesHe[k]) == Utils.HmoNamesEn[k]
  {
    Utils.En2HeContents();
    Utils.TranslationInverse();
    if k == 0 {
      assert Utils.HmoNamesHe[k] == "מכבי";
    } else if k == 1 {
      assert Utils.HmoNamesHe[k] == "מאוחדת";
    } else {
      assert Utils.HmoNamesHe[k] == "כללית";
    }
  }

  /** A profile whose HMO is a Hebrew name is searched for under both its names. */
  lemma RetrievalHmosBothNames(userText: string, u: UserInfo, k: nat)
    requires k < 3 && u.hmo == Utils.HmoNamesHe[k]
    ensures Utils.HmoNamesHe[k] in RetrievalHmos(userText, u) && Utils.HmoNamesEn[k] in RetrievalHmos(userText, u)
  {
    NamesNoUpper(k);
    LowerNoUpper(u.hmo);
    HebrewNameForms(k);
    RetrievalHmosShape(userText, u);
  }

  /**
   * With a Hebrew profile HMO, another HMO that the message does not mention
   * is searched under neither of its names.
   */
  lemma UnmentionedHmoNotSearched(userText: string, u: UserInfo, j: nat, k: nat)
    requires j < 3 && k < 3 && j != k && u.hmo == Utils.HmoNamesHe[j] && !Utils.Mentions(userText, k)
    ensures Utils.HmoNamesHe[k] !in RetrievalHmos(userText, u) && Utils.HmoNamesEn[k] !in RetrievalHmos(userText, u)
  {
    ProfileHmoForms(u, j);
    RetrievalHmosShape(userText, u);
    Utils.NamesDistinct();
    Utils.DetectHmosHebrewMember(userText, k);
    Utils.DetectHmosEnglishMember(userText, k);
  }

  /** A Hebrew profile HMO's three forms are its Hebrew name (twice) and its English name. */
  lemma ProfileHmoForms(u: UserInfo, j: nat)
    requires j < 3 && u.hmo == Utils.HmoNamesHe[j]
    ensures ProfileHmo(u) == Utils.HmoNamesHe[j] && HebrewName(ProfileHmo(u)) == Utils.HmoNamesHe[j]
    ensures EnglishName(ProfileHmo(u)) == Utils.HmoNamesEn[j]
  {
    NamesNoUpper(j);
    LowerNoUpper(u.hmo);
    HebrewNameForms(j);
  }

  /** The retrieval query: the last two history messages, each followed by "\n", then the message. */
  function Query(history: seq<Message>, userText: string): (q: string)
    ensures |history| < 2 ==> q == userText
    ensures |q| >= |userText| && q[|q| - |userText|..] == userText
  {
    var n := |history|;
    var extra := if n >= 2 then history[n - 2].content + "\n" + history[n - 1].content + "\n" else "";
    assert (extra + userText)[|extra|..] == userText;
    extra + userText
  }

  /** The messages after add_kb_and_profile: the profile message at index 1, the knowledge-base message at index 2. */
  function WithKbAndProfile(messages: seq<Message>, profile: string, ctx: string): seq<Message> {
    InsertAt(InsertAt(messages, 1, Message("system", profile)), 2, Message("system", "Knowledge Base:\n" + ctx))
  }

  /** The insertions keep the system prompt first and every other message, in order, after the two new ones. */
  lemma WithKbAndProfileShape(messages: seq<Message>, profile: string, ctx: string)
    requires |messages| >= 1
    ensures |WithKbAndProfile(messages, profile, ctx)| == |messages| + 2
    ensures WithKbAndProfile(messages, profile, ctx)[0] == messages[0]
    ensures WithKbAndProfile(messages, profile, ctx)[1] == Message("system", profile)
    ensures WithKbAndProfile(messages, profile, ctx)[2] == Message("system", "Knowledge Base:\n" + ctx)
    ensures WithKbAndProfile(messages, profile, ctx)[3..] == messages[1..]
  {
    var m1 := InsertAt(messages, 1, Message("system", profile));
    assert m1 == [messages[0]] + [Message("system", profile)] + messages[1..];
    assert m1[2..] == messages[1..];
  }

  /** The names appended to the detected mentions, step by step. */
  method SearchNames(userText: string, u: UserInfo) returns (names: seq<string>)
    ensures names == RetrievalHmos(userText, u)
  {
    var found := Utils.DetectHmos(userText);
    names := LowerAll(found);
    var hmo := if u.hmo != "" then Lower(u.hmo) else "";
    var he := if hmo in Utils.En2He then Utils.En2He[hmo] else hmo;
    var en := if hmo in Utils.He2En then Utils.He2En[hmo] else hmo;
    if hmo !in names {
      names := names + [hmo];
    }
    if he !in names {
      names := names + [he];
    }
    if en !in names {
      names := names + [en];
    }
  }

  /** add_kb_and_profile(messages, profile, user_text, lang, history), on the retriever's index. */
  method AddKbAndProfile(messages: seq<Message>, u: UserInfo, userText: string, history: seq<Message>, retriever: KbSearch.Retriever)
    returns (out: seq<Message>)
    ensures out == WithKbAndProfile(messages, ProfileText(u), KbSearch.ContextOf(retriever.emb.index, retriever.emb.embed,
      retriever.emb.score, retriever.emb.topK, RetrievalHmos(userText, u), Query(history, userText)))
  {
    out := InsertAt(messages, 1, Message("system", ProfileText(u)));
    var names := SearchNames(userText, u);
    var extra := "";
    if |history| >= 2 {
      extra := history[|history| - 2].content + "\n" + history[|history| - 1].content + "\n";
    }
    var query := extra + userText;
    var ctx := retriever.BuildContext(names, query);
    out := InsertAt(out, 2, Message("system", "Knowledge Base:\n" + ctx));
  }

  // ---------------------------------------------------------------------
  // chat
  // ---------------------------------------------------------------------

  /** What one turn yields, and the message lists it handed to the chat model, in call order. */
  datatype Turn = Turn(result: Result<ChatResponse, ChatError>, sent: seq<seq<Message>>)

  predicate KnownPhase(phase: string) {
    phase == InfoCollection || phase == Qa
  }

  /** The system prompt of a known phase. */
  function SystemPrompt(phase: string, lang: string): (r: string)
    requires KnownPhase(phase)
    ensures r in Prompts.PromptTable[phase].Values
  {
    Prompts.PromptTableShape();
    Prompts.GetSystemPrompt(phase, lang).value
  }

  /** [system_msg, *history, user message]. */
  function BaseMessages(system: string, req: ChatRequest): seq<Message> {
    [Message("system", system)] + req.history + [Message("user", req.message)]
  }

  /** The language of the turn. */
  function TurnLang(req: ChatRequest, env: Env): string {
    Utils.DetectLang(env.detect(req.message), req.history)
  }

  /** The extractor call a turn in this phase makes. */
  function ExtractorCalls(phase: string, history: seq<Message>, userText: string): seq<seq<Message>> {
    if phase == InfoCollection then [ProfileExtractor.ExtractorMessages(history + [Message("user", userText)])] else []
  }

  /** The knowledge-base context retrieved for a qa turn. */
  function KbContext(rv: Retrieval, req: ChatRequest, u: UserInfo): string {
    KbSearch.ContextOf(rv.index, rv.embed, rv.score, rv.topK, RetrievalHmos(req.message, u), Query(req.history, req.message))
  }

  /** The retrieval a qa turn makes, as a function of the profile. */
  function KbOf(rv: Retrieval, req: ChatRequest): UserInfo -> string {
    u => KbContext(rv, req, u)
  }

  /**
   * The rest of the turn once the system prompt is chosen and the profile
   * settled: ok says whether it is complete and valid, user is
   * UserInfo(**profile), and kb gives the context retrieved for a profile.
   */
  function Answer(req: ChatRequest, env: Env, system: string, kb: UserInfo -> string, ok: bool, user: Option<UserInfo>): Turn
    requires ok ==> user.Some?
  {
    var phase := if req.phase == InfoCollection && ok then Qa else req.phase;
    if phase == Qa && !ok then Turn(Failure(HttpError(400, IncompleteDetail)), [])
    else
      var messages := BaseMessages(system, req);
      var prompt := if phase == Qa then WithKbAndProfile(messages, ProfileText(user.value), kb(user.value)) else messages;
      match env.llm(prompt)
      case None => Turn(Failure(ServerError(ChatFailed)), [prompt])
      case Some(reply) =>
        var history := req.history + [Message("user", req.message), Message("assistant", reply)];
        Turn(Success(ChatResponse(reply, history, if ok then user else None, ok)), [prompt])
  }

  /** The settled profile: whether it is complete and valid, and UserInfo(**profile). */
  datatype Settled = Settled(ok: bool, user: Option<UserInfo>)

  /** gather_profile's outcome, with the profile constructed as chat constructs it. */
  function Settle(phase: string, history: seq<Message>, userText: string, lang: string, existing: Option<UserInfo>, env: Env)
    : (r: Result<Settled, ProfileExtractor.ExtractError>)
    ensures r.Success? && r.value.ok ==> r.value.user.Some? && ValidUserInfo(r.value.user.value)
    ensures r.Failure? <==> Merged(phase, history, userText, existing, env).Failure?
    ensures r.Failure? ==> phase == InfoCollection
    ensures r.Success? ==> (r.value.ok <==> Complete(Merged(phase, history, userText, existing, env).value, lang))
    ensures r.Success? && r.value.ok ==> r.value.user == FromDict(Merged(phase, history, userText, existing, env).value)
  {
    match Gather(phase, history, userText, lang, existing, env)
    case Failure(e) => Failure(e)
    case Success(g) => Success(Settled(g.ok, FromDict(g.profile)))
  }

  /** The turn after the system prompt is chosen and gather_profile has returned or raised. */
  function TurnAfter(req: ChatRequest, env: Env, system: string, kb: UserInfo -> string, outcome: Result<Settled, ProfileExtractor.ExtractError>): Turn
    requires outcome.Success? && outcome.value.ok ==> outcome.value.user.Some?
  {
    var calls := ExtractorCalls(req.phase, req.history, req.message);
    match outcome
    case Failure(e) => Turn(Failure(ServerError(ExtractionFailed(e))), calls)
    case Success(s) =>
      var answer := Answer(req, env, system, kb, s.ok, s.user);
      Turn(answer.result, calls + answer.sent)
  }

  /** The turn the code takes, as a function of the request, the services and the retriever. */
  function ChatTurn(req: ChatRequest, env: Env, rv: Retrieval): Turn {
    if !KnownPhase(req.phase) then Turn(Failure(HttpError(400, BadPhaseDetail)), [])
    else
      var lang := TurnLang(req, env);
      TurnAfter(req, env, SystemPrompt(req.phase, lang), KbOf(rv, req),
        Settle(req.phase, req.history, req.message, lang, req.userInfo, env))
  }

  /** The phase switch, the qa check, the injection and the model call of chat. */
  method AnswerTurn(req: ChatRequest, env: Env, retriever: KbSearch.Retriever, system: string, ok: bool, user: Option<UserInfo>)
    returns (turn: Turn)
    requires ok ==> user.Some?
    ensures turn == Answer(req, env, system,
      KbOf(Retrieval(retriever.emb.index, retriever.emb.embed, retriever.emb.score, retriever.emb.topK), req), ok, user)
  {
    var messages := BaseMessages(system, req);
    var phase := req.phase;
    if phase == InfoCollection && ok {
      phase := Qa;
    }
    if phase == Qa {
      if !ok {
        return Turn(Failure(HttpError(400, IncompleteDetail)), []);
      }
      messages := AddKbAndProfile(messages, user.value, req.message, req.history, retriever);
    }
    var reply := env.llm(messages);
    if reply.None? {
      return Turn(Failure(ServerError(ChatFailed)), [messages]);
    }
    var history := req.history + [Message("user", req.message), Message("assistant", reply.value)];
    var userInfo := if ok then user else None;
    return Turn(Success(ChatResponse(reply.value, history, userInfo, ok)), [messages]);
  }

  /** The /chat endpoint, on the module-level retriever. */
  method Chat(req: ChatRequest, env: Env, retriever: KbSearch.Retriever) returns (turn: Turn)
    ensures turn == ChatTurn(req, env, Retrieval(retriever.emb.index, retriever.emb.embed, retriever.emb.score, retriever.emb.topK))
  {
    if req.phase != InfoCollection && req.phase != Qa {
      return Turn(Failure(HttpError(400, BadPhaseDetail)), []);
    }
    var lang := Utils.DetectLang(env.detect(req.message), req.history);
    var system := SystemPrompt(req.phase, lang);
    var calls := ExtractorCalls(req.phase, req.history, req.message);
    var gathered := GatherProfile(req.phase, req.history, req.message, lang, req.userInfo, env);
    if gathered.Failure? {
      return Turn(Failure(ServerError(ExtractionFailed(gathered.error))), calls);
    }
    var user := FromDict(gathered.value.profile);
    var answer := AnswerTurn(req, env, retriever, system, gathered.value.ok, user);
    return Turn(answer.result, calls + answer.sent);
  }

  // ---------------------------------------------------------------------
  // Properties of a turn
  // ---------------------------------------------------------------------

  /** A qa answer whose profile is not ok is a 400 and calls nothing. */
  lemma AnswerQaIncomplete(req: ChatRequest, env: Env, system: string, kb: UserInfo -> string, user: Option<UserInfo>)
    requires req.phase == Qa
    ensures Answer(req, env, system, kb, false, user) == Turn(Failure(HttpError(400, IncompleteDetail)), [])
  {
  }

  /**
   * An answered turn returns the history extended by the user turn and the
   * reply, full_info equal to ok and user_info present exactly when ok; the
   * reply is what the model said to the one list it was sent.
   */
  lemma AnswerShape(req: ChatRequest, env: Env, system: string, kb: UserInfo -> string, ok: bool, user: Option<UserInfo>)
    requires ok ==> user.Some?
    requires Answer(req, env, system, kb, ok, user).result.Success?
    ensures |Answer(req, env, system, kb, ok, user).sent| == 1
    ensures Answer(req, env, system, kb, ok, user).result.value.history
      == req.history + [Message("user", req.message), Message("assistant", Answer(req, env, system, kb, ok, user).result.value.reply)]
    ensures Answer(req, env, system, kb, ok, user).result.value.fullInfo == ok
    ensures Answer(req, env, system, kb, ok, user).result.value.userInfo == (if ok then user else None)
    ensures env.llm(Answer(req, env, system, kb, ok, user).sent[0]) == Some(Answer(req, env, system, kb, ok, user).result.value.reply)
  {
  }

  /**
   * With a complete profile the model is asked with the profile at index 1
   * and the knowledge base at index 2, whichever phase the request named;
   * the system prompt stays first.
   */
  lemma AnswerInjects(req: ChatRequest, env: Env, system: string, kb: UserInfo -> string, u: UserInfo)
    requires KnownPhase(req.phase)
    ensures |Answer(req, env, system, kb, true, Some(u)).sent| == 1
    ensures Answer(req, env, system, kb, true, Some(u)).sent[0][0] == Message("system", system)
    ensures Answer(req, env, system, kb, true, Some(u)).sent[0][1] == Message("system", ProfileText(u))
    ensures Answer(req, env, system, kb, true, Some(u)).sent[0][2] == Message("system", "Knowledge Base:\n" + kb(u))
    ensures Answer(req, env, system, kb, true, Some(u)).sent[0][3..] == req.history + [Message("user", req.message)]
  {
    var messages := BaseMessages(system, req);
    WithKbAndProfileShape(messages, ProfileText(u), kb(u));
    assert messages[1..] == req.history + [Message("user", req.message)];
  }

  /** Without a complete profile an info_collection turn asks with the prompt, the history and the message alone. */
  lemma AnswerCollecting(req: ChatRequest, env: Env, system: string, kb: UserInfo -> string, user: Option<UserInfo>)
    requires req.phase == InfoCollection
    ensures Answer(req, env, system, kb, false, user).sent == [BaseMessages(system, req)]
  {
  }

  /** A failed extraction is a 500 after the one extractor call. */
  lemma TurnExtractionFailed(req: ChatRequest, env: Env, system: string, kb: UserInfo -> string, e: ProfileExtractor.ExtractError)
    requires req.phase == InfoCollection
    ensures TurnAfter(req, env, system, kb, Failure(e))
      == Turn(Failure(ServerError(ExtractionFailed(e))), [ProfileExtractor.ExtractorMessages(req.history + [Message("user", req.message)])])
  {
  }

  /** A qa turn never calls the extractor: the only model call, if any, is the answer itself. */
  lemma QaNeverExtracts(req: ChatRequest, env: Env, system: string, kb: UserInfo -> string, outcome: Result<Settled, ProfileExtractor.ExtractError>)
    requires req.phase == Qa && outcome.Success?
    requires outcome.value.ok ==> outcome.value.user.Some?
    ensures TurnAfter(req, env, system, kb, outcome).sent == Answer(req, env, system, kb, outcome.value.ok, outcome.value.user).sent
    ensures |TurnAfter(req, env, system, kb, outcome).sent| <= 1
  {
  }

  /** A qa turn whose profile is not complete and valid is rejected with 400 and the model is never called. */
  lemma QaIncompleteRejected(req: ChatRequest, env: Env, system: string, kb: UserInfo -> string, user: Option<UserInfo>)
    requires req.phase == Qa
    ensures TurnAfter(req, env, system, kb, Success(Settled(false, user))) == Turn(Failure(HttpError(400, IncompleteDetail)), [])
  {
    AnswerQaIncomplete(req, env, system, kb, user);
  }

  /**
   * An info_collection turn that completes the profile switches to qa at
   * once: after the extractor call the answer is asked with the profile at
   * index 1 and the knowledge base at index 2, under the system prompt
   * chosen before the switch, and an answer reports full_info with the user.
   */
  lemma SwitchInjectsContext(req: ChatRequest, env: Env, system: string, kb: UserInfo -> string, u: UserInfo)
    requires req.phase == InfoCollection
    ensures |TurnAfter(req, env, system, kb, Success(Settled(true, Some(u)))).sent| == 2
    ensures |TurnAfter(req, env, system, kb, Success(Settled(true, Some(u)))).sent[1]| >= 3
    ensures TurnAfter(req, env, system, kb, Success(Settled(true, Some(u)))).sent[0]
      == ProfileExtractor.ExtractorMessages(req.history + [Message("user", req.message)])
    ensures TurnAfter(req, env, system, kb, Success(Settled(true, Some(u)))).sent[1][0] == Message("system", system)
    ensures TurnAfter(req, env, system, kb, Success(Settled(true, Some(u)))).sent[1][1] == Message("system", ProfileText(u))
    ensures TurnAfter(req, env, system, kb, Success(Settled(true, Some(u)))).sent[1][2] == Message("system", "Knowledge Base:\n" + kb(u))
    ensures TurnAfter(req, env, system, kb, Success(Settled(true, Some(u)))).result.Success? ==>
      TurnAfter(req, env, system, kb, Success(Settled(true, Some(u)))).result.value.fullInfo
      && TurnAfter(req, env, system, kb, Success(Settled(true, Some(u)))).result.value.userInfo == Some(u)
  {
    AnswerInjects(req, env, system, kb, u);
    if Answer(req, env, system, kb, true, Some(u)).result.Success? {
      AnswerShape(req, env, system, kb, true, Some(u));
    }
  }

  /**
   * An info_collection turn that leaves the profile incomplete makes the
   * extractor call, then asks with the prompt, the history and the message
   * alone, and answers with full_info false and no user_info.
   */
  lemma CollectingAsksPlainly(req: ChatRequest, env: Env, system: string, kb: UserInfo -> string, user: Option<UserInfo>)
    requires req.phase == InfoCollection
    ensures TurnAfter(req, env, system, kb, Success(Settled(false, user))).sent
      == [ProfileExtractor.ExtractorMessages(req.history + [Message("user", req.message)]), BaseMessages(system, req)]
    ensures TurnAfter(req, env, system, kb, Success(Settled(false, user))).result.Success? ==>
      !TurnAfter(req, env, system, kb, Success(Settled(false, user))).result.value.fullInfo
      && TurnAfter(req, env, system, kb, Success(Settled(false, user))).result.value.userInfo.None?
  {
    AnswerCollecting(req, env, system, kb, user);
    if Answer(req, env, system, kb, false, user).result.Success? {
      AnswerShape(req, env, system, kb, false, user);
    }
  }

  /**
   * A turn that is answered returns the history extended by the user turn
   * and the reply, full_info saying whether the profile is complete, and
   * user_info exactly when full_info; the reply is the model's answer to the
   * last list it was sent.
   */
  lemma ResponseShape(req: ChatRequest, env: Env, system: string, kb: UserInfo -> string, outcome: Result<Settled, ProfileExtractor.ExtractError>)
    requires outcome.Success? && outcome.value.ok ==> outcome.value.user.Some?
    requires TurnAfter(req, env, system, kb, outcome).result.Success?
    ensures outcome.Success?
    ensures TurnAfter(req, env, system, kb, outcome).result.value.history
      == req.history + [Message("user", req.message), Message("assistant", TurnAfter(req, env, system, kb, outcome).result.value.reply)]
    ensures TurnAfter(req, env, system, kb, outcome).result.value.fullInfo == outcome.value.ok
    ensures TurnAfter(req, env, system, kb, outcome).result.value.userInfo.Some? <==> outcome.value.ok
    ensures |TurnAfter(req, env, system, kb, outcome).sent| >= 1
    ensures env.llm(TurnAfter(req, env, system, kb, outcome).sent[|TurnAfter(req, env, system, kb, outcome).sent| - 1])
      == Some(TurnAfter(req, env, system, kb, outcome).result.value.reply)
  {
    AnswerShape(req, env, system, kb, outcome.value.ok, outcome.value.user);
  }

  /** An unknown phase is rejected with 400 before the profile is touched and before any model call. */
  lemma UnknownPhaseRejected(req: ChatRequest, env: Env, rv: Retrieval)
    requires !KnownPhase(req.phase)
    ensures ChatTurn(req, env, rv) == Turn(Failure(HttpError(400, BadPhaseDetail)), [])
  {
  }

  /** In qa, a request without user_info settles on no profile, so the turn is rejected with 400 and no model call. */
  lemma QaWithoutUserInfoRejected(req: ChatRequest, env: Env, rv: Retrieval)
    requires req.phase == Qa && req.userInfo.None?
    ensures ChatTurn(req, env, rv) == Turn(Failure(HttpError(400, IncompleteDetail)), [])
  {
    var lang := TurnLang(req, env);
    GatherQaWithoutUserInfo(req.history, req.message, lang, env);
    assert Settle(Qa, req.history, req.message, lang, None, env) == Success(Settled(false, FromDict(map[])));
    QaIncompleteRejected(req, env, SystemPrompt(Qa, lang), KbOf(rv, req), FromDict(map[]));
  }

  /**
   * A qa request carrying a user_info that passes validation makes exactly
   * one model call, with that profile injected, and an answer hands the
   * same user_info back with full_info set.
   */
  lemma QaValidProfileAnswered(req: ChatRequest, env: Env, rv: Retrieval, u: UserInfo)
    requires req.phase == Qa && req.userInfo == Some(u) && WellFormedRequest(req)
    requires Validators.ProfileErrors(AsProfile(u), TurnLang(req, env)) == []
    ensures |ChatTurn(req, env, rv).sent| == 1
    ensures ChatTurn(req, env, rv).sent[0][1] == Message("system", ProfileText(u))
    ensures ChatTurn(req, env, rv).result.Success? ==>
      ChatTurn(req, env, rv).result.value.userInfo == Some(u) && ChatTurn(req, env, rv).result.value.fullInfo
  {
    var lang := TurnLang(req, env);
    GatherQaKeepsUserInfo(req.history, req.message, lang, u, env);
    FromToDict(u);
    assert Settle(Qa, req.history, req.message, lang, Some(u), env) == Success(Settled(true, Some(u)));
    var system, kb := SystemPrompt(Qa, lang), KbOf(rv, req);
    AnswerInjects(req, env, system, kb, u);
    if Answer(req, env, system, kb, true, Some(u)).result.Success? {
      AnswerShape(req, env, system, kb, true, Some(u));
    }
  }

  /**
   * An info_collection turn whose merged profile is complete and valid
   * switches to qa in that same turn: after the extractor call, one answer
   * call carries the record's profile text, and an answer reports full_info
   * with that record.
   */
  lemma CompletingTurnSwitches(req: ChatRequest, env: Env, rv: Retrieval)
    requires req.phase == InfoCollection
    requires Merged(InfoCollection, req.history, req.message, req.userInfo, env).Success?
    requires Complete(Merged(InfoCollection, req.history, req.message, req.userInfo, env).value, TurnLang(req, env))
    ensures |ChatTurn(req, env, rv).sent| == 2
    ensures |ChatTurn(req, env, rv).sent[1]| >= 3
    ensures ChatTurn(req, env, rv).sent[1][0] == Message("system", SystemPrompt(InfoCollection, TurnLang(req, env)))
    ensures ChatTurn(req, env, rv).sent[1][1]
      == Message("system", ProfileText(FromDict(Merged(InfoCollection, req.history, req.message, req.userInfo, env).value).value))
    ensures ChatTurn(req, env, rv).sent[1][2] == Message("system", "Knowledge Base:\n"
      + KbContext(rv, req, FromDict(Merged(InfoCollection, req.history, req.message, req.userInfo, env).value).value))
    ensures ChatTurn(req, env, rv).result.Success? ==>
      ChatTurn(req, env, rv).result.value.fullInfo
      && ChatTurn(req, env, rv).result.value.userInfo == FromDict(Merged(InfoCollection, req.history, req.message, req.userInfo, env).value)
  {
    var lang := TurnLang(req, env);
    var m := Merged(InfoCollection, req.history, req.message, req.userInfo, env).value;
    var u := FromDict(m).value;
    var system, kb := SystemPrompt(InfoCollection, lang), KbOf(rv, req);
    assert Settle(InfoCollection, req.history, req.message, lang, req.userInfo, env) == Success(Settled(true, Some(u)));
    assert ChatTurn(req, env, rv) == TurnAfter(req, env, system, kb, Success(Settled(true, Some(u))));
    SwitchInjectsContext(req, env, system, kb, u);
  }

  /**
   * An info_collection turn whose merged profile is not complete and valid
   * stays in info_collection: the extractor call, then the plain
   * conversation, and an answer reports full_info false.
   */
  lemma IncompleteTurnKeepsCollecting(req: ChatRequest, env: Env, rv: Retrieval)
    requires req.phase == InfoCollection
    requires Merged(InfoCollection, req.history, req.message, req.userInfo, env).Success?
    requires !Complete(Merged(InfoCollection, req.history, req.message, req.userInfo, env).value, TurnLang(req, env))
    ensures ChatTurn(req, env, rv).sent == [ProfileExtractor.ExtractorMessages(req.history + [Message("user", req.message)]),
      BaseMessages(SystemPrompt(InfoCollection, TurnLang(req, env)), req)]
    ensures ChatTurn(req, env, rv).result.Success? ==>
      !ChatTurn(req, env, rv).result.value.fullInfo && ChatTurn(req, env, rv).result.value.userInfo.None?
  {
    var lang := TurnLang(req, env);
    var settled := Settle(InfoCollection, req.history, req.message, lang, req.userInfo, env);
    assert settled.Success? && !settled.value.ok;
    CollectingAsksPlainly(req, env, SystemPrompt(InfoCollection, lang), KbOf(rv, req), settled.value.user);
  }
}
