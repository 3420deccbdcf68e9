/**
 * validate_profile: a presence check over the required fields, then, only when
 * every one is present, six value checks whose failures are all collected. The
 * messages are Hebrew for lang "he" and English for any other lang.
 */
module Validators {
  import opened Wrappers
  import opened Text
  import opened Models

  const HMOs: seq<string> :=
    ["מכבי", "מאוחדת", "כללית", "maccabi", "meuhedet", "clalit", "Maccabi", "Meuhedet", "Clalit"]

  const Tiers: seq<string> :=
    ["זהב", "כסף", "ארד", "gold", "silver", "bronze", "Gold", "Silver", "Bronze"]

  /** The fields whose absence is reported, in reporting order; gender is not among them. */
  const RequiredFields: seq<string> :=
    ["id_number", "hmo", "tier", "age", "hmo_card", "first_name", "last_name"]

  /** hasattr(p, field) and getattr(p, field) is not None. */
  predicate Present(p: Profile, field: string) {
    match field
    case "first_name" => p.firstName.Some?
    case "last_name" => p.lastName.Some?
    case "id_number" => p.idNumber.Some?
    case "gender" => p.gender.Some?
    case "age" => p.age.Some?
    case "hmo" => p.hmo.Some?
    case "hmo_card" => p.hmoCard.Some?
    case "tier" => p.tier.Some?
    case _ => false
  }

  function MissingMessage(field: string, lang: string): string {
    if lang == "he" then "שדה " + field + " חסר" else "Missing field: " + field
  }

  /** The errors the presence loop appends while it walks fields. */
  function MissingErrors(p: Profile, fields: seq<string>, lang: string): seq<string> {
    if fields == [] then []
    else
      var last := fields[|fields| - 1];
      MissingErrors(p, fields[..|fields| - 1], lang) + (if Present(p, last) then [] else [MissingMessage(last, lang)])
  }

  predicate AllPresent(p: Profile) {
    p.idNumber.Some? && p.hmo.Some? && p.tier.Some? && p.age.Some?
    && p.hmoCard.Some? && p.firstName.Some? && p.lastName.Some?
  }

  // The value-check messages, in the order the checks run, in Hebrew and in English.
  const IdHe := "מספר תעודת זהות חייב להיות בן 9 ספרות"
  const IdEn := "ID number must have 9 digits"
  const HmoHe := "קופת חולים לא תקינה"
  const HmoEn := "Invalid HMO name"
  const TierHe := "רמת ביטוח לא תקינה"
  const TierEn := "Invalid membership tier"
  const AgeHe := "גיל חייב להיות בין 0 ל-120"
  const AgeEn := "Age must be between 0 and 120"
  const CardHe := "מספר כרטיס קופה חייב להיות בן 9 ספרות"
  const CardEn := "HMO card number must have 9 digits"
  const NameHe := "שם פרטי ושם משפחה לא יכולים להיות ריקים"
  const NameEn := "First and last name cannot be empty"

  function IdMessage(lang: string): string {
    if lang == "he" then IdHe else IdEn
  }
  function HmoMessage(lang: string): string {
    if lang == "he" then HmoHe else HmoEn
  }
  function TierMessage(lang: string): string {
    if lang == "he" then TierHe else TierEn
  }
  function AgeMessage(lang: string): string {
    if lang == "he" then AgeHe else AgeEn
  }
  function CardMessage(lang: string): string {
    if lang == "he" then CardHe else CardEn
  }
  function NameMessage(lang: string): string {
    if lang == "he" then NameHe else NameEn
  }

  /** The list check: exact in the Hebrew branch, after lower() in the other. */
  predicate Listed(value: string, names: seq<string>, lang: string) {
    if lang == "he" then value in names else Lower(value) in names
  }

  /** `if failed: errs.append(message)`. */
  function AppendIf(errs: seq<string>, failed: bool, message: string): seq<string> {
    if failed then errs + [message] else errs
  }

  /** The six value-check messages of one language, in check order. */
  function ValueMessages(lang: string): seq<string> {
    [IdMessage(lang), HmoMessage(lang), TierMessage(lang), AgeMessage(lang), CardMessage(lang), NameMessage(lang)]
  }

  /** The reasons a present profile fails, in check order. */
  function FailedChecks(p: Profile, lang: string): seq<bool>
    requires AllPresent(p)
  {
    [|p.idNumber.value| != 9, !Listed(p.hmo.value, HMOs, lang), !Listed(p.tier.value, Tiers, lang),
     p.age.value < 0 || p.age.value > 120, |p.hmoCard.value| != 9,
     p.firstName.value == "" || p.lastName.value == ""]
  }

  /** The six conditional appends, in order. */
  function SixAppends(errs: seq<string>, messages: seq<string>, flags: seq<bool>): seq<string>
    requires |messages| == |flags| == 6
  {
    var e1 := AppendIf(errs, flags[0], messages[0]);
    var e2 := AppendIf(e1, flags[1], messages[1]);
    var e3 := AppendIf(e2, flags[2], messages[2]);
    var e4 := AppendIf(e3, flags[3], messages[3]);
    var e5 := AppendIf(e4, flags[4], messages[4]);
    AppendIf(e5, flags[5], messages[5])
  }

  /** errs followed by the messages of the failing value checks; no check stops the others. */
  function AppendValueErrors(p: Profile, lang: string, errs: seq<string>): seq<string>
    requires AllPresent(p)
  {
    SixAppends(errs, ValueMessages(lang), FailedChecks(p, lang))
  }

  /** The presence loop appends nothing exactly when every field it walks is present. */
  lemma {:induction false} MissingErrorsEmpty(p: Profile, fields: seq<string>, lang: string)
    ensures MissingErrors(p, fields, lang) == [] <==> forall f :: f in fields ==> Present(p, f)
  {
    if fields != [] {
      var init := fields[..|fields| - 1];
      MissingErrorsEmpty(p, init, lang);
      assert fields == init + [fields[|fields| - 1]];
    }
  }

  lemma AllPresentIff(p: Profile)
    ensures AllPresent(p) <==> forall f :: f in RequiredFields ==> Present(p, f)
  {
    if forall f :: f in RequiredFields ==> Present(p, f) {
      assert Present(p, "id_number") && Present(p, "hmo") && Present(p, "tier") && Present(p, "age");
      assert Present(p, "hmo_card") && Present(p, "first_name") && Present(p, "last_name");
    }
  }

  /** The error list validate_profile returns. */
  function ProfileErrors(p: Profile, lang: string): seq<string> {
    var missing := MissingErrors(p, RequiredFields, lang);
    if missing != [] then missing
    else
      MissingErrorsEmpty(p, RequiredFields, lang);
      AllPresentIff(p);
      AppendValueErrors(p, lang, missing)
  }

  /** The six value checks of validate_profile in the Hebrew branch: exact list membership. */
  method AppendValueChecksHe(p: Profile, lang: string, errs0: seq<string>) returns (errs: seq<string>)
    requires AllPresent(p) && lang == "he"
    ensures errs == AppendValueErrors(p, lang, errs0)
  {
    errs := errs0;
    var id, hmo, tier, age, card := p.idNumber.value, p.hmo.value, p.tier.value, p.age.value, p.hmoCard.value;
    var first, last := p.firstName.value, p.lastName.value;
    ghost var ms, fs := ValueMessages(lang), FailedChecks(p, lang);
    ghost var e0 := errs;
    if |id| != 9 { errs := errs + [IdHe]; }
    assert errs == AppendIf(e0, fs[0], ms[0]);
    ghost var e1 := errs;
    if hmo !in HMOs { errs := errs + [HmoHe]; }
    assert errs == AppendIf(e1, fs[1], ms[1]);
    ghost var e2 := errs;
    if tier !in Tiers { errs := errs + [TierHe]; }
    assert errs == AppendIf(e2, fs[2], ms[2]);
    ghost var e3 := errs;
    if age < 0 || age > 120 { errs := errs + [AgeHe]; }
    assert errs == AppendIf(e3, fs[3], ms[3]);
    ghost var e4 := errs;
    if |card| != 9 { errs := errs + [CardHe]; }
    assert errs == AppendIf(e4, fs[4], ms[4]);
    ghost var e5 := errs;
    if first == "" || last == "" { errs := errs + [NameHe]; }
    assert errs == AppendIf(e5, fs[5], ms[5]);
  }

  /** The six value checks of validate_profile in the other branch: list membership after lower(). */
  method AppendValueChecksEn(p: Profile, lang: string, errs0: seq<string>) returns (errs: seq<string>)
    requires AllPresent(p) && lang != "he"
    ensures errs == AppendValueErrors(p, lang, errs0)
  {
    errs := errs0;
    var id, hmo, tier, age, card := p.idNumber.value, p.hmo.value, p.tier.value, p.age.value, p.hmoCard.value;
    var first, last := p.firstName.value, p.lastName.value;
    ghost var ms, fs := ValueMessages(lang), FailedChecks(p, lang);
    ghost var e0 := errs;
    if |id| != 9 { errs := errs + [IdEn]; }
    assert errs == AppendIf(e0, fs[0], ms[0]);
    ghost var e1 := errs;
    if Lower(hmo) !in HMOs { errs := errs + [HmoEn]; }
    assert errs == AppendIf(e1, fs[1], ms[1]);
    ghost var e2 := errs;
    if Lower(tier) !in Tiers { errs := errs + [TierEn]; }
    assert errs == AppendIf(e2, fs[2], ms[2]);
    ghost var e3 := errs;
    if age < 0 || age > 120 { errs := errs + [AgeEn]; }
    assert errs == AppendIf(e3, fs[3], ms[3]);
    ghost var e4 := errs;
    if |card| != 9 { errs := errs + [CardEn]; }
    assert errs == AppendIf(e4, fs[4], ms[4]);
    ghost var e5 := errs;
    if first == "" || last == "" { errs := errs + [NameEn]; }
    assert errs == AppendIf(e5, fs[5], ms[5]);
  }

  /** validate_profile(p, lang): (len(errs) == 0, errs); the profile is a value and is not changed. */
  method ValidateProfile(p: Profile, lang: string) returns (ok: bool, errs: seq<string>)
    ensures errs == ProfileErrors(p, lang)
    ensures ok <==> errs == []
  {
    errs := [];
    var i := 0;
    while i < |RequiredFields|
      invariant 0 <= i <= |RequiredFields|
      invariant errs == MissingErrors(p, RequiredFields[..i], lang)
    {
      var field := RequiredFields[i];
      if !Present(p, field) {
        errs := errs + [MissingMessage(field, lang)];
      }
      assert RequiredFields[..i + 1][..i] == RequiredFields[..i];
      i := i + 1;
    }
    assert RequiredFields[..i] == RequiredFields;
    assert errs == MissingErrors(p, RequiredFields, lang);
    if errs == [] {
      MissingErrorsEmpty(p, RequiredFields, lang);
      AllPresentIff(p);
      // Each check appends its own message or nothing, whatever the others did.
      if lang == "he" {
        errs := AppendValueChecksHe(p, lang, errs);
      } else {
        errs := AppendValueChecksEn(p, lang, errs);
      }
    }
    ok := |errs| == 0;
  }

  /** The messages of one language differ from each other. */
  lemma ValueMessagesDistinct(lang: string)
    ensures forall i, j :: 0 <= i < j < 6 ==> ValueMessages(lang)[i] != ValueMessages(lang)[j]
  {
    var m := ValueMessages(lang);
    if lang == "he" {
      assert m[0][0] == 'מ' && m[4][0] == 'מ' && m[0][5] == 'ת' && m[4][5] == 'כ';
      assert m[1][0] == 'ק' && m[2][0] == 'ר' && m[3][0] == 'ג' && m[5][0] == 'ש';
    } else {
      assert m[0][0] == 'I' && m[1][0] == 'I' && m[0][1] == 'D' && m[1][1] == 'n' && m[2][1] == 'n';
      assert m[1][8] == 'H' && m[2][8] == 'm';
      assert m[3][0] == 'A' && m[4][0] == 'H' && m[5][0] == 'F';
    }
  }

  /** The messages whose flag is set, in order: an independent statement of "every failure is appended". */
  function Selected(messages: seq<string>, flags: seq<bool>): seq<string>
    requires |messages| == |flags|
  {
    if flags == [] then []
    else
      var n := |flags| - 1;
      Selected(messages[..n], flags[..n]) + (if flags[n] then [messages[n]] else [])
  }

  /** Selecting one more message is one more conditional append. */
  lemma SelectedStep(messages: seq<string>, flags: seq<bool>, k: nat)
    requires |messages| == |flags| && k < |flags|
    ensures Selected(messages[..k + 1], flags[..k + 1]) == AppendIf(Selected(messages[..k], flags[..k]), flags[k], messages[k])
  {
    assert messages[..k + 1][..k] == messages[..k] && flags[..k + 1][..k] == flags[..k];
  }

  lemma {:induction false} SelectedMember(messages: seq<string>, flags: seq<bool>, x: string)
    requires |messages| == |flags|
    ensures x in Selected(messages, flags) <==> exists i :: 0 <= i < |flags| && flags[i] && messages[i] == x
  {
    if flags != [] {
      var n := |flags| - 1;
      SelectedMember(messages[..n], flags[..n], x);
      if exists i :: 0 <= i < |flags| && flags[i] && messages[i] == x {
        var i :| 0 <= i < |flags| && flags[i] && messages[i] == x;
        if i < n {
          assert flags[..n][i] && messages[..n][i] == x;
        }
      }
    }
  }

  /** The six conditional appends from nothing select the flagged messages. */
  lemma SixAppendsSelect(messages: seq<string>, flags: seq<bool>)
    requires |messages| == |flags| == 6
    ensures SixAppends([], messages, flags) == Selected(messages, flags)
  {
    assert messages[..0] == [] && flags[..0] == [];
    SelectedStep(messages, flags, 0);
    SelectedStep(messages, flags, 1);
    SelectedStep(messages, flags, 2);
    SelectedStep(messages, flags, 3);
    SelectedStep(messages, flags, 4);
    SelectedStep(messages, flags, 5);
    assert messages[..6] == messages && flags[..6] == flags;
  }

  /**
   * With every required field present, the errors are exactly the messages of the
   * failing value checks, in check order: each of the six checks runs.
   */
  lemma ValueChecksAllRun(p: Profile, lang: string)
    requires AllPresent(p)
    ensures ProfileErrors(p, lang) == Selected(ValueMessages(lang), FailedChecks(p, lang))
    ensures forall i :: 0 <= i < 6 ==> (ValueMessages(lang)[i] in ProfileErrors(p, lang) <==> FailedChecks(p, lang)[i])
  {
    AllPresentIff(p);
    MissingErrorsEmpty(p, RequiredFields, lang);
    var ms, fs := ValueMessages(lang), FailedChecks(p, lang);
    SixAppendsSelect(ms, fs);
    ValueMessagesDistinct(lang);
    forall i | 0 <= i < 6
      ensures ms[i] in ProfileErrors(p, lang) <==> fs[i]
    {
      SelectedMember(ms, fs, ms[i]);
    }
  }

  /** Different fields are reported with different messages. */
  lemma MissingMessageInjective(f: string, g: string, lang: string)
    ensures MissingMessage(f, lang) == MissingMessage(g, lang) ==> f == g
  {
    var mf, mg := MissingMessage(f, lang), MissingMessage(g, lang);
    if mf == mg {
      var k := if lang == "he" then 4 else 15;
      assert |f| == |g|;
      assert f == mf[k..k + |f|] && g == mg[k..k + |g|];
    }
  }

  /** A missing-field message is never a value-check message. */
  lemma MissingIsNotValueMessage(f: string, lang: string)
    ensures MissingMessage(f, lang) !in ValueMessages(lang)
  {
    var m := MissingMessage(f, lang);
    if lang == "he" {
      assert m[0] == 'ש' && m[1] == 'ד';
      assert NameHe[1] == 'ם';
    } else {
      assert m[0] == 'M';
    }
  }

  /** Every presence error names a field of the walk that is missing. */
  lemma {:induction false} MissingErrorsNameMissingFields(p: Profile, fields: seq<string>, lang: string)
    ensures forall e :: e in MissingErrors(p, fields, lang) ==>
      exists f :: f in fields && !Present(p, f) && e == MissingMessage(f, lang)
  {
    if fields != [] {
      var n := |fields| - 1;
      MissingErrorsNameMissingFields(p, fields[..n], lang);
      assert forall f :: f in fields[..n] ==> f in fields;
    }
  }

  predicate Distinct(fields: seq<string>) {
    forall i, j :: 0 <= i < j < |fields| ==> fields[i] != fields[j]
  }

  /** Over distinct fields, each missing field is reported exactly once and a present one never. */
  lemma {:induction false} MissingErrorsCount(p: Profile, fields: seq<string>, lang: string, f: string)
    requires Distinct(fields)
    ensures multiset(MissingErrors(p, fields, lang))[MissingMessage(f, lang)] ==
      if f in fields && !Present(p, f) then 1 else 0
  {
    if fields != [] {
      var n := |fields| - 1;
      var last := fields[n];
      assert fields == fields[..n] + [last];
      MissingErrorsCount(p, fields[..n], lang, f);
      MissingMessageInjective(f, last, lang);
      if f == last {
        assert f !in fields[..n];
      }
    }
  }

  lemma RequiredFieldsDistinct()
    ensures Distinct(RequiredFields)
  {
    var r := RequiredFields;
    assert r[0][0] == 'i' && r[1][0] == 'h' && r[2][0] == 't' && r[3][0] == 'a';
    assert r[4][0] == 'h' && r[5][0] == 'f' && r[6][0] == 'l';
    assert |r[1]| == 3 && |r[4]| == 8;
  }

  /**
   * With a required field missing, only presence errors are returned: one per
   * missing required field, in the walk order.
   */
  lemma MissingReportedOnce(p: Profile, lang: string, f: string)
    requires !AllPresent(p)
    ensures ProfileErrors(p, lang) == MissingErrors(p, RequiredFields, lang) != []
    ensures multiset(ProfileErrors(p, lang))[MissingMessage(f, lang)] ==
      (if f in RequiredFields && !Present(p, f) then 1 else 0)
  {
    AllPresentIff(p);
    MissingErrorsEmpty(p, RequiredFields, lang);
    RequiredFieldsDistinct();
    MissingErrorsCount(p, RequiredFields, lang, f);
  }

  /** With a required field missing, none of the value checks runs: a missing age is never also out of range. */
  lemma MissingBlocksValueChecks(p: Profile, lang: string)
    requires !AllPresent(p)
    ensures forall m :: m in ValueMessages(lang) ==> m !in ProfileErrors(p, lang)
  {
    AllPresentIff(p);
    MissingErrorsEmpty(p, RequiredFields, lang);
    var errs := MissingErrors(p, RequiredFields, lang);
    assert ProfileErrors(p, lang) == errs;
    MissingErrorsNameMissingFields(p, RequiredFields, lang);
    forall m | m in ValueMessages(lang)
      ensures m !in errs
    {
      if m in errs {
        var f :| f in RequiredFields && !Present(p, f) && m == MissingMessage(f, lang);
        MissingIsNotValueMessage(f, lang);
      }
    }
  }

  lemma {:induction false} MissingErrorsLang(p: Profile, fields: seq<string>, lang: string)
    requires lang != "he"
    ensures MissingErrors(p, fields, lang) == MissingErrors(p, fields, "en")
  {
    if fields != [] {
      MissingErrorsLang(p, fields[..|fields| - 1], lang);
    }
  }

  /** Every lang other than "he" gets the English messages and the lower-cased list checks. */
  lemma NonHebrewIsEnglish(p: Profile, lang: string)
    requires lang != "he"
    ensures ProfileErrors(p, lang) == ProfileErrors(p, "en")
  {
    MissingErrorsLang(p, RequiredFields, lang);
    if AllPresent(p) {
      assert ValueMessages(lang) == ValueMessages("en");
      assert FailedChecks(p, lang) == FailedChecks(p, "en");
    }
  }

  lemma {:induction false} MissingErrorsIgnoreGender(p: Profile, g: Option<string>, fields: seq<string>, lang: string)
    requires "gender" !in fields
    ensures MissingErrors(p.(gender := g), fields, lang) == MissingErrors(p, fields, lang)
  {
    if fields != [] {
      var n := |fields| - 1;
      assert fields[n] in fields;
      assert forall f :: f in fields[..n] ==> f in fields;
      MissingErrorsIgnoreGender(p, g, fields[..n], lang);
    }
  }

  /** gender is neither required nor checked: its value never changes the outcome. */
  lemma GenderNeverChecked(p: Profile, g: Option<string>, lang: string)
    ensures ProfileErrors(p.(gender := g), lang) == ProfileErrors(p, lang)
  {
    MissingErrorsIgnoreGender(p, g, RequiredFields, lang);
    var q := p.(gender := g);
    if AllPresent(p) {
      assert FailedChecks(q, lang) == FailedChecks(p, lang);
    }
  }

  /** The Hebrew branch compares exactly, the other lower-cases first: "MACCABI" passes only in English. */
  lemma HmoCaseSensitivity()
    ensures !Listed("MACCABI", HMOs, "he") && Listed("MACCABI", HMOs, "en")
  {
    assert Lower("MACCABI") == "maccabi";
  }

  /** Likewise "GOLD" is a valid tier only in the English branch. */
  lemma TierCaseSensitivity()
    ensures !Listed("GOLD", Tiers, "he") && Listed("GOLD", Tiers, "en")
  {
    assert Lower("GOLD") == "gold";
  }

  /**
   * A record that passed the UserInfo constraints has every field present and
   * passes the id, card and age checks; only hmo, tier and the names can still fail.
   */
  lemma ValidRecordPassesFormatChecks(u: UserInfo, lang: string)
    requires ValidUserInfo(u)
    ensures AllPresent(AsProfile(u))
    ensures IdMessage(lang) !in ProfileErrors(AsProfile(u), lang)
    ensures AgeMessage(lang) !in ProfileErrors(AsProfile(u), lang)
    ensures CardMessage(lang) !in ProfileErrors(AsProfile(u), lang)
  {
    ValueChecksAllRun(AsProfile(u), lang);
    assert IdMessage(lang) == ValueMessages(lang)[0];
    assert AgeMessage(lang) == ValueMessages(lang)[3];
    assert CardMessage(lang) == ValueMessages(lang)[4];
  }
}
