/**
 * The request, response and user-profile records of the chat endpoint, and the
 * dynamically typed dictionaries the profile travels in between turns.
 */
module Models {
  import opened Wrappers
  import opened Text

  /**
   * One value of a profile dictionary: what json.loads yields for a key, or a
   * UserInfo field. Other stands for floats, lists and nested objects, which the
   * model knows only by their Python truthiness.
   */
  datatype Value = Null | Bool(b: bool) | Int(i: int) | Str(s: string) | Other(truthy: bool)

  /** Python truthiness: None, False, 0 and "" are false. */
  predicate Truthy(v: Value) {
    match v
    case Null => false
    case Bool(b) => b
    case Int(i) => i != 0
    case Str(s) => s != ""
    case Other(t) => t
  }

  /** A profile dictionary, field name to value. */
  type Dict = map<string, Value>

  /** One chat message, {"role": role, "content": content}. */
  datatype Message = Message(role: string, content: string)

  /** The fields of UserInfo, in declaration order. */
  const FieldNames: seq<string> :=
    ["first_name", "last_name", "id_number", "gender", "age", "hmo", "hmo_card", "tier"]

  /** The pydantic UserInfo model: all eight fields are required and none has a default. */
  datatype UserInfo = UserInfo(
    firstName: string,
    lastName: string,
    idNumber: string,
    gender: string,
    age: int,
    hmo: string,
    hmoCard: string,
    tier: string)

  /** The pattern ^\d{9}$: exactly nine digits. */
  predicate NineDigits(s: string) {
    |s| == 9 && forall i :: 0 <= i < |s| ==> IsDigit(s[i])
  }

  /**
   * The field constraints of UserInfo: id_number and hmo_card are nine digits and
   * age is in 0..120; the names, gender, hmo and tier may be any string.
   */
  predicate ValidUserInfo(u: UserInfo) {
    NineDigits(u.idNumber) && NineDigits(u.hmoCard) && 0 <= u.age <= 120
  }

  /** dict(user_info): the record as a dictionary keyed by field name. */
  function ToDict(u: UserInfo): (d: Dict)
    ensures forall k :: k in d <==> k in FieldNames
    ensures forall k :: k in d && k != "age" ==> d[k].Str?
    ensures d["age"] == Int(u.age)
  {
    map[
      "first_name" := Str(u.firstName), "last_name" := Str(u.lastName),
      "id_number" := Str(u.idNumber), "gender" := Str(u.gender), "age" := Int(u.age),
      "hmo" := Str(u.hmo), "hmo_card" := Str(u.hmoCard), "tier" := Str(u.tier)]
  }

  function StrField(d: Dict, k: string): Option<string> {
    if k in d && d[k].Str? then Some(d[k].s) else None
  }

  function IntField(d: Dict, k: string): Option<int> {
    if k in d && d[k].Int? then Some(d[k].i) else None
  }

  /** Every field is present with the type UserInfo declares for it. */
  predicate Typed(d: Dict) {
    && StrField(d, "first_name").Some? && StrField(d, "last_name").Some?
    && StrField(d, "id_number").Some? && StrField(d, "gender").Some?
    && IntField(d, "age").Some? && StrField(d, "hmo").Some?
    && StrField(d, "hmo_card").Some? && StrField(d, "tier").Some?
  }

  function Build(d: Dict): UserInfo
    requires Typed(d)
  {
    UserInfo(
      StrField(d, "first_name").value, StrField(d, "last_name").value,
      StrField(d, "id_number").value, StrField(d, "gender").value,
      IntField(d, "age").value, StrField(d, "hmo").value,
      StrField(d, "hmo_card").value, StrField(d, "tier").value)
  }

  /**
   * UserInfo(**d): None where pydantic raises a ValidationError, that is, when a
   * field is absent, has the wrong type, or breaks its constraint. Keys that are
   * not fields are ignored.
   */
  function FromDict(d: Dict): (r: Option<UserInfo>)
    ensures r.Some? ==> ValidUserInfo(r.value)
    ensures r.Some? ==> forall k :: k in FieldNames ==> k in d && d[k] == ToDict(r.value)[k]
  {
    if Typed(d) && ValidUserInfo(Build(d)) then Some(Build(d)) else None
  }

  /** Two dictionaries that agree on the eight fields build the same record. */
  lemma SameFields(d: Dict, e: Dict)
    requires forall k :: k in FieldNames ==> StrField(d, k) == StrField(e, k) && IntField(d, k) == IntField(e, k)
    ensures FromDict(d) == FromDict(e)
  {
    assert Typed(d) == Typed(e) by {
      assert FieldNames[0] == "first_name" && FieldNames[1] == "last_name" && FieldNames[2] == "id_number";
      assert FieldNames[3] == "gender" && FieldNames[4] == "age" && FieldNames[5] == "hmo";
      assert FieldNames[6] == "hmo_card" && FieldNames[7] == "tier";
    }
    if Typed(d) {
      assert Build(d) == Build(e) by {
        assert FieldNames[0] == "first_name" && FieldNames[1] == "last_name" && FieldNames[2] == "id_number";
        assert FieldNames[3] == "gender" && FieldNames[4] == "age" && FieldNames[5] == "hmo";
        assert FieldNames[6] == "hmo_card" && FieldNames[7] == "tier";
      }
    }
  }

  /** No field has a default: a dictionary that lacks any one of them is rejected. */
  lemma FromDictNeedsEveryField(d: Dict, k: string)
    requires k in FieldNames && k !in d
    ensures FromDict(d) == None
  {
  }

  /** A valid record survives the trip through its dictionary unchanged. */
  lemma FromToDict(u: UserInfo)
    requires ValidUserInfo(u)
    ensures FromDict(ToDict(u)) == Some(u)
  {
    var d := ToDict(u);
    assert StrField(d, "first_name") == Some(u.firstName) by {}
    assert StrField(d, "last_name") == Some(u.lastName) by {}
    assert StrField(d, "id_number") == Some(u.idNumber) by {}
    assert StrField(d, "gender") == Some(u.gender) by {}
    assert IntField(d, "age") == Some(u.age) by {}
    assert StrField(d, "hmo") == Some(u.hmo) by {}
    assert StrField(d, "hmo_card") == Some(u.hmoCard) by {}
    assert StrField(d, "tier") == Some(u.tier) by {}
    assert Build(d) == u;
  }

  /** Construction depends only on the eight fields: extra keys are ignored. */
  lemma {:induction false} FromDictIgnoresExtraKeys(d: Dict, extra: Dict)
    requires forall k :: k in extra ==> k !in FieldNames
    ensures FromDict(d + extra) == FromDict(d)
  {
    var e := d + extra;
    assert forall k :: k in FieldNames ==> StrField(e, k) == StrField(d, k) && IntField(e, k) == IntField(d, k);
    SameFields(e, d);
  }

  /** hmo, tier, gender and the names are unconstrained at this layer. */
  lemma FreeTextFields(u: UserInfo, first: string, last: string, gender: string, hmo: string, tier: string)
    requires ValidUserInfo(u)
    ensures ValidUserInfo(u.(firstName := first, lastName := last, gender := gender, hmo := hmo, tier := tier))
  {
  }

  /** The profile as the validator reads it: eight attributes, each possibly None. */
  datatype Profile = Profile(
    firstName: Option<string>,
    lastName: Option<string>,
    idNumber: Option<string>,
    gender: Option<string>,
    age: Option<int>,
    hmo: Option<string>,
    hmoCard: Option<string>,
    tier: Option<string>)

  /** The attributes of a constructed UserInfo, none of which is None. */
  function AsProfile(u: UserInfo): (p: Profile)
    ensures p.firstName == Some(u.firstName) && p.lastName == Some(u.lastName)
    ensures p.idNumber == Some(u.idNumber) && p.gender == Some(u.gender) && p.age == Some(u.age)
    ensures p.hmo == Some(u.hmo) && p.hmoCard == Some(u.hmoCard) && p.tier == Some(u.tier)
  {
    Profile(Some(u.firstName), Some(u.lastName), Some(u.idNumber), Some(u.gender),
            Some(u.age), Some(u.hmo), Some(u.hmoCard), Some(u.tier))
  }

  /**
   * A /chat request: phase, history and message are required; user_info is
   * optional, None when the body leaves it out, and a valid UserInfo otherwise.
   */
  datatype ChatRequest = ChatRequest(phase: string, userInfo: Option<UserInfo>, history: seq<Message>, message: string)

  /** What the transport layer lets through: a user_info present in the body passed pydantic. */
  predicate WellFormedRequest(req: ChatRequest) {
    req.userInfo.Some? ==> ValidUserInfo(req.userInfo.value)
  }

  /** A /chat response: reply, history and full_info are required; user_info is None unless set. */
  datatype ChatResponse = ChatResponse(reply: string, history: seq<Message>, userInfo: Option<UserInfo>, fullInfo: bool)
}
