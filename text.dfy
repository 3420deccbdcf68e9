/**
 * The Python string built-ins the chatbot relies on, stated over Dafny strings
 * (sequences of Unicode code points): whitespace, strip(), lower(), the `in`
 * substring test, str.join and str.split with a one-character separator, and
 * str() of an integer.
 */
module Text {

  /** Python's str.isspace(), which is also the set of characters `\s` matches in a str regex. */
  predicate IsSpace(c: char) {
    || c == ' '
    || '\t' <= c <= '\r'
    || '\U{1C}' <= c <= '\U{1F}'
    || c == '\U{85}' || c == '\U{A0}' || c == '\U{1680}'
    || '\U{2000}' <= c <= '\U{200A}'
    || c == '\U{2028}' || c == '\U{2029}' || c == '\U{202F}' || c == '\U{205F}' || c == '\U{3000}'
  }

  /** str.lstrip(): drops exactly the leading run of whitespace. */
  function StripStart(s: string): (r: string)
    ensures |r| <= |s|
    ensures forall i :: 0 <= i < |s| - |r| ==> IsSpace(s[i])
    ensures r == [] || !IsSpace(r[0])
  {
    if s != [] && IsSpace(s[0]) then StripStart(s[1..]) else s
  }

  /** What lstrip() keeps is a suffix of its input. */
  lemma {:induction false} StripStartSuffix(s: string)
    ensures StripStart(s) == s[|s| - |StripStart(s)|..]
  {
    if s != [] && IsSpace(s[0]) {
      StripStartSuffix(s[1..]);
      assert s[1..][|s| - 1 - |StripStart(s)|..] == s[|s| - |StripStart(s)|..];
    }
  }

  /** str.rstrip(): drops exactly the trailing run of whitespace. */
  function StripEnd(s: string): (r: string)
    ensures |r| <= |s|
    ensures forall i :: |r| <= i < |s| ==> IsSpace(s[i])
    ensures r == [] || !IsSpace(r[|r| - 1])
  {
    if s != [] && IsSpace(s[|s| - 1]) then StripEnd(s[..|s| - 1]) else s
  }

  /** What rstrip() keeps is a prefix of its input. */
  lemma {:induction false} StripEndPrefix(s: string)
    ensures StripEnd(s) == s[..|StripEnd(s)|]
  {
    if s != [] && IsSpace(s[|s| - 1]) {
      StripEndPrefix(s[..|s| - 1]);
      assert s[..|s| - 1][..|StripEnd(s)|] == s[..|StripEnd(s)|];
    }
  }

  /** str.strip(). */
  function Strip(s: string): (r: string)
    ensures |r| <= |s|
    ensures r == [] || (!IsSpace(r[0]) && !IsSpace(r[|r| - 1]))
  {
    StripEndPrefix(StripStart(s));
    StripEnd(StripStart(s))
  }

  /** strip() only drops characters, so a character absent from s is absent from s.strip(). */
  lemma StripAvoids(s: string, c: char)
    requires c !in s
    ensures c !in Strip(s)
  {
    var u := StripStart(s);
    StripStartSuffix(s);
    StripEndPrefix(u);
    assert c !in u;
  }

  /** str.lower() on the ASCII letters; every other character is left as it is. */
  function LowerChar(c: char): char {
    if 'A' <= c <= 'Z' then (c as int + 32) as char else c
  }

  function Lower(s: string): (r: string)
    ensures |r| == |s|
    ensures forall i :: 0 <= i < |s| ==> r[i] == LowerChar(s[i])
  {
    if s == [] then [] else [LowerChar(s[0])] + Lower(s[1..])
  }

  predicate NoUpper(s: string) {
    forall i :: 0 <= i < |s| ==> !('A' <= s[i] <= 'Z')
  }

  /** Lowering a string without upper-case letters changes nothing. */
  lemma LowerNoUpper(s: string)
    requires NoUpper(s)
    ensures Lower(s) == s
  {
  }

  /** Python's `sub in s` on strings. */
  predicate Contains(s: string, sub: string) {
    exists i :: 0 <= i <= |s| && sub <= s[i..]
  }

  /** `sep.join(parts)`. */
  function Join(parts: seq<string>, sep: string): string {
    if |parts| == 0 then ""
    else if |parts| == 1 then parts[0]
    else parts[0] + sep + Join(parts[1..], sep)
  }

  /** Every joined part occurs in the joined text. */
  lemma {:induction false} JoinContainsPart(parts: seq<string>, sep: string, i: nat)
    requires i < |parts|
    ensures Contains(Join(parts, sep), parts[i])
  {
    var j := Join(parts, sep);
    if i == 0 {
      assert parts[0] <= j[0..];
    } else {
      JoinContainsPart(parts[1..], sep, i - 1);
      var rest := Join(parts[1..], sep);
      var k :| 0 <= k <= |rest| && parts[1..][i - 1] <= rest[k..];
      var head := parts[0] + sep;
      assert j == head + rest;
      assert j[|head| + k..] == rest[k..];
    }
  }

  /** A character that occurs in no part and not in the separator does not occur in the join. */
  lemma {:induction false} JoinAvoids(parts: seq<string>, sep: string, c: char)
    requires c !in sep && forall i :: 0 <= i < |parts| ==> c !in parts[i]
    ensures c !in Join(parts, sep)
  {
    if |parts| > 1 {
      assert forall i :: 0 <= i < |parts| - 1 ==> parts[1..][i] == parts[i + 1];
      JoinAvoids(parts[1..], sep, c);
    }
  }

  /** With a non-empty separator, the join is empty exactly when nothing non-empty was joined. */
  lemma {:induction false} JoinEmpty(parts: seq<string>, sep: string)
    requires sep != ""
    ensures Join(parts, sep) == "" <==> (parts == [] || parts == [""])
  {
    if |parts| > 1 {
      assert |Join(parts, sep)| >= |sep|;
    }
  }

  /** `s.split(c)` for a one-character separator: the pieces between the occurrences of c. */
  function Split(s: string, c: char): (r: seq<string>)
    ensures |r| >= 1
  {
    if s == [] then [""]
    else
      var rest := Split(s[1..], c);
      if s[0] == c then [""] + rest else [[s[0]] + rest[0]] + rest[1..]
  }

  lemma {:induction false} SplitNoSeparator(p: string, c: char)
    requires c !in p
    ensures Split(p, c) == [p]
  {
    if p != [] {
      SplitNoSeparator(p[1..], c);
      assert [p[0]] + p[1..] == p;
    }
  }

  lemma {:induction false} SplitAfterPiece(p: string, c: char, t: string)
    requires c !in p
    ensures Split(p + [c] + t, c) == [p] + Split(t, c)
  {
    var s := p + [c] + t;
    if p == [] {
      assert s[1..] == t;
    } else {
      assert s[1..] == p[1..] + [c] + t;
      SplitAfterPiece(p[1..], c, t);
      assert [p[0]] + p[1..] == p;
    }
  }

  /** Splitting a join on its one-character separator gives the parts back, when no part holds the separator. */
  lemma {:induction false} SplitJoin(parts: seq<string>, c: char)
    requires |parts| >= 1
    requires forall i :: 0 <= i < |parts| ==> c !in parts[i]
    ensures Split(Join(parts, [c]), c) == parts
  {
    if |parts| == 1 {
      SplitNoSeparator(parts[0], c);
    } else {
      SplitAfterPiece(parts[0], c, Join(parts[1..], [c]));
      SplitJoin(parts[1..], c);
      assert [parts[0]] + parts[1..] == parts;
    }
  }

  predicate IsDigit(c: char) {
    '0' <= c <= '9'
  }

  /** str() of a natural number: its decimal digits, most significant first. */
  function NatToString(n: nat): (r: string)
    ensures |r| >= 1
    ensures forall i :: 0 <= i < |r| ==> IsDigit(r[i])
  {
    if n < 10 then [(n + '0' as int) as char]
    else NatToString(n / 10) + [(n % 10 + '0' as int) as char]
  }

  /** The value of a string of decimal digits. */
  function DigitsValue(s: string): nat
    requires forall i :: 0 <= i < |s| ==> IsDigit(s[i])
  {
    if s == [] then 0
    else
      assert IsDigit(s[|s| - 1]);
      DigitsValue(s[..|s| - 1]) * 10 + (s[|s| - 1] as int - '0' as int)
  }

  /** Reading back the digits str() writes gives the number. */
  lemma {:induction false} NatToStringValue(n: nat)
    ensures DigitsValue(NatToString(n)) == n
  {
    if n >= 10 {
      var r := NatToString(n);
      var head := NatToString(n / 10);
      assert r[..|r| - 1] == head;
      NatToStringValue(n / 10);
    }
  }

  /** str() of an integer. */
  function IntToString(i: int): (r: string)
    ensures r != []
    ensures r[0] == '-' <==> i < 0
  {
    if i < 0 then "-" + NatToString(-i) else NatToString(i)
  }

  /** A string with no whitespace at either end. */
  predicate Trimmed(s: string) {
    s == [] || (!IsSpace(s[0]) && !IsSpace(s[|s| - 1]))
  }

  predicate AllSpace(w: string) {
    forall i :: 0 <= i < |w| ==> IsSpace(w[i])
  }

  lemma {:induction false} StripStartSpaces(w: string, t: string)
    requires AllSpace(w) && (t == [] || !IsSpace(t[0]))
    ensures StripStart(w + t) == t
  {
    if w != [] {
      assert (w + t)[1..] == w[1..] + t;
      StripStartSpaces(w[1..], t);
    } else {
      assert w + t == t;
    }
  }

  lemma {:induction false} StripEndSpaces(t: string, w: string)
    requires AllSpace(w) && (t == [] || !IsSpace(t[|t| - 1]))
    ensures StripEnd(t + w) == t
  {
    if w != [] {
      var n := |w| - 1;
      assert (t + w)[..|t + w| - 1] == t + w[..n];
      StripEndSpaces(t, w[..n]);
    } else {
      assert t + w == t;
    }
  }

  /** strip() removes exactly the whitespace around a trimmed string. */
  lemma StripSurrounded(w1: string, t: string, w2: string)
    requires AllSpace(w1) && AllSpace(w2) && Trimmed(t)
    ensures Strip(w1 + t + w2) == t
  {
    if t == [] {
      assert w1 + t + w2 == w1 + w2;
      assert AllSpace(w1 + w2);
      StripStartSpaces(w1 + w2, []);
      assert w1 + w2 + [] == w1 + w2;
    } else {
      assert w1 + t + w2 == w1 + (t + w2);
      StripStartSpaces(w1, t + w2);
      StripEndSpaces(t, w2);
    }
  }

  /** A trimmed string is its own strip(). */
  lemma StripTrimmed(t: string)
    requires Trimmed(t)
    ensures Strip(t) == t
  {
    StripSurrounded([], t, []);
    assert [] + t + [] == t;
  }

  /** Containment is transitive. */
  lemma ContainsTrans(a: string, b: string, c: string)
    requires Contains(a, b) && Contains(b, c)
    ensures Contains(a, c)
  {
    var i :| 0 <= i <= |a| && b <= a[i..];
    var j :| 0 <= j <= |b| && c <= b[j..];
    assert forall k :: 0 <= k < |c| ==> c[k] == b[j + k] == a[i + j + k];
    assert c <= a[i + j..];
  }

  /** The middle of a concatenation occurs in it. */
  lemma ContainsMiddle(x: string, y: string, z: string)
    ensures Contains(x + y + z, y)
  {
    assert y <= (x + y + z)[|x|..];
  }
}
