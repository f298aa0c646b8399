/** String helpers with the meaning JavaScript gives them in the service code:
    `trim`, `toLowerCase` (restricted to ASCII letters), `join`, and the
    rendering of an integer inside a template literal. */
module Text {

  /** The characters `String.prototype.trim` removes: the WhiteSpace and
      LineTerminator code points of ECMA-262. */
  predicate IsSpace(c: char) {
    || c == '\t' || c == '\n' || c == '\U{000B}' || c == '\U{000C}' || c == '\r'
    || c == ' ' || c == '\U{00A0}' || c == '\U{1680}'
    || ('\U{2000}' <= c <= '\U{200A}')
    || c == '\U{2028}' || c == '\U{2029}' || c == '\U{202F}' || c == '\U{205F}'
    || c == '\U{3000}' || c == '\U{FEFF}'
  }

  /** Neither end of `s` is a whitespace character. */
  predicate NoEdgeSpace(s: string) {
    s == [] || (!IsSpace(s[0]) && !IsSpace(s[|s| - 1]))
  }

  function TrimStart(s: string): (r: string)
    ensures |r| <= |s| && r == s[|s| - |r|..]
    ensures forall k :: 0 <= k < |s| - |r| ==> IsSpace(s[k])
    ensures r == [] || !IsSpace(r[0])
  {
    if |s| > 0 && IsSpace(s[0]) then TrimStart(s[1..]) else s
  }

  function TrimEnd(s: string): (r: string)
    ensures |r| <= |s| && r == s[..|r|]
    ensures forall k :: |r| <= k < |s| ==> IsSpace(s[k])
    ensures r == [] || !IsSpace(r[|r| - 1])
  {
    if |s| > 0 && IsSpace(s[|s| - 1]) then TrimEnd(s[..|s| - 1]) else s
  }

  /** `s.trim()`: the longest infix of `s` without whitespace at either end,
      obtained by removing only whitespace. */
  function Trim(s: string): (r: string)
    ensures NoEdgeSpace(r)
    ensures var lead := |s| - |TrimStart(s)|;
      && lead + |r| <= |s| && r == s[lead..lead + |r|]
      && (forall k :: 0 <= k < lead ==> IsSpace(s[k]))
      && (forall k :: lead + |r| <= k < |s| ==> IsSpace(s[k]))
  {
    var t := TrimStart(s);
    var r := TrimEnd(t);
    TrimSlices(s, t, r);
    r
  }

  /** The end-trimmed part of the start-trimmed suffix is an infix of `s`
      followed only by whitespace. */
  lemma TrimSlices(s: string, t: string, r: string)
    requires |t| <= |s| && t == s[|s| - |t|..]
    requires |r| <= |t| && r == t[..|r|]
    requires forall k :: |r| <= k < |t| ==> IsSpace(t[k])
    ensures |s| - |t| + |r| <= |s|
    ensures r == s[|s| - |t|..|s| - |t| + |r|]
    ensures forall k :: |s| - |t| + |r| <= k < |s| ==> IsSpace(s[k])
  {
    var lead := |s| - |t|;
    forall k | lead + |r| <= k < |s|
      ensures IsSpace(s[k])
    {
      assert s[k] == t[k - lead];
    }
  }

  lemma {:induction false} TrimStartNoop(s: string)
    requires s == [] || !IsSpace(s[0])
    ensures TrimStart(s) == s
  {
  }

  lemma {:induction false} TrimEndNoop(s: string)
    requires s == [] || !IsSpace(s[|s| - 1])
    ensures TrimEnd(s) == s
  {
  }

  /** Trimming a string that has no whitespace at either end changes nothing. */
  lemma TrimNoop(s: string)
    requires NoEdgeSpace(s)
    ensures Trim(s) == s
  {
    TrimStartNoop(s);
    TrimEndNoop(s);
  }

  function LowerChar(c: char): (d: char)
    ensures IsSpace(d) == IsSpace(c)
    ensures !('A' <= d <= 'Z')
    ensures !('A' <= c <= 'Z') ==> d == c
  {
    if 'A' <= c <= 'Z' then (c as int + 32) as char else c
  }

  /** `s.toLowerCase()` on ASCII letters; other characters are kept. */
  function Lower(s: string): (r: string)
    ensures |r| == |s| && IsLower(r)
    ensures forall k :: 0 <= k < |s| ==> r[k] == LowerChar(s[k])
  {
    seq(|s|, k requires 0 <= k < |s| => LowerChar(s[k]))
  }

  /** A string is in lower case when lower-casing leaves it unchanged. */
  predicate IsLower(s: string) {
    forall k :: 0 <= k < |s| ==> !('A' <= s[k] <= 'Z')
  }

  /** The canonical form of a filter value: `x.trim().toLowerCase()`. */
  function Canon(s: string): (r: string)
    ensures Canonical(r)
    ensures |r| <= |s|
  {
    var t := Trim(s);
    var r := Lower(t);
    assert NoEdgeSpace(r) by {
      if r != [] {
        assert IsSpace(r[0]) == IsSpace(t[0]);
        assert IsSpace(r[|r| - 1]) == IsSpace(t[|t| - 1]);
      }
    }
    r
  }

  /** Trimmed and lower-cased. */
  predicate Canonical(s: string) {
    NoEdgeSpace(s) && IsLower(s)
  }

  /** A canonical string is its own canonical form, so `Canon` is idempotent. */
  lemma CanonOfCanonical(s: string)
    requires Canonical(s)
    ensures Canon(s) == s
  {
    TrimNoop(s);
    LowerOfLower(s);
  }

  lemma LowerOfLower(s: string)
    requires IsLower(s)
    ensures Lower(s) == s
  {
    assert forall k :: 0 <= k < |s| ==> Lower(s)[k] == s[k];
  }

  lemma CanonIdempotent(s: string)
    ensures Canon(Canon(s)) == Canon(s)
  {
    CanonOfCanonical(Canon(s));
  }

  /** `parts.join(sep)`. */
  function Join(sep: string, parts: seq<string>): (r: string)
    ensures |parts| == 1 ==> r == parts[0]
    ensures parts == [] ==> r == ""
  {
    if |parts| == 0 then ""
    else if |parts| == 1 then parts[0]
    else parts[0] + sep + Join(sep, parts[1..])
  }

  /** Joining a leading part and the rest puts exactly one separator between them. */
  lemma JoinCons(sep: string, head: string, tail: seq<string>)
    requires tail != []
    ensures Join(sep, [head] + tail) == head + sep + Join(sep, tail)
  {
    assert ([head] + tail)[1..] == tail;
  }

  // ---- integers in template literals, and `Number` of a digit string ----

  function DigitChar(d: nat): (c: char)
    requires d < 10
    ensures IsDigit(c) && DigitValue(c) == d
  {
    "0123456789"[d]
  }

  predicate IsDigit(c: char) {
    '0' <= c <= '9'
  }

  function DigitValue(c: char): (d: nat)
    requires IsDigit(c)
    ensures d < 10
  {
    c as int - '0' as int
  }

  predicate AllDigits(s: string) {
    forall k :: 0 <= k < |s| ==> IsDigit(s[k])
  }

  /** The decimal value of a digit string, as `Number` reads it. */
  function DigitsValue(s: string): nat
    requires AllDigits(s)
  {
    if s == [] then 0 else DigitsValue(s[..|s| - 1]) * 10 + DigitValue(s[|s| - 1])
  }

  /** The decimal rendering of a natural number, without leading zeros. */
  function NatToString(n: nat): (r: string)
    ensures r != [] && AllDigits(r)
    ensures r[0] == '0' ==> n == 0 && r == "0"
  {
    if n < 10 then [DigitChar(n)] else NatToString(n / 10) + [DigitChar(n % 10)]
  }

  /** `${n}` for an integer `n`. */
  function IntToString(n: int): (r: string)
    ensures r != []
    ensures n < 0 <==> r[0] == '-'
  {
    if n < 0 then "-" + NatToString(-n) else NatToString(n)
  }

  /** Reading back a rendered natural number gives the number. */
  lemma {:induction false} NatToStringRoundTrip(n: nat)
    ensures DigitsValue(NatToString(n)) == n
  {
    var r := NatToString(n);
    if n >= 10 {
      NatToStringRoundTrip(n / 10);
      assert r[..|r| - 1] == NatToString(n / 10);
    }
  }

  /** Distinct integers render differently. */
  lemma IntToStringInjective(m: int, n: int)
    requires IntToString(m) == IntToString(n)
    ensures m == n
  {
    var a, b := if m < 0 then -m else m, if n < 0 then -n else n;
    assert m < 0 <==> n < 0;
    var r := IntToString(m);
    if m < 0 {
      assert r == "-" + NatToString(a) == "-" + NatToString(b);
      assert NatToString(a) == r[1..] == NatToString(b);
    } else {
      assert NatToString(a) == r == NatToString(b);
    }
    NatToStringRoundTrip(a);
    NatToStringRoundTrip(b);
  }
}
