/** Base 64 encoding as section 4 of RFC 4648 defines it (the standard
    alphabet, `=` padding), which `Buffer.toString('base64')` produces, with
    a decoder that inverts it. */
module Base64 {
  import opened Outcomes
  import opened Uploads

  /** A 6-bit group. */
  type Sextet = x: int | 0 <= x < 64

  /** The alphabet of Table 1: `A`-`Z`, `a`-`z`, `0`-`9`, `+`, `/`. */
  function EncodeSextet(n: Sextet): (c: char)
    ensures IsAlphabet(c)
  {
    if n < 26 then ('A' as int + n) as char
    else if n < 52 then ('a' as int + (n - 26)) as char
    else if n < 62 then ('0' as int + (n - 52)) as char
    else if n == 62 then '+'
    else '/'
  }

  predicate IsAlphabet(c: char) {
    'A' <= c <= 'Z' || 'a' <= c <= 'z' || '0' <= c <= '9' || c == '+' || c == '/'
  }

  /** The position of a character in the alphabet. */
  function DecodeSextet(c: char): (r: Option<Sextet>)
    ensures r.Some? <==> IsAlphabet(c)
  {
    if 'A' <= c <= 'Z' then Some(c as int - 'A' as int)
    else if 'a' <= c <= 'z' then Some(c as int - 'a' as int + 26)
    else if '0' <= c <= '9' then Some(c as int - '0' as int + 52)
    else if c == '+' then Some(62)
    else if c == '/' then Some(63)
    else None
  }

  lemma DecodeEncodeSextet(n: Sextet)
    ensures DecodeSextet(EncodeSextet(n)) == Some(n)
  {
  }

  /** Three bytes make four characters; one or two trailing bytes make two or
      three characters and are padded with `=` to four. */
  function EncodeGroup(a: byte, b: byte, c: byte): string {
    [EncodeSextet(a as int / 4), EncodeSextet((a as int % 4) * 16 + b as int / 16),
     EncodeSextet((b as int % 16) * 4 + c as int / 64), EncodeSextet(c as int % 64)]
  }

  function EncodeTail1(a: byte): string {
    [EncodeSextet(a as int / 4), EncodeSextet((a as int % 4) * 16), '=', '=']
  }

  function EncodeTail2(a: byte, b: byte): string {
    [EncodeSextet(a as int / 4), EncodeSextet((a as int % 4) * 16 + b as int / 16),
     EncodeSextet((b as int % 16) * 4), '=']
  }

  /** The encoding, group by group: four characters for every started group
      of three bytes. */
  function Encode(s: seq<byte>): (r: string)
    ensures |r| == 4 * ((|s| + 2) / 3)
    decreases |s|
  {
    if |s| == 0 then ""
    else if |s| == 1 then EncodeTail1(s[0])
    else if |s| == 2 then EncodeTail2(s[0], s[1])
    else EncodeGroup(s[0], s[1], s[2]) + Encode(s[3..])
  }

  /** Reads four characters back into bytes: three, or one or two when the
      group is padded (padding is accepted only in the last group). */
  function DecodeGroup(q: string, last: bool): Option<seq<byte>>
    requires |q| == 4
  {
    var o0, o1, o2, o3 := DecodeSextet(q[0]), DecodeSextet(q[1]), DecodeSextet(q[2]), DecodeSextet(q[3]);
    if o0.None? || o1.None? then None
    else if last && q[2] == '=' && q[3] == '=' then
      Some([Byte0(o0.value, o1.value)])
    else if o2.None? then None
    else if last && q[3] == '=' then
      Some([Byte0(o0.value, o1.value), Byte1(o1.value, o2.value)])
    else if o3.None? then None
    else Some([Byte0(o0.value, o1.value), Byte1(o1.value, o2.value), Byte2(o2.value, o3.value)])
  }

  /** The bytes a group of sextets packs, eight bits each. */
  function Byte0(d0: Sextet, d1: Sextet): byte {
    (d0 * 4 + d1 / 16) as byte
  }

  function Byte1(d1: Sextet, d2: Sextet): byte {
    ((d1 % 16) * 16 + d2 / 4) as byte
  }

  function Byte2(d2: Sextet, d3: Sextet): byte {
    ((d2 % 4) * 64 + d3) as byte
  }

  lemma Byte0Inverse(a: byte, b: byte)
    ensures Byte0(a as int / 4, (a as int % 4) * 16 + b as int / 16) == a
  {
    var hi := (a as int % 4) * 16 + b as int / 16;
    assert hi / 16 == a as int % 4;
  }

  lemma Byte1Inverse(a: byte, b: byte, c: byte)
    ensures Byte1((a as int % 4) * 16 + b as int / 16, (b as int % 16) * 4 + c as int / 64) == b
  {
    var d1 := (a as int % 4) * 16 + b as int / 16;
    var d2 := (b as int % 16) * 4 + c as int / 64;
    assert d1 % 16 == b as int / 16;
    assert d2 / 4 == b as int % 16;
  }

  lemma Byte2Inverse(b: byte, c: byte)
    ensures Byte2((b as int % 16) * 4 + c as int / 64, c as int % 64) == c
  {
    var d2 := (b as int % 16) * 4 + c as int / 64;
    assert d2 % 4 == c as int / 64;
  }

  /** The decoder: `None` for a text that is not a padded encoding. */
  function Decode(t: string): (r: Option<seq<byte>>)
    decreases |t|
  {
    if |t| == 0 then Some([])
    else if |t| < 4 then None
    else
      match DecodeGroup(t[..4], |t| == 4)
      case None => None
      case Some(bs) =>
        if |bs| < 3 then (if |t| == 4 then Some(bs) else None)
        else
          match Decode(t[4..])
          case None => None
          case Some(rest) => Some(bs + rest)
  }

  lemma DecodeEncodeGroup(a: byte, b: byte, c: byte, last: bool)
    ensures DecodeGroup(EncodeGroup(a, b, c), last) == Some([a, b, c])
  {
    DecodeEncodeSextet(a as int / 4);
    DecodeEncodeSextet((a as int % 4) * 16 + b as int / 16);
    DecodeEncodeSextet((b as int % 16) * 4 + c as int / 64);
    DecodeEncodeSextet(c as int % 64);
    Byte0Inverse(a, b);
    Byte1Inverse(a, b, c);
    Byte2Inverse(b, c);
  }

  lemma DecodeEncodeTail1(a: byte)
    ensures DecodeGroup(EncodeTail1(a), true) == Some([a])
  {
    DecodeEncodeSextet(a as int / 4);
    DecodeEncodeSextet((a as int % 4) * 16);
    Byte0Inverse(a, 0);
  }

  lemma DecodeEncodeTail2(a: byte, b: byte)
    ensures DecodeGroup(EncodeTail2(a, b), true) == Some([a, b])
  {
    DecodeEncodeSextet(a as int / 4);
    DecodeEncodeSextet((a as int % 4) * 16 + b as int / 16);
    DecodeEncodeSextet((b as int % 16) * 4);
    Byte0Inverse(a, b);
    Byte1Inverse(a, b, 0);
  }

  /** Decoding inverts encoding for every byte string. */
  lemma {:induction false} DecodeEncode(s: seq<byte>)
    ensures Decode(Encode(s)) == Some(s)
    decreases |s|
  {
    var t := Encode(s);
    if |s| == 0 {
    } else if |s| == 1 {
      DecodeEncodeTail1(s[0]);
      assert t[..4] == t;
      assert [s[0]] == s;
    } else if |s| == 2 {
      DecodeEncodeTail2(s[0], s[1]);
      assert t[..4] == t;
      assert [s[0], s[1]] == s;
    } else {
      DecodeEncode(s[3..]);
      DecodeEncodeStep(s);
    }
  }

  /** One full group in front of an encoding that decodes. */
  lemma DecodeEncodeStep(s: seq<byte>)
    requires |s| >= 3
    requires Decode(Encode(s[3..])) == Some(s[3..])
    ensures Decode(Encode(s)) == Some(s)
  {
    var t := Encode(s);
    var g := EncodeGroup(s[0], s[1], s[2]);
    assert t == g + Encode(s[3..]);
    assert t[..4] == g;
    assert t[4..] == Encode(s[3..]);
    DecodeEncodeGroup(s[0], s[1], s[2], |t| == 4);
    SplitGroup(s);
  }

  lemma SplitGroup(s: seq<byte>)
    requires |s| >= 3
    ensures [s[0], s[1], s[2]] + s[3..] == s
  {
    assert s[..3] == [s[0], s[1], s[2]];
    assert s[..3] + s[3..] == s;
  }

  /** Every character of an encoding is in the alphabet or is padding. */
  lemma {:induction false} EncodeAlphabet(s: seq<byte>)
    ensures forall k :: 0 <= k < |Encode(s)| ==> IsAlphabet(Encode(s)[k]) || Encode(s)[k] == '='
    decreases |s|
  {
    if |s| > 2 {
      EncodeAlphabet(s[3..]);
      var g := EncodeGroup(s[0], s[1], s[2]);
      assert Encode(s) == g + Encode(s[3..]);
      forall k | 0 <= k < |Encode(s)|
        ensures IsAlphabet(Encode(s)[k]) || Encode(s)[k] == '='
      {
        if k >= 4 {
          assert Encode(s)[k] == Encode(s[3..])[k - 4];
        }
      }
    }
  }

  /** Encoding is injective: different contents give different texts. */
  lemma EncodeInjective(s: seq<byte>, s': seq<byte>)
    requires Encode(s) == Encode(s')
    ensures s == s'
  {
    DecodeEncode(s);
    DecodeEncode(s');
  }
}
