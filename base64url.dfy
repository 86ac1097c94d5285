/**
 * Unpadded base64url, the "URL and Filename safe" alphabet of section 5 of RFC 4648,
 * as Go's base64.RawURLEncoding encodes and (non-strictly) decodes it.
 */
module Base64Url {
  import opened Base

  /** A six-bit value. */
  type sextet = v: nat | v < 64

  /** The character for a six-bit value: A-Z, a-z, 0-9, '-', '_'. */
  function CharOf(v: sextet): char
  {
    if v < 26 then ('A' as int + v) as char
    else if v < 52 then ('a' as int + (v - 26)) as char
    else if v < 62 then ('0' as int + (v - 52)) as char
    else if v == 62 then '-'
    else '_'
  }

  /** The decoding map: the six-bit value of an alphabet character, None for any other character. */
  function ValueOf(c: char): Option<sextet>
  {
    if 'A' <= c <= 'Z' then Some(c as int - 'A' as int)
    else if 'a' <= c <= 'z' then Some(c as int - 'a' as int + 26)
    else if '0' <= c <= '9' then Some(c as int - '0' as int + 52)
    else if c == '-' then Some(62)
    else if c == '_' then Some(63)
    else None
  }

  predicate IsAlphabetChar(c: char) {
    ValueOf(c).Some?
  }

  lemma ValueOfCharOf(v: sextet)
    ensures ValueOf(CharOf(v)) == Some(v)
  {
  }

  /** Length of the unpadded encoding of n octets (base64.RawURLEncoding.EncodedLen). */
  function EncodedLen(n: nat): nat {
    n / 3 * 4 + (n % 3 * 8 + 5) / 6
  }

  function Hi6(b: byte): sextet { b as int / 4 }

  function Encode3(b0: byte, b1: byte, b2: byte): (s: string)
    ensures |s| == 4 && forall i :: 0 <= i < 4 ==> IsAlphabetChar(s[i])
  {
    var v0, v1, v2, v3 := Hi6(b0), b0 as int % 4 * 16 + b1 as int / 16, b1 as int % 16 * 4 + b2 as int / 64, b2 as int % 64;
    ValueOfCharOf(v0); ValueOfCharOf(v1); ValueOfCharOf(v2); ValueOfCharOf(v3);
    [CharOf(v0), CharOf(v1), CharOf(v2), CharOf(v3)]
  }

  function Encode2(b0: byte, b1: byte): (s: string)
    ensures |s| == 3 && forall i :: 0 <= i < 3 ==> IsAlphabetChar(s[i])
  {
    var v0, v1, v2 := Hi6(b0), b0 as int % 4 * 16 + b1 as int / 16, b1 as int % 16 * 4;
    ValueOfCharOf(v0); ValueOfCharOf(v1); ValueOfCharOf(v2);
    [CharOf(v0), CharOf(v1), CharOf(v2)]
  }

  function Encode1(b0: byte): (s: string)
    ensures |s| == 2 && forall i :: 0 <= i < 2 ==> IsAlphabetChar(s[i])
  {
    var v0, v1 := Hi6(b0), b0 as int % 4 * 16;
    ValueOfCharOf(v0); ValueOfCharOf(v1);
    [CharOf(v0), CharOf(v1)]
  }

  /** base64.RawURLEncoding.EncodeToString */
  function Encode(b: seq<byte>): (s: string)
    ensures |s| == EncodedLen(|b|)
    ensures forall i :: 0 <= i < |s| ==> IsAlphabetChar(s[i])
    decreases |b|
  {
    if |b| >= 3 then
      var r := Encode(b[3..]);
      var s := Encode3(b[0], b[1], b[2]) + r;
      EncodedLenStep(|b|);
      assert forall i :: 4 <= i < |s| ==> s[i] == r[i - 4];
      s
    else if |b| == 2 then Encode2(b[0], b[1])
    else if |b| == 1 then Encode1(b[0])
    else ""
  }

  lemma EncodedLenStep(n: nat)
    requires n >= 3
    ensures EncodedLen(n) == EncodedLen(n - 3) + 4
  {
    assert n / 3 == (n - 3) / 3 + 1 && n % 3 == (n - 3) % 3;
  }

  /** Go's decoder skips carriage returns and line feeds wherever they occur. */
  function DropNewlines(s: string): (t: string)
    ensures |t| <= |s|
  {
    if s == [] then ""
    else if s[0] == '\r' || s[0] == '\n' then DropNewlines(s[1..])
    else [s[0]] + DropNewlines(s[1..])
  }

  function Values(s: string): (r: Option<seq<sextet>>)
    ensures r.Some? ==> |r.value| == |s|
  {
    if s == [] then Some([])
    else match (ValueOf(s[0]), Values(s[1..]))
      case (Some(v), Some(vs)) => Some([v] + vs)
      case _ => None
  }

  /** The first, second and third octet of a quantum from its sextets. */
  function Octet0(v0: sextet, v1: sextet): byte { (v0 as int * 4 + v1 as int / 16) as byte }
  function Octet1(v1: sextet, v2: sextet): byte { (v1 as int % 16 * 16 + v2 as int / 4) as byte }
  function Octet2(v2: sextet, v3: sextet): byte { (v2 as int % 4 * 64 + v3 as int) as byte }

  /** Decode whole quanta of four sextets and a final partial quantum of two or three; one left-over sextet is an error. */
  function DecodeValues(vs: seq<sextet>): (r: Option<seq<byte>>)
    ensures r.Some? <==> |vs| % 4 != 1
    ensures r.Some? ==> |r.value| == |vs| * 6 / 8
    decreases |vs|
  {
    if |vs| >= 4 then
      match DecodeValues(vs[4..])
      case None => None
      case Some(rest) =>
        Some([Octet0(vs[0], vs[1]), Octet1(vs[1], vs[2]), Octet2(vs[2], vs[3])] + rest)
    else if |vs| == 3 then Some([Octet0(vs[0], vs[1]), Octet1(vs[1], vs[2])])
    else if |vs| == 2 then Some([Octet0(vs[0], vs[1])])
    else if |vs| == 1 then None
    else Some([])
  }

  /**
   * base64.RawURLEncoding.DecodeString: None is Go's CorruptInputError, given for a character
   * outside the alphabet and for a single left-over character; otherwise DecodedLen octets.
   */
  function Decode(s: string): (r: Option<seq<byte>>)
    ensures r.Some? <==> Values(DropNewlines(s)).Some? && |DropNewlines(s)| % 4 != 1
    ensures r.Some? ==> |r.value| == |DropNewlines(s)| * 6 / 8
  {
    match Values(DropNewlines(s))
    case None => None
    case Some(vs) => DecodeValues(vs)
  }

  // ---------------------------------------------------------------------------
  // Round trip

  lemma {:induction false} NoNewlinesKept(s: string)
    requires forall i :: 0 <= i < |s| ==> IsAlphabetChar(s[i])
    ensures DropNewlines(s) == s
    decreases |s|
  {
    if s != [] {
      NoNewlinesKept(s[1..]);
      assert s == [s[0]] + s[1..];
    }
  }

  function Sextet(c: char): sextet {
    match ValueOf(c)
    case Some(v) => v
    case None => 0
  }

  function SextetsOf(s: string): (vs: seq<sextet>)
    ensures |vs| == |s|
    ensures forall i :: 0 <= i < |s| ==> vs[i] == Sextet(s[i])
  {
    if s == [] then [] else [Sextet(s[0])] + SextetsOf(s[1..])
  }

  lemma {:induction false} ValuesOfAlphabet(s: string)
    requires forall i :: 0 <= i < |s| ==> IsAlphabetChar(s[i])
    ensures Values(s) == Some(SextetsOf(s))
    decreases |s|
  {
    if s != [] {
      ValuesOfAlphabet(s[1..]);
      assert IsAlphabetChar(s[0]);
      assert SextetsOf(s) == [Sextet(s[0])] + SextetsOf(s[1..]);
    }
  }

  lemma Quantum3(b0: byte, b1: byte, b2: byte)
    ensures var e := Encode3(b0, b1, b2);
      var v0, v1, v2, v3 := Sextet(e[0]), Sextet(e[1]), Sextet(e[2]), Sextet(e[3]);
      v0 * 4 + v1 / 16 == b0 as int && v1 % 16 * 16 + v2 / 4 == b1 as int && v2 % 4 * 64 + v3 == b2 as int
  {
    ValueOfCharOf(Hi6(b0));
    ValueOfCharOf(b0 as int % 4 * 16 + b1 as int / 16);
    ValueOfCharOf(b1 as int % 16 * 4 + b2 as int / 64);
    ValueOfCharOf(b2 as int % 64);
  }

  lemma Quantum2(b0: byte, b1: byte)
    ensures var e := Encode2(b0, b1);
      var v0, v1, v2 := Sextet(e[0]), Sextet(e[1]), Sextet(e[2]);
      v0 * 4 + v1 / 16 == b0 as int && v1 % 16 * 16 + v2 / 4 == b1 as int
  {
    ValueOfCharOf(Hi6(b0));
    ValueOfCharOf(b0 as int % 4 * 16 + b1 as int / 16);
    ValueOfCharOf(b1 as int % 16 * 4);
  }

  lemma Quantum1(b0: byte)
    ensures var e := Encode1(b0);
      Sextet(e[0]) * 4 + Sextet(e[1]) / 16 == b0 as int
  {
    ValueOfCharOf(Hi6(b0));
    ValueOfCharOf(b0 as int % 4 * 16);
  }

  lemma FullQuantum(b0: byte, b1: byte, b2: byte, r: string, rest: seq<byte>)
    requires DecodeValues(SextetsOf(r)) == Some(rest)
    ensures DecodeValues(SextetsOf(Encode3(b0, b1, b2) + r)) == Some([b0, b1, b2] + rest)
  {
    var e := Encode3(b0, b1, b2) + r;
    var vs := SextetsOf(e);
    assert vs[4..] == SextetsOf(r) by {
      forall i | 0 <= i < |r| ensures vs[4..][i] == SextetsOf(r)[i] {
        assert e[4 + i] == r[i];
      }
    }
    Quantum3(b0, b1, b2);
    assert Octet0(vs[0], vs[1]) == b0;
    assert Octet1(vs[1], vs[2]) == b1;
    assert Octet2(vs[2], vs[3]) == b2;
  }

  lemma {:induction false} DecodeSextetsOfEncode(b: seq<byte>)
    ensures DecodeValues(SextetsOf(Encode(b))) == Some(b)
    decreases |b|
  {
    if |b| >= 3 {
      DecodeSextetsOfEncode(b[3..]);
      FullQuantum(b[0], b[1], b[2], Encode(b[3..]), b[3..]);
      assert b == [b[0], b[1], b[2]] + b[3..];
    } else if |b| == 2 {
      Quantum2(b[0], b[1]);
      var vs := SextetsOf(Encode2(b[0], b[1]));
      assert Octet0(vs[0], vs[1]) == b[0];
      assert Octet1(vs[1], vs[2]) == b[1];
      assert b == [b[0], b[1]];
    } else if |b| == 1 {
      Quantum1(b[0]);
      var vs := SextetsOf(Encode1(b[0]));
      assert Octet0(vs[0], vs[1]) == b[0];
      assert b == [b[0]];
    }
  }

  /** Decoding an encoding gives back the octets. */
  lemma RoundTrip(b: seq<byte>)
    ensures Decode(Encode(b)) == Some(b)
  {
    var e := Encode(b);
    NoNewlinesKept(e);
    ValuesOfAlphabet(e);
    DecodeSextetsOfEncode(b);
  }

  /** The encoding is injective: different octet strings never share an encoding. */
  lemma EncodeInjective(a: seq<byte>, b: seq<byte>)
    requires Encode(a) == Encode(b)
    ensures a == b
  {
    RoundTrip(a);
    RoundTrip(b);
  }

  /** Thirty-two random octets encode to 43 characters, none of them padding. */
  lemma ThirtyTwoOctets(b: seq<byte>)
    requires |b| == 32
    ensures |Encode(b)| == 43
    ensures '=' !in Encode(b)
  {
    var e := Encode(b);
    assert forall i :: 0 <= i < |e| ==> IsAlphabetChar(e[i]);
  }
}
