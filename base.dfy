/** Small shared vocabulary: an optional value, a value-or-error, and the byte type. */
module Base {

  datatype Option<+T> = None | Some(value: T)

  /** A value or the error a Go function returns in its place. */
  datatype Result<+T> = Ok(value: T) | Err(error: string)

  /** An octet, as Go's `byte`. */
  newtype byte = x: int | 0 <= x < 256

  /** A Go `string` is a sequence of bytes; a Dafny string stands for one when every character is below 256. */
  predicate IsByteString(s: string) {
    forall i :: 0 <= i < |s| ==> s[i] as int < 256
  }

  lemma BytesConcat(a: string, b: string)
    requires IsByteString(a) && IsByteString(b)
    ensures IsByteString(a + b)
  {
    forall i | 0 <= i < |a + b| ensures (a + b)[i] as int < 256 {
      if i >= |a| {
        assert (a + b)[i] == b[i - |a|];
      }
    }
  }

  /** `[]byte(s)` for a byte string. */
  function Octets(s: string): (b: seq<byte>)
    ensures |b| == |s|
  {
    seq(|s|, i requires 0 <= i < |s| => (s[i] as int % 256) as byte)
  }

  /** `string(b)`: each octet becomes the character with that code. */
  function FromOctets(b: seq<byte>): (s: string)
    ensures |s| == |b| && IsByteString(s)
  {
    seq(|b|, i requires 0 <= i < |b| => b[i] as int as char)
  }

  lemma OctetsRoundTrip(s: string)
    requires IsByteString(s)
    ensures FromOctets(Octets(s)) == s
  {
    var t := FromOctets(Octets(s));
    assert |t| == |s|;
    forall i | 0 <= i < |s| ensures t[i] == s[i] {
      assert s[i] as int % 256 == s[i] as int;
    }
  }
}
