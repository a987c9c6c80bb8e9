/** Result types and the byte type shared by the other modules. */
module Wrappers {
  datatype Option<+T> = None | Some(value: T)

  datatype Result<+T, +E> = Ok(value: T) | Err(error: E)

  type byte = b: int | 0 <= b < 256

  type Bytes = seq<byte>

  /** The bytes of a text, a char of a C string being one byte. */
  function AsBytes(s: string): (b: Bytes)
    ensures |b| == |s|
  {
    seq(|s|, i requires 0 <= i < |s| => s[i] as int % 256)
  }

  /** The text of bytes, one char for each. */
  function AsText(b: Bytes): (s: string)
    ensures |s| == |b|
  {
    seq(|b|, i requires 0 <= i < |b| => b[i] as char)
  }

  lemma TextOfBytes(s: string)
    requires forall c :: c in s ==> c < 256 as char
    ensures AsText(AsBytes(s)) == s && forall i :: 0 <= i < |s| ==> AsBytes(s)[i] == s[i] as int
  {
    forall i | 0 <= i < |s| ensures AsText(AsBytes(s))[i] == s[i] && AsBytes(s)[i] == s[i] as int {
      assert s[i] in s;
    }
  }
}
