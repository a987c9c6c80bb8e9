/**
 The wire frame: a 21-byte header and a payload, as one pair of functions that the encoders and
 decoders of the three languages are each proved against.
 */
module FrameCodec {
  import opened Wrappers

  const HEADER_BYTES := 21
  const MAX_PAYLOAD_BYTES := 4096
  const MAX_TRACK_SLOT := 8
  const MAGIC: Bytes := [0x53, 0x4d, 0x58, 0x31]

  type uint16 = x: int | 0 <= x < 0x1_0000
  type uint32 = x: int | 0 <= x < 0x1_0000_0000
  type uint64 = x: int | 0 <= x < 0x1_0000_0000_0000_0000

  datatype Frame = Frame(kind: byte, track: byte, flags: byte, seqNo: uint32, timestampMs: uint64, payload: Bytes)

  datatype Kind = BadMagic | BadLength | BadTrack | BadType | BadPayload | TooLarge

  predicate IsKnownType(t: int) {
    t in {0x01, 0x02, 0x03, 0x04, 0x05, 0x10, 0x20, 0xff}
  }

  // ---- big-endian numbers ----

  function Pow256(n: nat): (p: nat)
    ensures p > 0
  {
    if n == 0 then 1 else 256 * Pow256(n - 1)
  }

  /** The n low base-256 digits of v, most significant first. */
  function BigEndian(v: nat, n: nat): (b: Bytes)
    ensures |b| == n
  {
    if n == 0 then [] else BigEndian(v / 256, n - 1) + [v % 256]
  }

  function Value(b: Bytes): nat {
    if b == [] then 0 else Value(b[..|b| - 1]) * 256 + b[|b| - 1]
  }

  lemma {:induction false} ValueOfBigEndian(v: nat, n: nat)
    requires v < Pow256(n)
    ensures Value(BigEndian(v, n)) == v
  {
    if n > 0 {
      var high := BigEndian(v / 256, n - 1);
      assert BigEndian(v, n)[..n - 1] == high;
      assert v / 256 < Pow256(n - 1);
      ValueOfBigEndian(v / 256, n - 1);
    }
  }

  lemma {:induction false} BigEndianOfValue(b: Bytes)
    ensures Value(b) < Pow256(|b|) && BigEndian(Value(b), |b|) == b
  {
    if b != [] {
      var high := b[..|b| - 1];
      BigEndianOfValue(high);
      assert Value(b) / 256 == Value(high) && Value(b) % 256 == b[|b| - 1];
      assert b == high + [b[|b| - 1]];
    }
  }

  lemma Widths()
    ensures Pow256(1) == 0x100 && Pow256(2) == 0x1_0000 && Pow256(4) == 0x1_0000_0000
    ensures Pow256(8) == 0x1_0000_0000_0000_0000
  {
    assert Pow256(3) == 256 * Pow256(2);
    assert Pow256(5) == 256 * Pow256(4);
    assert Pow256(6) == 256 * Pow256(5);
    assert Pow256(7) == 256 * Pow256(6);
  }

  // ---- the frame ----

  function Header(f: Frame): Bytes {
    MAGIC + [f.kind, f.track, f.flags] + BigEndian(|f.payload|, 2) + BigEndian(f.seqNo, 4) + BigEndian(f.timestampMs, 8)
  }

  function Layout(f: Frame): Bytes {
    Header(f) + f.payload
  }

  function Encode(f: Frame): Result<Bytes, Kind> {
    if |f.payload| > MAX_PAYLOAD_BYTES then Err(TooLarge)
    else if f.track > MAX_TRACK_SLOT then Err(BadTrack)
    else if !IsKnownType(f.kind) then Err(BadType)
    else Ok(Layout(f))
  }

  function Decode(b: Bytes): Result<Frame, Kind> {
    if |b| < HEADER_BYTES then Err(BadLength)
    else if b[..4] != MAGIC then Err(BadMagic)
    else if Value(b[7..9]) > MAX_PAYLOAD_BYTES then Err(TooLarge)
    else if HEADER_BYTES + Value(b[7..9]) != |b| then Err(BadLength)
    else if b[5] > MAX_TRACK_SLOT then Err(BadTrack)
    else if !IsKnownType(b[4]) then Err(BadType)
    else Ok(Parsed(b))
  }

  function Parsed(b: Bytes): Frame
    requires |b| >= HEADER_BYTES
  {
    ValuesFit(b);
    Frame(b[4], b[5], b[6], Value(b[9..13]), Value(b[13..21]), b[HEADER_BYTES..])
  }

  lemma ValuesFit(b: Bytes)
    requires |b| >= HEADER_BYTES
    ensures Value(b[7..9]) < 0x1_0000 && Value(b[9..13]) < 0x1_0000_0000 && Value(b[13..21]) < 0x1_0000_0000_0000_0000
  {
    Widths();
    BigEndianOfValue(b[7..9]);
    BigEndianOfValue(b[9..13]);
    BigEndianOfValue(b[13..21]);
  }

  // ---- the documented format ----

  function Number2(a: int, b: int): int {
    a * 0x100 + b
  }

  function Number4(a: int, b: int, c: int, d: int): int {
    Number2(a, b) * 0x1_0000 + Number2(c, d)
  }

  function Number8(s: Bytes): int
    requires |s| == 8
  {
    Number4(s[0], s[1], s[2], s[3]) * 0x1_0000_0000 + Number4(s[4], s[5], s[6], s[7])
  }

  lemma ValueTwo(a: byte, b: byte)
    ensures Value([a, b]) == Number2(a, b)
  {
    assert [a, b][..1] == [a] && [a][..0] == [];
    assert Value([a]) == a;
  }

  lemma ValueFour(a: byte, b: byte, c: byte, d: byte)
    ensures Value([a, b, c, d]) == Number4(a, b, c, d)
  {
    ValueTwo(a, b);
    assert [a, b, c, d][..3] == [a, b, c] && [a, b, c][..2] == [a, b];
    assert Value([a, b, c]) == Value([a, b]) * 0x100 + c;
  }

  lemma ValueEight(s: Bytes)
    requires |s| == 8
    ensures Value(s) == Number8(s)
  {
    ValueFour(s[0], s[1], s[2], s[3]);
    assert s[..7][..6] == s[..6] && s[..6][..5] == s[..5] && s[..5][..4] == s[..4] == [s[0], s[1], s[2], s[3]];
    assert Value(s[..5]) == Value(s[..4]) * 0x100 + s[4];
    assert Value(s[..6]) == Value(s[..5]) * 0x100 + s[5];
    assert Value(s[..7]) == Value(s[..6]) * 0x100 + s[6];
  }

  /** "SMX1", three single bytes, then length, sequence number and time in network byte order, and the payload. */
  ghost predicate IsWireFormat(f: Frame, b: Bytes) {
    && |b| == 21 + |f.payload|
    && b[0] == 0x53 && b[1] == 0x4d && b[2] == 0x58 && b[3] == 0x31
    && b[4] == f.kind && b[5] == f.track && b[6] == f.flags
    && Number2(b[7], b[8]) == |f.payload|
    && Number4(b[9], b[10], b[11], b[12]) == f.seqNo
    && Number8(b[13..21]) == f.timestampMs
    && b[21..] == f.payload
  }

  lemma LayoutIsWireFormat(f: Frame)
    requires |f.payload| < 0x1_0000
    ensures IsWireFormat(f, Layout(f))
  {
    var b := Layout(f);
    LayoutFields(f);
    LayoutParses(f);
    assert b[..4][0] == b[0] && b[..4][1] == b[1] && b[..4][2] == b[2] && b[..4][3] == b[3];
    assert b[7..9] == [b[7], b[8]] && b[9..13] == [b[9], b[10], b[11], b[12]];
    ValueTwo(b[7], b[8]);
    ValueFour(b[9], b[10], b[11], b[12]);
    ValueEight(b[13..21]);
  }

  /**
   A frame is encoded exactly if it is of one of the eight types, on track 0 to 8, with a payload of
   at most 4096 bytes, and then to the documented layout.
   */
  lemma EncodesIff(f: Frame)
    ensures Encode(f).Ok? <==>
            && (f.kind == 0x01 || f.kind == 0x02 || f.kind == 0x03 || f.kind == 0x04 || f.kind == 0x05
                || f.kind == 0x10 || f.kind == 0x20 || f.kind == 0xff)
            && f.track <= 8 && |f.payload| <= 4096
    ensures Encode(f).Ok? ==> IsWireFormat(f, Encode(f).value)
  {
    if Encode(f).Ok? {
      LayoutIsWireFormat(f);
    }
  }

  // ---- round trips ----

  lemma LayoutFields(f: Frame)
    requires |f.payload| < 0x1_0000
    ensures
      var b := Layout(f);
      && |b| == HEADER_BYTES + |f.payload| && b[..4] == MAGIC
      && b[4] == f.kind && b[5] == f.track && b[6] == f.flags
      && b[7..9] == BigEndian(|f.payload|, 2) && b[9..13] == BigEndian(f.seqNo, 4)
      && b[13..21] == BigEndian(f.timestampMs, 8) && b[21..] == f.payload
  {
  }

  /** The header of any frame, whatever its type and track, reads back as it was laid out. */
  lemma LayoutParses(f: Frame)
    requires |f.payload| < 0x1_0000
    ensures |Layout(f)| == HEADER_BYTES + |f.payload| && Value(Layout(f)[7..9]) == |f.payload|
    ensures Parsed(Layout(f)) == f
  {
    Widths();
    LayoutFields(f);
    ValueOfBigEndian(|f.payload|, 2);
    ValueOfBigEndian(f.seqNo, 4);
    ValueOfBigEndian(f.timestampMs, 8);
  }

  /** Every frame that can be encoded decodes to itself. */
  lemma DecodeEncode(f: Frame)
    ensures match Encode(f) case Ok(b) => Decode(b) == Ok(f) case Err(_) => true
  {
    if Encode(f).Ok? {
      LayoutParses(f);
      LayoutFields(f);
    }
  }

  /** Every byte string that decodes is the encoding of what it decodes to: there is one wire form per frame. */
  lemma EncodeDecode(b: Bytes)
    ensures match Decode(b) case Ok(f) => Encode(f) == Ok(b) case Err(_) => true
  {
    if Decode(b).Ok? {
      var f := Parsed(b);
      BigEndianOfValue(b[7..9]);
      BigEndianOfValue(b[9..13]);
      BigEndianOfValue(b[13..21]);
      assert b == MAGIC + [b[4], b[5], b[6]] + b[7..9] + b[9..13] + b[13..21] + b[21..];
    }
  }

  /** So the decodable byte strings are exactly the encodings. */
  lemma DecodableIffEncoding(b: Bytes)
    ensures Decode(b).Ok? <==> exists f :: Encode(f) == Ok(b)
  {
    EncodeDecode(b);
    if f :| Encode(f) == Ok(b) {
      DecodeEncode(f);
    }
  }
}
