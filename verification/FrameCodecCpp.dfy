/** The C++ codec: shift loops over raw buffers, proved against the wire form. */
module FrameCodecCpp {
  import opened Wrappers
  import opened FrameCodec

  // ---- shifts ----

  /** `v >> (8 * n)` of an unsigned integer. */
  function ShiftRight(v: nat, n: nat): nat {
    DivideNat(v, Pow256(n));
    v / Pow256(n)
  }

  lemma DivideNat(v: nat, p: nat)
    requires p > 0
    ensures v / p >= 0
  {
  }

  lemma ShiftStep(v: nat, n: nat)
    ensures ShiftRight(v, n) / 256 == ShiftRight(v, n + 1)
  {
    DivideTwice(v, Pow256(n));
  }

  lemma DivideTwice(v: nat, p: nat)
    requires p > 0
    ensures v / p / 256 == v / (256 * p)
  {
    DivideNat(v, p);
    var q, r := v / p, v % p;
    var q2, r2 := q / 256, q % 256;
    Redistribute(q2, r2, p, r);
    QuotientIs(v, 256 * p, q2, r2 * p + r);
  }

  lemma Redistribute(q: nat, k: nat, p: nat, r: nat)
    requires k <= 255 && r < p
    ensures (q * 256 + k) * p + r == q * (256 * p) + (k * p + r)
    ensures 0 <= k * p + r < 256 * p
  {
    assert k * p <= 255 * p;
  }

  lemma QuotientIs(v: nat, d: nat, q: nat, r: nat)
    requires d > 0 && v == q * d + r && r < d
    ensures v / d == q
  {
    var k := v / d - q;
    assert k * d == (v / d) * d - q * d == r - v % d;
    MultipleIsFar(k, d);
  }

  lemma MultipleIsFar(k: int, d: int)
    requires d > 0
    ensures k > 0 ==> k * d >= d
    ensures k < 0 ==> k * d <= -d
  {
  }

  // ---- writing ----

  method WriteU16BE(dst: array<byte>, at: nat, v: uint16)
    requires at + 2 <= dst.Length
    modifies dst
    ensures dst[..] == old(dst[..at]) + BigEndian(v, 2) + old(dst[at + 2..])
  {
    dst[at] := (v / 0x100) % 0x100;
    dst[at + 1] := v % 0x100;
    assert BigEndian(v, 2) == [(v / 0x100) % 0x100, v % 0x100] by {
      assert BigEndian(v, 2) == BigEndian(v / 256, 1) + [v % 256];
      assert BigEndian(v / 256, 1) == BigEndian(v / 256 / 256, 0) + [(v / 256) % 256];
    }
  }

  lemma FourDigits(v: uint32)
    ensures BigEndian(v, 4) == [(v / 0x1_000000) % 0x100, (v / 0x1_0000) % 0x100, (v / 0x100) % 0x100, v % 0x100]
  {
    DivideTwice(v, 0x100);
    DivideTwice(v, 0x1_0000);
    assert BigEndian(v, 4) == BigEndian(v / 256, 3) + [v % 256];
    assert BigEndian(v / 256, 3) == BigEndian(v / 256 / 256, 2) + [(v / 256) % 256];
    assert BigEndian(v / 0x1_0000, 2) == BigEndian(v / 0x1_0000 / 256, 1) + [(v / 0x1_0000) % 256];
    assert BigEndian(v / 0x1_000000, 1) == BigEndian(v / 0x1_000000 / 256, 0) + [(v / 0x1_000000) % 256];
  }

  method WriteU32BE(dst: array<byte>, at: nat, v: uint32)
    requires at + 4 <= dst.Length
    modifies dst
    ensures dst[..] == old(dst[..at]) + BigEndian(v, 4) + old(dst[at + 4..])
  {
    FourDigits(v);
    dst[at] := (v / 0x1_000000) % 0x100;
    dst[at + 1] := (v / 0x1_0000) % 0x100;
    dst[at + 2] := (v / 0x100) % 0x100;
    dst[at + 3] := v % 0x100;
  }

  method WriteU64BE(dst: array<byte>, at: nat, v: uint64)
    requires at + 8 <= dst.Length
    modifies dst
    ensures dst[..] == old(dst[..at]) + BigEndian(v, 8) + old(dst[at + 8..])
  {
    var i := 7;
    while i >= 0
      invariant -1 <= i <= 7
      invariant dst[..at] == old(dst[..at]) && dst[at + 8..] == old(dst[at + 8..])
      invariant dst[at..at + 7 - i] == BigEndian(ShiftRight(v, i + 1), 7 - i)
    {
      ShiftStep(v, i);
      ghost var done := dst[at..at + 7 - i];
      dst[at + 7 - i] := ShiftRight(v, i) % 0x100;
      assert dst[at..at + 8 - i] == done + [ShiftRight(v, i) % 0x100];
      i := i - 1;
    }
    assert dst[..] == dst[..at] + dst[at..at + 8] + dst[at + 8..];
  }

  /** memcpy */
  method Copy(dst: array<byte>, at: nat, src: Bytes)
    requires at + |src| <= dst.Length
    modifies dst
    ensures dst[..] == old(dst[..at]) + src + old(dst[at + |src|..])
  {
    forall k | 0 <= k < |src| {
      dst[at + k] := src[k];
    }
  }

  // ---- reading ----

  lemma TwoBytes(s: Bytes)
    requires |s| == 2
    ensures Value(s) == s[0] as int * 0x100 + s[1]
  {
    assert Value(s[..1]) == Value(s[..1][..0]) * 256 + s[0];
  }

  lemma FourBytes(s: Bytes)
    requires |s| == 4
    ensures Value(s) == s[0] as int * 0x1_000000 + s[1] as int * 0x1_0000 + s[2] as int * 0x100 + s[3]
  {
    assert s[..3][..2] == s[..2];
    TwoBytes(s[..2]);
    assert Value(s[..3]) == Value(s[..2]) * 256 + s[2];
  }

  method ReadU16BE(src: array<byte>, at: nat) returns (v: uint16)
    requires at + 2 <= src.Length
    ensures v == Value(src[at..at + 2])
  {
    TwoBytes(src[at..at + 2]);
    v := src[at] as int * 0x100 + src[at + 1];
  }

  method ReadU32BE(src: array<byte>, at: nat) returns (v: uint32)
    requires at + 4 <= src.Length
    ensures v == Value(src[at..at + 4])
  {
    FourBytes(src[at..at + 4]);
    v := src[at] as int * 0x1_000000 + src[at + 1] as int * 0x1_0000 + src[at + 2] as int * 0x100 + src[at + 3];
  }

  method ReadU64BE(src: array<byte>, at: nat) returns (v: uint64)
    requires at + 8 <= src.Length
    ensures v == Value(src[at..at + 8])
  {
    v := 0;
    for i := 0 to 8
      invariant v == Value(src[at..at + i])
    {
      assert src[at..at + i + 1] == src[at..at + i] + [src[at + i]];
      ShiftedIn(src[at..at + i], src[at + i]);
      v := v * 0x100 % 0x1_0000_0000_0000_0000 + src[at + i];
    }
  }

  lemma ShiftedIn(s: Bytes, b: byte)
    requires |s| < 8
    ensures 0 <= Value(s) * 0x100 % 0x1_0000_0000_0000_0000 + b == Value(s + [b]) < 0x1_0000_0000_0000_0000
  {
    assert (s + [b])[..|s|] == s;
    BigEndianOfValue(s + [b]);
    WidthsUpTo(|s| + 1);
    NothingLost(Value(s) * 0x100, 0x1_0000_0000_0000_0000);
  }

  lemma NothingLost(v: nat, register: nat)
    requires v < register
    ensures v % register == v
  {
  }

  /** No bit is shifted out of a 64-bit register that has taken at most eight bytes. */
  lemma WidthsUpTo(n: nat)
    requires n <= 8
    ensures Pow256(n) <= 0x1_0000_0000_0000_0000
  {
    Widths();
    assert Pow256(3) == 256 * Pow256(2) && Pow256(5) == 256 * Pow256(4);
    assert Pow256(6) == 256 * Pow256(5) && Pow256(7) == 256 * Pow256(6);
  }

  // ---- frames ----

  method EncodeFrame(f: Frame) returns (r: Result<array<byte>, Kind>)
    ensures r.Ok? ==> fresh(r.value) && Encode(f) == Ok(r.value[..])
    ensures r.Err? ==> Encode(f) == Err(r.error)
  {
    if |f.payload| > MAX_PAYLOAD_BYTES {
      return Err(TooLarge);
    }
    if f.track > MAX_TRACK_SLOT {
      return Err(BadTrack);
    }
    if !IsKnownType(f.kind) {
      return Err(BadType);
    }
    var out := new byte[HEADER_BYTES + |f.payload|](_ => 0);
    FillHeader(out, f);
    Copy(out, HEADER_BYTES, f.payload);
    assert out[..] == Layout(f);
    return Ok(out);
  }

  method FillHeader(out: array<byte>, f: Frame)
    requires |f.payload| <= MAX_PAYLOAD_BYTES && out.Length == HEADER_BYTES + |f.payload|
    modifies out
    ensures out[..HEADER_BYTES] == Header(f)
  {
    Copy(out, 0, MAGIC);
    out[4] := f.kind;
    out[5] := f.track;
    out[6] := f.flags;
    ghost var h := MAGIC + [f.kind, f.track, f.flags];
    assert out[..7] == h;
    WriteU16BE(out, 7, |f.payload|);
    assert out[..9] == h + BigEndian(|f.payload|, 2);
    WriteU32BE(out, 9, f.seqNo);
    assert out[..13] == h + BigEndian(|f.payload|, 2) + BigEndian(f.seqNo, 4);
    WriteU64BE(out, 13, f.timestampMs);
    assert out[..21] == h + BigEndian(|f.payload|, 2) + BigEndian(f.seqNo, 4) + BigEndian(f.timestampMs, 8);
  }

  method DecodeFrame(input: array<byte>) returns (r: Result<Frame, Kind>)
    ensures r == Decode(input[..])
  {
    if input.Length < HEADER_BYTES {
      return Err(BadLength);
    }
    for i := 0 to |MAGIC|
      invariant input[..i] == MAGIC[..i]
    {
      if input[i] != MAGIC[i] {
        assert input[..][..4][i] != MAGIC[i];
        return Err(BadMagic);
      }
    }
    assert input[..][..4] == MAGIC;
    var kind, track, flags := input[4], input[5], input[6];
    var payloadLen := ReadU16BE(input, 7);
    var seqNo := ReadU32BE(input, 9);
    var ts := ReadU64BE(input, 13);
    assert input[..][7..9] == input[7..9] && input[..][9..13] == input[9..13] && input[..][13..21] == input[13..21];
    if payloadLen > MAX_PAYLOAD_BYTES {
      return Err(TooLarge);
    }
    if HEADER_BYTES + payloadLen != input.Length {
      return Err(BadLength);
    }
    if track > MAX_TRACK_SLOT {
      return Err(BadTrack);
    }
    if !IsKnownType(kind) {
      return Err(BadType);
    }
    assert input[..][HEADER_BYTES..] == input[HEADER_BYTES..HEADER_BYTES + payloadLen];
    return Ok(Frame(kind, track, flags, seqNo, ts, input[HEADER_BYTES..HEADER_BYTES + payloadLen]));
  }
}
