/**
 The TypeScript codec. Its frame fields are JavaScript numbers, which the writes into the buffer
 truncate, and its encoder does not look at the message type.
 */
module FrameCodecTs {
  import opened Wrappers
  import opened FrameCodec
  import FrameCodecGo

  datatype JsNumber = Finite(value: real) | PlusInfinity | MinusInfinity | NaN

  /** The timestamp is a bigint, hence an integer. */
  datatype TsFrame = TsFrame(kind: JsNumber, track: JsNumber, flags: JsNumber, seqNo: JsNumber, timestampMs: int,
      payload: Bytes)

  /** `n < 0 || n > max`: comparisons with NaN are false. */
  predicate OutOfRange(n: JsNumber, max: int) {
    match n
    case Finite(x) => x < 0.0 || x > max as real
    case NaN => false
    case _ => true
  }

  function Truncated(x: real): int {
    if x < 0.0 then -(-x).Floor else x.Floor
  }

  /** What a write into an unsigned slot of the given size stores. */
  function ToUint(n: JsNumber, size: int): int
    requires size > 0
    ensures 0 <= ToUint(n, size) < size
  {
    match n
    case Finite(x) => Truncated(x) % size
    case _ => 0
  }

  function EncodeTs(f: TsFrame): Result<Bytes, Kind> {
    if |f.payload| > MAX_PAYLOAD_BYTES then Err(TooLarge)
    else if OutOfRange(f.track, MAX_TRACK_SLOT) then Err(BadTrack)
    else if OutOfRange(f.flags, 0xff) || OutOfRange(f.seqNo, 0xffff_ffff)
            || f.timestampMs < 0 || f.timestampMs > 0xffff_ffff_ffff_ffff then Err(BadPayload)
    else Ok(Layout(Stored(f)))
  }

  /** The frame that the buffer holds after the writes. */
  function Stored(f: TsFrame): Frame
    requires 0 <= f.timestampMs < 0x1_0000_0000_0000_0000
  {
    Frame(ToUint(f.kind, 0x100), ToUint(f.track, 0x100), ToUint(f.flags, 0x100), ToUint(f.seqNo, 0x1_0000_0000),
          f.timestampMs, f.payload)
  }

  /** A decoded frame, as JavaScript numbers. */
  function Lift(f: Frame): TsFrame {
    TsFrame(Finite(f.kind as real), Finite(f.track as real), Finite(f.flags as real), Finite(f.seqNo as real),
            f.timestampMs, f.payload)
  }

  predicate IsInteger(n: JsNumber) {
    n.Finite? && n.value == n.value.Floor as real
  }

  // ---- the implementation ----

  method EncodeFrame(f: TsFrame) returns (r: Result<array<byte>, Kind>)
    ensures r.Ok? ==> fresh(r.value) && EncodeTs(f) == Ok(r.value[..])
    ensures r.Err? ==> EncodeTs(f) == Err(r.error)
  {
    if |f.payload| > MAX_PAYLOAD_BYTES {
      return Err(TooLarge);
    }
    if OutOfRange(f.track, MAX_TRACK_SLOT) {
      return Err(BadTrack);
    }
    if OutOfRange(f.flags, 0xff) {
      return Err(BadPayload);
    }
    if OutOfRange(f.seqNo, 0xffff_ffff) {
      return Err(BadPayload);
    }
    if f.timestampMs < 0 || f.timestampMs > 0xffff_ffff_ffff_ffff {
      return Err(BadPayload);
    }
    var buf := new byte[HEADER_BYTES + |f.payload|](_ => 0);
    FrameCodecGo.PutHeader(buf, Stored(f));
    FrameCodecGo.CopyAt(buf, HEADER_BYTES, f.payload);
    assert buf[..] == buf[..HEADER_BYTES] + buf[HEADER_BYTES..HEADER_BYTES + |f.payload|];
    return Ok(buf);
  }

  method DecodeFrame(input: array<byte>) returns (r: Result<TsFrame, Kind>)
    ensures r == match Decode(input[..]) case Ok(f) => Ok(Lift(f)) case Err(k) => Err(k)
  {
    if input.Length < HEADER_BYTES {
      return Err(BadLength);
    }
    for i := 0 to |MAGIC|
      invariant input[..i] == MAGIC[..i]
    {
      if input[i] != MAGIC[i] {
        assert input[..][..4][i] != MAGIC[i];
        return Err(BadMagic);
      }
    }
    assert input[..][..4] == MAGIC;
    ValuesFit(input[..]);
    var kind, track, flags := input[4], input[5], input[6];
    var payloadLen := Value(input[..][7..9]);
    if payloadLen > MAX_PAYLOAD_BYTES {
      return Err(TooLarge);
    }
    if HEADER_BYTES + payloadLen != input.Length {
      return Err(BadLength);
    }
    if track > MAX_TRACK_SLOT {
      return Err(BadTrack);
    }
    if !IsKnownType(kind) {
      return Err(BadType);
    }
    var payload := input[HEADER_BYTES..HEADER_BYTES + payloadLen];
    assert input[..][HEADER_BYTES..] == payload;
    return Ok(Lift(Frame(kind, track, flags, Value(input[..][9..13]), Value(input[..][13..21]), payload)));
  }

  // ---- what the encoder's output decodes to ----

  lemma InRangeStores(n: JsNumber, max: int, size: int)
    requires !OutOfRange(n, max) && 0 <= max < size
    ensures 0 <= ToUint(n, size) <= max
    ensures n == Finite(ToUint(n, size) as real) <==> IsInteger(n)
  {
    if n.Finite? {
      assert 0 <= n.value.Floor <= max;
      SmallModulo(n.value.Floor, size);
    }
  }

  lemma SmallModulo(k: int, size: int)
    requires 0 <= k < size
    ensures k % size == k
  {
  }

  /** Writes cut off the fraction, toward zero, and wrap around. */
  lemma StoredByte(x: real, k: int)
    requires if x < 0.0 then x <= k as real < x + 1.0 else x - 1.0 < k as real <= x
    ensures ToUint(Finite(x), 0x100) == k % 0x100
  {
  }

  /** From 0 to max, fractions included, or NaN. */
  predicate Passes(n: JsNumber, max: int) {
    n == NaN || (n.Finite? && 0.0 <= n.value <= max as real)
  }

  /** What the encoder refuses, and how. The type is not among it. */
  lemma EncodesTsIff(f: TsFrame)
    ensures EncodeTs(f).Ok? <==>
            && |f.payload| <= 4096 && Passes(f.track, 8) && Passes(f.flags, 255) && Passes(f.seqNo, 0xffff_ffff)
            && 0 <= f.timestampMs <= 0xffff_ffff_ffff_ffff
    ensures |f.payload| > 4096 ==> EncodeTs(f) == Err(TooLarge)
    ensures |f.payload| <= 4096 ==> (EncodeTs(f) == Err(BadTrack) <==> !Passes(f.track, 8))
  {
  }

  /** Comparisons with NaN are false, so it passes every range check, and it is stored as zero. */
  lemma NaNPasses(f: TsFrame)
    requires f.track == NaN && f.flags == NaN && f.seqNo == NaN
    requires |f.payload| <= 4096 && 0 <= f.timestampMs <= 0xffff_ffff_ffff_ffff
    requires f.kind.Finite? && IsInteger(f.kind) && IsKnownType(f.kind.value.Floor)
    ensures EncodeTs(f).Ok?
    ensures Decode(EncodeTs(f).value) == Ok(Frame(f.kind.value.Floor, 0, 0, 0, f.timestampMs, f.payload))
  {
    AcceptedIffTypeKnown(f);
    SmallModulo(f.kind.value.Floor, 0x100);
  }

  /** "Never produces a frame the decoder would reject" holds exactly when the type, as stored, is known. */
  lemma AcceptedIffTypeKnown(f: TsFrame)
    requires EncodeTs(f).Ok?
    ensures Decode(EncodeTs(f).value) ==
              if IsKnownType(ToUint(f.kind, 0x100)) then Ok(Stored(f)) else Err(BadType)
  {
    LayoutParses(Stored(f));
    LayoutFields(Stored(f));
    InRangeStores(f.track, MAX_TRACK_SLOT, 0x100);
  }

  /** A type the wire does not know, 6, is encoded all the same, and no decoder accepts the bytes. */
  lemma UnknownTypeIsEncoded()
    ensures
      var f := TsFrame(Finite(6.0), Finite(0.0), Finite(0.0), Finite(0.0), 0, []);
      EncodeTs(f).Ok? && Decode(EncodeTs(f).value) == Err(BadType)
  {
    AcceptedIffTypeKnown(TsFrame(Finite(6.0), Finite(0.0), Finite(0.0), Finite(0.0), 0, []));
    SmallModulo(6, 0x100);
  }

  /**
   And the frame comes back as it was exactly when, besides, its numbers are integers and its type
   needs no wrapping.
   */
  lemma RoundTripIff(f: TsFrame)
    requires EncodeTs(f).Ok?
    ensures
      var d := Decode(EncodeTs(f).value);
      (d.Ok? && Lift(d.value) == f)
      <==>
      (&& IsInteger(f.kind) && IsKnownType(f.kind.value.Floor)
       && IsInteger(f.track) && IsInteger(f.flags) && IsInteger(f.seqNo))
  {
    AcceptedIffTypeKnown(f);
    InRangeStores(f.track, MAX_TRACK_SLOT, 0x100);
    InRangeStores(f.flags, 0xff, 0x100);
    InRangeStores(f.seqNo, 0xffff_ffff, 0x1_0000_0000);
    if IsInteger(f.kind) && IsKnownType(f.kind.value.Floor) {
      SmallModulo(f.kind.value.Floor, 0x100);
    }
  }

  /** On frames of the wire's own widths the encoder agrees with the other two, except that it lets any type through. */
  lemma AgreesOnWireFrames(f: Frame)
    ensures EncodeTs(Lift(f)) == match Encode(f) case Err(BadType) => Ok(Layout(f)) case other => other
  {
    SmallModulo(f.kind, 0x100);
    SmallModulo(f.track, 0x100);
    SmallModulo(f.flags, 0x100);
    SmallModulo(f.seqNo, 0x1_0000_0000);
    assert 0 <= f.timestampMs < 0x1_0000_0000_0000_0000;
    if EncodeTs(Lift(f)).Ok? {
      assert Stored(Lift(f)) == f;
    }
  }
}
