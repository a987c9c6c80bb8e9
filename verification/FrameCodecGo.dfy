/** The Go codec of frames and fingerprints, filling a byte slice by offset. */
module FrameCodecGo {
  import opened Wrappers
  import opened FrameCodec

  /** copy(buf[at:], src), which is also what the library's big-endian Put functions do with the digits. */
  method CopyAt(buf: array<byte>, at: nat, src: Bytes)
    requires at + |src| <= buf.Length
    modifies buf
    ensures buf[..at] == old(buf[..at]) && buf[at..at + |src|] == src
    ensures buf[at + |src|..] == old(buf[at + |src|..])
  {
    for k := 0 to |src|
      invariant buf[..at] == old(buf[..at]) && buf[at..at + k] == src[..k]
      invariant buf[at + |src|..] == old(buf[at + |src|..])
    {
      buf[at + k] := src[k];
    }
  }

  method EncodeFrame(f: Frame) returns (r: Result<array<byte>, Kind>)
    ensures r.Ok? ==> fresh(r.value) && Encode(f) == Ok(r.value[..])
    ensures r.Err? ==> Encode(f) == Err(r.error)
  {
    if |f.payload| > MAX_PAYLOAD_BYTES {
      return Err(TooLarge);
    }
    if f.track > MAX_TRACK_SLOT {
      return Err(BadTrack);
    }
    if !IsKnownType(f.kind) {
      return Err(BadType);
    }
    var buf := new byte[HEADER_BYTES + |f.payload|](_ => 0);
    PutHeader(buf, f);
    CopyAt(buf, HEADER_BYTES, f.payload);
    assert buf[..] == buf[..HEADER_BYTES] + buf[HEADER_BYTES..HEADER_BYTES + |f.payload|];
    return Ok(buf);
  }

  method PutHeader(buf: array<byte>, f: Frame)
    requires |f.payload| <= MAX_PAYLOAD_BYTES && buf.Length == HEADER_BYTES + |f.payload|
    modifies buf
    ensures buf[..HEADER_BYTES] == Header(f)
  {
    CopyAt(buf, 0, MAGIC);
    buf[4] := f.kind;
    buf[5] := f.track;
    buf[6] := f.flags;
    ghost var start := MAGIC + [f.kind, f.track, f.flags];
    assert buf[..7] == start;
    CopyAt(buf, 7, BigEndian(|f.payload|, 2));
    assert buf[..9] == buf[..7] + buf[7..9];
    CopyAt(buf, 9, BigEndian(f.seqNo, 4));
    assert buf[..13] == buf[..9] + buf[9..13];
    CopyAt(buf, 13, BigEndian(f.timestampMs, 8));
    assert buf[..21] == buf[..13] + buf[13..21];
  }

  method DecodeFrame(input: array<byte>) returns (r: Result<Frame, Kind>)
    ensures r == Decode(input[..])
  {
    if input.Length < HEADER_BYTES {
      return Err(BadLength);
    }
    for i := 0 to 4
      invariant input[..i] == MAGIC[..i]
    {
      if input[i] != MAGIC[i] {
        assert input[..][..4][i] != MAGIC[i];
        return Err(BadMagic);
      }
    }
    assert input[..][..4] == MAGIC;
    ValuesFit(input[..]);
    var kind, track, flags := input[4], input[5], input[6];
    var payloadLen := Value(input[..][7..9]);
    var seqNo := Value(input[..][9..13]);
    var ts := Value(input[..][13..21]);
    if payloadLen > MAX_PAYLOAD_BYTES {
      return Err(TooLarge);
    }
    if HEADER_BYTES + payloadLen != input.Length {
      return Err(BadLength);
    }
    if track > MAX_TRACK_SLOT {
      return Err(BadTrack);
    }
    if !IsKnownType(kind) {
      return Err(BadType);
    }
    var payload := input[HEADER_BYTES..HEADER_BYTES + payloadLen];
    assert input[..][HEADER_BYTES..] == payload;
    return Ok(Frame(kind, track, flags, seqNo, ts, payload));
  }

  // ---- fingerprints ----

  datatype Fingerprint = Fingerprint(hash: uint64, windowMs: uint16)

  method EncodeFingerprint(f: Fingerprint) returns (buf: array<byte>)
    ensures fresh(buf) && buf[..] == BigEndian(f.hash, 8) + BigEndian(f.windowMs, 2)
  {
    buf := new byte[10](_ => 0);
    CopyAt(buf, 0, BigEndian(f.hash, 8));
    assert buf[..8] == buf[0..8];
    CopyAt(buf, 8, BigEndian(f.windowMs, 2));
    assert buf[..] == buf[..8] + buf[8..10];
  }

  function DecodeFingerprint(b: Bytes): Option<Fingerprint> {
    if |b| != 10 then None
    else
      FingerprintFits(b);
      Some(Fingerprint(Value(b[0..8]), Value(b[8..10])))
  }

  lemma FingerprintFits(b: Bytes)
    requires |b| == 10
    ensures Value(b[0..8]) < 0x1_0000_0000_0000_0000 && Value(b[8..10]) < 0x1_0000
  {
    Widths();
    BigEndianOfValue(b[0..8]);
    BigEndianOfValue(b[8..10]);
  }

  /** Eight bytes of hash and two of window, both in network byte order. */
  lemma FingerprintFormat(f: Fingerprint)
    ensures
      var b := BigEndian(f.hash, 8) + BigEndian(f.windowMs, 2);
      |b| == 10 && Number8(b[..8]) == f.hash && Number2(b[8], b[9]) == f.windowMs
  {
    Widths();
    ValueOfBigEndian(f.hash, 8);
    ValueOfBigEndian(f.windowMs, 2);
    ValueEight(BigEndian(f.hash, 8));
    assert (BigEndian(f.hash, 8) + BigEndian(f.windowMs, 2))[..8] == BigEndian(f.hash, 8);
    var w := BigEndian(f.windowMs, 2);
    assert w == [w[0], w[1]];
    ValueTwo(w[0], w[1]);
  }

  /** Fingerprints and ten-byte payloads are in one-to-one correspondence. */
  lemma FingerprintRoundTrip(f: Fingerprint, b: Bytes)
    ensures DecodeFingerprint(b) == Some(f) <==> b == BigEndian(f.hash, 8) + BigEndian(f.windowMs, 2)
  {
    Widths();
    ValueOfBigEndian(f.hash, 8);
    ValueOfBigEndian(f.windowMs, 2);
    var e := BigEndian(f.hash, 8) + BigEndian(f.windowMs, 2);
    assert e[0..8] == BigEndian(f.hash, 8) && e[8..10] == BigEndian(f.windowMs, 2);
    if |b| == 10 {
      BigEndianOfValue(b[0..8]);
      BigEndianOfValue(b[8..10]);
      assert b == b[0..8] + b[8..10];
    }
  }
}
