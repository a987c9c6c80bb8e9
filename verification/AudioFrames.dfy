/** An audio packet on its way from a capture pipeline through the frame codec and the relay to a viewer's decoder. */
module AudioFrames {
  import opened PublisherChunks
  import opened Wrappers
  import EndToEnd
  import FrameCodec
  import PlaybackScheduler
  import RelayHub

  /** The frame of a pipeline's i-th packet. */
  function AudioFrame(track: byte, timestampMs: FrameCodec.uint64, e: Emission): FrameCodec.Frame {
    FrameCodec.Frame(0x03, track, 0, e.seqNo % U32, timestampMs, e.payload)
  }

  lemma PacketIs(p: TrackPipeline, i: nat)
    requires p.Valid() && i < |p.emitted|
    ensures
      var given := NonEmpty(Encodings(p.encoder, Chunks(p.fed)));
      && |given| == |p.emitted| && p.emitted[i].payload == given[i]
      && p.emitted[i].seqNo == (i + 1) % 0x1_0000_0000
  {
    NothingLostOrReordered(p.fed);
    PayloadsAreEncodings(p.encoder, Chunks(p.fed));
    EmissionsNumbered(p.encoder, Chunks(p.fed));
    assert Payloads(p.emitted)[i] == p.emitted[i].payload;
  }

  lemma AudioTravels(f: FrameCodec.Frame, rest: seq<RelayHub.Incoming>)
    requires f.kind == 0x03 && f.track <= 8
    ensures FrameCodec.Encode(f).Ok? <==> |f.payload| <= 4096
    ensures FrameCodec.Encode(f).Ok? ==>
              var b := FrameCodec.Encode(f).value;
              FrameCodec.Decode(b) == Ok(f)
              && RelayHub.Relayable([RelayHub.Binary(b)] + rest) == [b] + RelayHub.Relayable(rest)
  {
    FrameCodec.EncodesIff(f);
    FrameCodec.DecodeEncode(f);
    if FrameCodec.Encode(f).Ok? {
      RelayHub.FramesAreForwarded(f, rest);
    }
  }

  /**
   Every packet that a pipeline has emitted on a track from 1 to 8 is the next thing its encoder gave,
   is numbered by its place, and is encoded exactly if it has at most 4096 bytes; then the relay
   forwards it and it decodes to the same number and payload.
   */
  lemma PacketTravels(p: TrackPipeline, i: nat, track: byte, timestampMs: FrameCodec.uint64,
        rest: seq<RelayHub.Incoming>)
    requires p.Valid() && i < |p.emitted| && 1 <= track <= 8
    ensures
      var given := NonEmpty(Encodings(p.encoder, Chunks(p.fed)));
      var f := AudioFrame(track, timestampMs, p.emitted[i]);
      && |given| == |p.emitted| && f.payload == given[i]
      && f.seqNo == (i + 1) % 0x1_0000_0000 == EndToEnd.SeqOnWire(EndToEnd.Audio(track, i + 1))
      && (FrameCodec.Encode(f).Ok? <==> |f.payload| <= 4096)
      && (FrameCodec.Encode(f).Ok? ==>
            var b := FrameCodec.Encode(f).value;
            FrameCodec.Decode(b) == Ok(f)
            && RelayHub.Relayable([RelayHub.Binary(b)] + rest) == [b] + RelayHub.Relayable(rest))
  {
    PacketIs(p, i);
    AudioTravels(AudioFrame(track, timestampMs, p.emitted[i]), rest);
  }

  /** A chunk is played for as long as its samples last: two channels at 48 kHz. */
  lemma ChunkLastsOneFrame()
    ensures NEED as real / 2.0 / 48000.0 == PlaybackScheduler.FRAME
  {
  }
}
