/**
 The capture callback of one track: samples arrive in batches of any size, are cut into exact
 20 ms chunks, encoded and numbered. The encoder is a function of the chunks it has been handed
 so far; an empty packet means that it failed.
 */
module PublisherChunks {
  import opened Wrappers

  type Sample = real
  type Chunk = seq<Sample>
  type Encoder = seq<Chunk> -> Bytes

  /** 960 samples of 2 interleaved channels. */
  const NEED := 1920
  const U32 := 0x1_0000_0000

  datatype Emission = Emission(seqNo: nat, payload: Bytes)

  // ---- what the stream determines, however it was cut into batches ----

  function Chunks(input: seq<Sample>): seq<Chunk> {
    seq(|input| / NEED, i requires 0 <= i < |input| / NEED => input[i * NEED..(i + 1) * NEED])
  }

  function Remainder(input: seq<Sample>): seq<Sample> {
    input[|input| / NEED * NEED..]
  }

  function Flatten(chunks: seq<Chunk>): seq<Sample> {
    if chunks == [] then [] else Flatten(chunks[..|chunks| - 1]) + chunks[|chunks| - 1]
  }

  function Encode(encoder: Encoder, chunks: seq<Chunk>): Bytes
    requires chunks != []
  {
    if |chunks[|chunks| - 1]| != NEED then [] else encoder(chunks)
  }

  /** The numbered packets: a failed chunk takes no number. */
  function Emissions(encoder: Encoder, chunks: seq<Chunk>): seq<Emission> {
    if chunks == [] then [] else
      var before := Emissions(encoder, chunks[..|chunks| - 1]);
      var packet := Encode(encoder, chunks);
      if packet == [] then before else before + [Emission((|before| + 1) % U32, packet)]
  }

  /** Chunks and remainder are a partition of the stream into full frames and less than one frame. */
  lemma {:induction false} NothingLostOrReordered(input: seq<Sample>)
    ensures Flatten(Chunks(input)) + Remainder(input) == input
    ensures forall c :: c in Chunks(input) ==> |c| == NEED
    ensures |Remainder(input)| < NEED
  {
    FlattenPrefix(input, |input| / NEED);
    assert Chunks(input)[..|input| / NEED] == Chunks(input);
  }

  lemma {:induction false} FlattenPrefix(input: seq<Sample>, n: nat)
    requires n <= |input| / NEED
    ensures Flatten(Chunks(input)[..n]) == input[..n * NEED]
  {
    if n > 0 {
      FlattenPrefix(input, n - 1);
      assert Chunks(input)[..n][..n - 1] == Chunks(input)[..n - 1];
      assert input[..n * NEED] == input[..(n - 1) * NEED] + input[(n - 1) * NEED..n * NEED];
    }
  }

  /** Taking one full frame off the front. */
  lemma ChunksStep(input: seq<Sample>)
    requires |input| >= NEED
    ensures Chunks(input) == [input[..NEED]] + Chunks(input[NEED..])
    ensures Remainder(input) == Remainder(input[NEED..])
  {
    var rest := input[NEED..];
    assert |input| / NEED == |rest| / NEED + 1;
    forall i | 1 <= i < |input| / NEED ensures Chunks(input)[i] == Chunks(rest)[i - 1] {
      var lo, hi := (i - 1) * NEED, i * NEED;
      assert Chunks(rest)[i - 1] == rest[lo..hi];
      assert Chunks(input)[i] == input[lo + NEED..hi + NEED];
      assert rest[lo..hi] == input[lo + NEED..hi + NEED];
    }
  }

  /** A stream cut at any point: the second part is chunked after what the first left over. */
  lemma {:induction false} ChunksOfConcatenation(a: seq<Sample>, b: seq<Sample>)
    ensures Chunks(a + b) == Chunks(a) + Chunks(Remainder(a) + b)
    ensures Remainder(a + b) == Remainder(Remainder(a) + b)
    decreases |a|
  {
    if |a| >= NEED {
      ChunksStep(a);
      ChunksStep(a + b);
      assert (a + b)[NEED..] == a[NEED..] + b && (a + b)[..NEED] == a[..NEED];
      ChunksOfConcatenation(a[NEED..], b);
    } else {
      assert Remainder(a) == a && Chunks(a) == [];
    }
  }

  /** Below 2^32 packets, the i-th packet of a track carries number i+1. */
  lemma {:induction false} EmissionsNumbered(encoder: Encoder, chunks: seq<Chunk>)
    ensures |Emissions(encoder, chunks)| <= |chunks|
    ensures forall i :: 0 <= i < |Emissions(encoder, chunks)| ==> Emissions(encoder, chunks)[i].seqNo == (i + 1) % U32
    ensures |chunks| < U32 ==> forall i :: 0 <= i < |Emissions(encoder, chunks)| ==>
              Emissions(encoder, chunks)[i].seqNo == i + 1
    decreases |chunks|
  {
    if chunks != [] {
      EmissionsNumbered(encoder, chunks[..|chunks| - 1]);
    }
  }

  /** What the encoder gives for each chunk in turn, having seen the ones before. */
  function Encodings(encoder: Encoder, chunks: seq<Chunk>): seq<Bytes> {
    seq(|chunks|, k requires 0 <= k < |chunks| => encoder(chunks[..k + 1]))
  }

  function NonEmpty(packets: seq<Bytes>): seq<Bytes> {
    if packets == [] then [] else
      NonEmpty(packets[..|packets| - 1]) + if packets[|packets| - 1] == [] then [] else [packets[|packets| - 1]]
  }

  function Payloads(es: seq<Emission>): seq<Bytes> {
    seq(|es|, i requires 0 <= i < |es| => es[i].payload)
  }

  /** The payloads are, in order, what the encoder gave for each chunk, its failures left out. */
  lemma {:induction false} PayloadsAreEncodings(encoder: Encoder, chunks: seq<Chunk>)
    requires forall c :: c in chunks ==> |c| == NEED
    ensures Payloads(Emissions(encoder, chunks)) == NonEmpty(Encodings(encoder, chunks))
    decreases |chunks|
  {
    if chunks != [] {
      var before := chunks[..|chunks| - 1];
      assert chunks[|chunks| - 1] in chunks && forall c :: c in before ==> c in chunks;
      PayloadsAreEncodings(encoder, before);
      EncodingsStep(encoder, before, chunks);
    }
  }

  lemma EncodingsStep(encoder: Encoder, before: seq<Chunk>, chunks: seq<Chunk>)
    requires chunks != [] && before == chunks[..|chunks| - 1]
    ensures
      var all := Encodings(encoder, chunks);
      all[..|before|] == Encodings(encoder, before) && all[|before|] == encoder(chunks)
  {
    assert chunks[..|chunks|] == chunks;
    forall k | 0 <= k < |before| ensures Encodings(encoder, chunks)[k] == Encodings(encoder, before)[k] {
      assert before[..k + 1] == chunks[..k + 1];
    }
  }

  lemma EmissionsAppend(encoder: Encoder, chunks: seq<Chunk>, chunk: Chunk)
    ensures
      var packet := Encode(encoder, chunks + [chunk]);
      var before := Emissions(encoder, chunks);
      Emissions(encoder, chunks + [chunk]) ==
      if packet == [] then before else before + [Emission((|before| + 1) % U32, packet)]
  {
    assert (chunks + [chunk])[..|chunks|] == chunks;
  }

  lemma TakeOne(encoded: seq<Chunk>, buffer: seq<Sample>, fed: seq<Sample>)
    requires |buffer| >= NEED && encoded + Chunks(buffer) == Chunks(fed) && Remainder(buffer) == Remainder(fed)
    ensures encoded + [buffer[..NEED]] + Chunks(buffer[NEED..]) == Chunks(fed)
    ensures Remainder(buffer[NEED..]) == Remainder(fed)
  {
    ChunksStep(buffer);
    assert encoded + [buffer[..NEED]] + Chunks(buffer[NEED..]) == encoded + Chunks(buffer);
  }

  lemma CounterWraps(n: nat)
    ensures (n % U32 + 1) % U32 == (n + 1) % U32
  {
    var k := n / U32;
    assert n == k * U32 + n % U32;
    if n % U32 + 1 == U32 {
      assert n + 1 == (k + 1) * U32;
    }
  }

  lemma ShortInput(input: seq<Sample>)
    requires |input| < NEED
    ensures Chunks(input) == [] && Remainder(input) == input
  {
    assert |input| / NEED == 0;
  }

  class TrackPipeline {
    const encoder: Encoder
    var buffer: seq<Sample>
    var seqNo: nat
    /** The packets handed to the outbound queue. */
    var emitted: seq<Emission>
    /** The encoder's state: every chunk it has been handed. */
    var encoded: seq<Chunk>
    ghost var fed: seq<Sample>

    /** The whole state is a function of the concatenated input, so the batches leave no trace. */
    ghost predicate Valid()
      reads this
    {
      && buffer == Remainder(fed)
      && encoded == Chunks(fed)
      && emitted == Emissions(encoder, Chunks(fed))
      && seqNo == |emitted| % U32
    }

    constructor (encoder: Encoder)
      ensures Valid() && fed == [] && this.encoder == encoder
    {
      this.encoder := encoder;
      buffer, seqNo, emitted, fed, encoded := [], 0, [], [], [];
    }

    /** What is still to do: the frames not yet encoded are those left in the buffer. */
    ghost predicate Draining()
      reads this
    {
      && encoded + Chunks(buffer) == Chunks(fed) && Remainder(buffer) == Remainder(fed)
      && emitted == Emissions(encoder, encoded) && seqNo == |emitted| % U32
    }

    method OnCapture(samples: seq<Sample>)
      requires Valid()
      modifies this
      ensures Valid() && fed == old(fed) + samples
      ensures Payloads(emitted) == NonEmpty(Encodings(encoder, Chunks(fed)))
    {
      ChunksOfConcatenation(fed, samples);
      buffer := buffer + samples;
      fed := fed + samples;
      while |buffer| >= NEED
        invariant Draining() && fed == old(fed) + samples
        decreases |buffer|
      {
        EncodeOne();
      }
      ShortInput(buffer);
      assert encoded + [] == encoded;
      NothingLostOrReordered(fed);
      PayloadsAreEncodings(encoder, Chunks(fed));
    }

    method EncodeOne()
      requires Draining() && |buffer| >= NEED
      modifies this
      ensures Draining() && fed == old(fed)
      ensures buffer == old(buffer)[NEED..] && encoded == old(encoded) + [old(buffer)[..NEED]]
    {
      var chunk := buffer[..NEED];
      TakeOne(encoded, buffer, fed);
      EmissionsAppend(encoder, encoded, chunk);
      var packet := Encode(encoder, encoded + [chunk]);
      encoded := encoded + [chunk];
      buffer := buffer[NEED..];
      if packet != [] {
        CounterWraps(|emitted|);
        seqNo := (seqNo + 1) % U32;
        emitted := emitted + [Emission(seqNo, packet)];
      }
    }
  }

  /** Two tracks fed the same stream in different batches have encoded, numbered and kept the same. */
  lemma SplitDoesNotMatter(p: TrackPipeline, q: TrackPipeline)
    requires p.Valid() && q.Valid() && p.encoder == q.encoder && p.fed == q.fed
    ensures p.encoded == q.encoded && p.emitted == q.emitted && p.buffer == q.buffer && p.seqNo == q.seqNo
    ensures Flatten(p.encoded) + p.buffer == p.fed && |p.buffer| < NEED
  {
    NothingLostOrReordered(p.fed);
  }
}
