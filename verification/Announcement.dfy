/**
 The track list on its whole way: from an accepted command line through the publisher's printer
 and frame encoder and the relay's magic check to the viewer's decoder.
 */
module Announcement {
  import opened TrackListJson
  import opened Wrappers
  import CommandLine
  import FrameCodec
  import RelayHub
  import Sequences
  import Slugs

  /** The part of a configured track that is announced. */
  function Announced(t: CommandLine.TrackSpec): WireTrack {
    WireTrack(t.id, t.slug, t.category, t.text)
  }

  function AnnouncedAll(ts: seq<CommandLine.TrackSpec>): (ws: seq<WireTrack>)
    ensures |ws| == |ts| && forall k :: 0 <= k < |ts| ==> ws[k] == Announced(ts[k])
  {
    seq(|ts|, k requires 0 <= k < |ts| => Announced(ts[k]))
  }

  lemma SlugIsPlain(s: string)
    requires Slugs.ValidSlug(s)
    ensures AllPlain(s) && |s| <= 64
  {
    var ws :| ws != [] && Slugs.AllWords(ws) && s == Slugs.Join(ws);
    Slugs.JoinChars(ws);
  }

  lemma CategoryIsPlain(c: string)
    requires CommandLine.IsCategory(c)
    ensures AllPlain(c) && |c| <= 13
  {
    if c != CommandLine.CUSTOM {
      CommandLine.PresetIsWord(c);
      CharsPlain(c);
    } else {
      CharsPlain(c);
    }
  }

  lemma CharsPlain(s: string)
    requires forall i :: 0 <= i < |s| ==> 'A' <= s[i] <= 'Z' || 'a' <= s[i] <= 'z'
    ensures AllPlain(s)
  {
  }

  lemma SpecPrints(t: CommandLine.TrackSpec)
    requires CommandLine.SpecOk(t) && 1 <= t.id <= 8
    requires t.category == CommandLine.CUSTOM ==> AllPlain(t.text)
    ensures Printable(Announced(t))
    ensures TrackOk(Announced(t)) <==> |t.text| <= MAX_LABEL
    ensures |t.slug| <= 64 && |t.category| <= 13 && |Decimal(t.id)| == 1
  {
    SlugIsPlain(t.slug);
    CategoryIsPlain(t.category);
    if t.category != CommandLine.CUSTOM {
      CommandLine.PresetIsWord(t.category);
      CommandLine.PresetsAreSlugs(t.category);
      CharsPlain(t.text);
    }
  }

  /** What is enqueued for a frame: its bytes, or nothing at all if it cannot be encoded. */
  function EncodeFrameOrLog(f: FrameCodec.Frame): Bytes {
    match FrameCodec.Encode(f)
    case Ok(b) => b
    case Err(_) => []
  }

  function TrackListFrame(ts: seq<WireTrack>, timestampMs: FrameCodec.uint64): FrameCodec.Frame {
    FrameCodec.Frame(2, 0, 0, 1, timestampMs, AsBytes(Print(ts)))
  }

  /** What the relay forwards of a connection that starts with HELLO and TRACK_LIST. */
  function Relayed(hello: FrameCodec.Frame, packet: Bytes, rest: seq<RelayHub.Incoming>): seq<Bytes> {
    RelayHub.Relayable([RelayHub.Binary(EncodeFrameOrLog(hello))] + ([RelayHub.Binary(packet)] + rest))
  }

  // ---- the size of the list ----

  /** What the tracks add to the list, beside its 12 bytes of frame. */
  function AnnouncedLength(ts: seq<CommandLine.TrackSpec>): nat {
    if ts == [] then 0
    else 44 + |ts[0].slug| + |ts[0].category| + |ts[0].text| + AnnouncedLength(ts[1..])
  }

  ghost predicate SpecsOk(specs: seq<CommandLine.TrackSpec>) {
    forall k :: 0 <= k < |specs| ==>
      && CommandLine.SpecOk(specs[k]) && 1 <= specs[k].id <= 8
      && (specs[k].category == CommandLine.CUSTOM ==> AllPlain(specs[k].text))
  }

  lemma {:induction false} ItemsLength(specs: seq<CommandLine.TrackSpec>)
    requires specs != [] && SpecsOk(specs)
    ensures |Items(AnnouncedAll(specs), CLOSE)| == 1 + AnnouncedLength(specs)
  {
    var ts := AnnouncedAll(specs);
    SpecPrints(specs[0]);
    if |specs| == 1 {
      ItemIsLonger(ts[0], CLOSE);
      assert AnnouncedLength(specs[1..]) == 0;
    } else {
      ItemIsLonger(ts[0], "," + Items(ts[1..], CLOSE));
      assert ts[1..] == AnnouncedAll(specs[1..]);
      ItemsLength(specs[1..]);
    }
  }

  /** The exact size of the payload. */
  lemma PrintedLength(specs: seq<CommandLine.TrackSpec>)
    requires specs != [] && SpecsOk(specs)
    ensures |Print(AnnouncedAll(specs))| == 12 + AnnouncedLength(specs)
  {
    ItemsLength(specs);
    assert |OPEN| == 11;
  }

  lemma {:induction false} ShortLabelsFit(specs: seq<CommandLine.TrackSpec>)
    requires SpecsOk(specs) && ShortLabels(specs)
    ensures AnnouncedLength(specs) <= 185 * |specs|
  {
    if specs != [] {
      SpecPrints(specs[0]);
      ShortLabelsFit(specs[1..]);
    }
  }

  // ---- the way of the announcement ----

  ghost predicate LabelsPlain(specs: seq<CommandLine.TrackSpec>) {
    forall k :: 0 <= k < |specs| ==> specs[k].category == CommandLine.CUSTOM ==> PlainText(specs[k].text)
  }

  /** Printable ASCII without quotes and backslashes. */
  predicate PlainText(s: string) {
    forall c :: c in s ==> 32 <= c as int < 127 && c != '"' && c != '\\'
  }

  predicate ShortLabels(specs: seq<CommandLine.TrackSpec>) {
    forall k :: 0 <= k < |specs| ==> |specs[k].text| <= MAX_LABEL
  }

  /** An empty packet lacks the magic, and the relay closes the connection on it. */
  lemma EmptyPacketEndsConnection(hello: FrameCodec.Frame, rest: seq<RelayHub.Incoming>)
    requires FrameCodec.Encode(hello).Ok?
    ensures Relayed(hello, [], rest) == [EncodeFrameOrLog(hello)]
  {
    RelayHub.FramesAreForwarded(hello, [RelayHub.Binary([])] + rest);
  }

  lemma BothForwarded(hello: FrameCodec.Frame, list: FrameCodec.Frame, rest: seq<RelayHub.Incoming>)
    requires FrameCodec.Encode(hello).Ok? && FrameCodec.Encode(list).Ok?
    ensures Relayed(hello, EncodeFrameOrLog(list), rest) ==
              [EncodeFrameOrLog(hello)] + ([EncodeFrameOrLog(list)] + RelayHub.Relayable(rest))
  {
    RelayHub.FramesAreForwarded(hello, [RelayHub.Binary(EncodeFrameOrLog(list))] + rest);
    RelayHub.FramesAreForwarded(list, rest);
  }

  /**
   A track list that does not fit a frame is enqueued as an empty packet, on which the relay drops
   every connection right after HELLO; one that fits is forwarded and comes out of the frame
   decoder as it was printed.
   */
  lemma ForwardedIffFits(ts: seq<WireTrack>, time: FrameCodec.uint64, hello: FrameCodec.Frame,
        rest: seq<RelayHub.Incoming>)
    requires FrameCodec.Encode(hello).Ok?
    ensures
      var list := TrackListFrame(ts, time);
      var packet := EncodeFrameOrLog(list);
      if |Print(ts)| <= FrameCodec.MAX_PAYLOAD_BYTES
      then FrameCodec.Decode(packet) == Ok(FrameCodec.Frame(0x02, 0, 0, 1, time, AsBytes(Print(ts))))
           && Relayed(hello, packet, rest) == [EncodeFrameOrLog(hello)] + ([packet] + RelayHub.Relayable(rest))
      else Relayed(hello, packet, rest) == [EncodeFrameOrLog(hello)]
  {
    var list := TrackListFrame(ts, time);
    if |Print(ts)| <= FrameCodec.MAX_PAYLOAD_BYTES {
      FrameCodec.DecodeEncode(list);
      BothForwarded(hello, list, rest);
    } else {
      EmptyPacketEndsConnection(hello, rest);
    }
  }

  /** What becomes of an announcement. */
  datatype Fate = CutOff | Rejected | Shown(tracks: seq<WireTrack>)

  function FateOf(specs: seq<CommandLine.TrackSpec>): Fate {
    if 12 + AnnouncedLength(specs) > FrameCodec.MAX_PAYLOAD_BYTES then CutOff
    else if !ShortLabels(specs) then Rejected
    else Shown(AnnouncedAll(specs))
  }

  /** The relay's output and the viewer's decoder bear that out. */
  ghost predicate Meets(fate: Fate, ts: seq<WireTrack>, time: FrameCodec.uint64, hello: FrameCodec.Frame,
        rest: seq<RelayHub.Incoming>)
  {
    var packet := EncodeFrameOrLog(TrackListFrame(ts, time));
    var relayed := Relayed(hello, packet, rest);
    if fate == CutOff then relayed == [EncodeFrameOrLog(hello)]
    else
      && relayed == [EncodeFrameOrLog(hello)] + ([packet] + RelayHub.Relayable(rest))
      && Received(packet) == if fate == Rejected then Err(FrameCodec.BadPayload) else Ok(fate.tracks)
  }

  /** What the viewer makes of a packet: the frame decoder, then the list decoder on its payload. */
  ghost function Received(packet: Bytes): Result<seq<WireTrack>, FrameCodec.Kind> {
    match FrameCodec.Decode(packet)
    case Ok(f) => Decode(AsText(f.payload))
    case Err(k) => Err(k)
  }

  /**
   Every command line that is accepted, with printable custom labels free of quotes and
   backslashes: the viewer gets the same tracks in the same order exactly when no label is longer
   than 64 bytes; with a longer one its decoder rejects the list, and if the list outgrows a frame
   the relay drops the publisher after HELLO.
   */
  lemma AnnouncementArrives(args: seq<string>, time: FrameCodec.uint64, hello: FrameCodec.Frame,
        rest: seq<RelayHub.Incoming>)
    requires CommandLine.ParseFrom(args, CommandLine.START).Ok? && FrameCodec.Encode(hello).Ok?
    requires LabelsPlain(CommandLine.ParseFrom(args, CommandLine.START).value.tracks)
    ensures
      var specs := CommandLine.ParseFrom(args, CommandLine.START).value.tracks;
      && Meets(FateOf(specs), AnnouncedAll(specs), time, hello, rest)
      && (FateOf(specs).Shown? <==> ShortLabels(specs))
  {
    var specs := CommandLine.ParseFrom(args, CommandLine.START).value.tracks;
    CommandLine.AcceptedConfig(args);
    ListDecodes(specs);
    SpecsPrint(specs);
    PrintAsBytes(AnnouncedAll(specs));
    PrintedLength(specs);
    ForwardedIffFits(AnnouncedAll(specs), time, hello, rest);
    if ShortLabels(specs) {
      ShortLabelsFit(specs);
    }
  }

  /** A printed list that fits a frame and passes the validation comes out of the viewer's decoder. */
  lemma PacketArrives(ts: seq<WireTrack>, time: FrameCodec.uint64)
    requires AllPrintable(ts) && ListOk(ts) && |Print(ts)| <= FrameCodec.MAX_PAYLOAD_BYTES
    ensures Received(EncodeFrameOrLog(TrackListFrame(ts, time))) == Ok(ts)
  {
    FrameCodec.DecodeEncode(TrackListFrame(ts, time));
    PrintAsBytes(ts);
    PrintedDecodes(ts);
  }

  /** Labels of ASCII characters. */
  ghost predicate AsciiLabels(specs: seq<CommandLine.TrackSpec>) {
    forall k :: 0 <= k < |specs| ==> forall c :: c in specs[k].text ==> c < 127 as char
  }

  /**
   Every command line that is accepted with ASCII labels: the viewer gets exactly the configured
   tracks if and only if the custom labels are printable, without quotes and backslashes, and at
   most 64 bytes long.
   */
  lemma ArrivesUnchangedIff(args: seq<string>, time: FrameCodec.uint64)
    requires CommandLine.ParseFrom(args, CommandLine.START).Ok?
    requires AsciiLabels(CommandLine.ParseFrom(args, CommandLine.START).value.tracks)
    ensures
      var specs := CommandLine.ParseFrom(args, CommandLine.START).value.tracks;
      Received(EncodeFrameOrLog(TrackListFrame(AnnouncedAll(specs), time))) == Ok(AnnouncedAll(specs))
      <==> LabelsPlain(specs) && ShortLabels(specs)
  {
    var specs := CommandLine.ParseFrom(args, CommandLine.START).value.tracks;
    var ts := AnnouncedAll(specs);
    var packet := EncodeFrameOrLog(TrackListFrame(ts, time));
    CommandLine.AcceptedConfig(args);
    if Received(packet) == Ok(ts) {
      ParsedIsPlain(AsText(FrameCodec.Decode(packet).value.payload));
      forall k | 0 <= k < |specs| ensures AllPlain(specs[k].text) && |specs[k].text| <= MAX_LABEL {
        assert ts[k] in ts && TrackOk(ts[k]);
      }
    }
    if LabelsPlain(specs) && ShortLabels(specs) {
      SpecsPrint(specs);
      PrintedLength(specs);
      ShortLabelsFit(specs);
      PacketArrives(ts, time);
    }
  }

  /** As far as the list decoder is concerned. */
  lemma ListDecodes(specs: seq<CommandLine.TrackSpec>)
    requires 1 <= |specs| <= 8 && SpecsOk(specs) && forall k :: 0 <= k < |specs| ==> specs[k].id == k + 1
    ensures
      var ts := AnnouncedAll(specs);
      |Print(ts)| <= MAX_JSON_BYTES ==>
        Decode(Print(ts)) == if ShortLabels(specs) then Ok(ts) else Err(FrameCodec.BadPayload)
  {
    SpecsPrint(specs);
    PrintedDecodes(AnnouncedAll(specs));
  }

  lemma SpecsPrint(specs: seq<CommandLine.TrackSpec>)
    requires SpecsOk(specs)
    ensures AllPrintable(AnnouncedAll(specs))
    ensures forall k :: 0 <= k < |specs| ==> (TrackOk(AnnouncedAll(specs)[k]) <==> |specs[k].text| <= MAX_LABEL)
  {
    forall k | 0 <= k < |specs|
      ensures Printable(AnnouncedAll(specs)[k]) && (TrackOk(AnnouncedAll(specs)[k]) <==> |specs[k].text| <= MAX_LABEL)
    {
      SpecPrints(specs[k]);
    }
  }

  // ---- each of the three does happen ----

  function Spaces(n: nat): string {
    if n == 0 then "" else Spaces(n - 1) + " "
  }

  /** A single custom track with the given label. */
  ghost function LabelArgs(text: string): seq<string> {
    ["--relay", "r"] + (["--channel", "c"] + (["--token", "t"] + ["--track", CommandLine.CustomArg(text, "p")]))
  }

  /** A label of one letter and n spaces. */
  ghost function SpacedArgs(n: nat): seq<string> {
    LabelArgs("a" + Spaces(n))
  }

  lemma {:induction false} SpacedSlug(n: nat)
    ensures Slugs.Slug("a" + Spaces(n)) == "a" && |Spaces(n)| == n && AllPlain(Spaces(n)) && '|' !in Spaces(n)
  {
    SpacedWords(n);
    var s := "a" + Spaces(n);
    forall i | 0 <= i < |s| ensures Slugs.LowerChar(s[i]) == s[i] {
      if i > 0 {
        assert s[i] in Spaces(n);
      }
    }
    assert Slugs.Lower(s) == s;
  }

  lemma {:induction false} SpacedWords(n: nat)
    ensures Slugs.Words("a" + Spaces(n)) == ["a"] && |Spaces(n)| == n && forall c :: c in Spaces(n) ==> c == ' '
  {
    if n == 0 {
      Slugs.WordsAppendWord("", "a");
      assert "" + "a" == "a" && "a" + Spaces(0) == "a";
    } else {
      SpacedWords(n - 1);
      Slugs.WordsStep("a" + Spaces(n - 1), ' ');
      assert "a" + Spaces(n) == ("a" + Spaces(n - 1)) + [' '];
    }
  }

  lemma ParseRelay(cfg: CommandLine.Config, v: string, rest: seq<string>)
    ensures CommandLine.ParseFrom(["--relay", v] + rest, cfg) == CommandLine.ParseFrom(rest, cfg.(relayUrl := v))
  {
    assert (["--relay", v] + rest)[2..] == rest;
  }

  lemma ParseChannel(cfg: CommandLine.Config, v: string, rest: seq<string>)
    ensures CommandLine.ParseFrom(["--channel", v] + rest, cfg) == CommandLine.ParseFrom(rest, cfg.(channel := v))
  {
    assert (["--channel", v] + rest)[2..] == rest;
  }

  lemma ParseToken(cfg: CommandLine.Config, v: string, rest: seq<string>)
    ensures CommandLine.ParseFrom(["--token", v] + rest, cfg) == CommandLine.ParseFrom(rest, cfg.(token := v))
  {
    assert (["--token", v] + rest)[2..] == rest;
  }

  lemma ParseOnlyTrack(cfg: CommandLine.Config, v: string)
    requires cfg.tracks == [] && CommandLine.TrackOf(v).Some?
    ensures CommandLine.ParseFrom(["--track", v], cfg)
         == CommandLine.Finish(cfg.(tracks := [CommandLine.TrackOf(v).value.(id := 1)]))
  {
    var next := cfg.(tracks := [CommandLine.TrackOf(v).value.(id := 1)]);
    ApplyFirstTrack(cfg, v);
    assert ["--track", v][2..] == [];
    assert CommandLine.ParseFrom([], next) == CommandLine.Finish(next);
  }

  lemma ApplyFirstTrack(cfg: CommandLine.Config, v: string)
    requires cfg.tracks == [] && CommandLine.TrackOf(v).Some?
    ensures CommandLine.Apply(cfg, "--track", v) == Ok(cfg.(tracks := [CommandLine.TrackOf(v).value.(id := 1)]))
  {
    var t := CommandLine.TrackOf(v).value.(id := 1);
    assert cfg.tracks + [t] == [t];
  }

  lemma LabelAccepted(text: string)
    requires text != [] && '|' !in text && 1 <= |Slugs.Slug(text)| <= Slugs.MAX_SLUG
    ensures
      var r := CommandLine.ParseFrom(LabelArgs(text), CommandLine.START);
      r.Ok? && r.value.tracks == [CommandLine.TrackSpec(1, Slugs.Slug(text), CommandLine.CUSTOM, text, "p")]
  {
    var arg := CommandLine.CustomArg(text, "p");
    var track := ["--track", arg];
    ParseRelay(CommandLine.START, "r", ["--channel", "c"] + (["--token", "t"] + track));
    ParseChannel(CommandLine.START.(relayUrl := "r"), "c", ["--token", "t"] + track);
    ParseToken(CommandLine.Config("r", "c", "", [], 48), "t", track);
    CommandLine.CustomTrackIff(text, "p");
    ParseOnlyTrack(CommandLine.Config("r", "c", "t", [], 48), arg);
  }

  /**
   The command line is accepted for every n. With 64 to 4032 spaces the viewer rejects the track
   list, and with more the relay drops the publisher after HELLO, on every connection.
   */
  lemma LongLabelsFail(n: nat, time: FrameCodec.uint64, hello: FrameCodec.Frame, rest: seq<RelayHub.Incoming>)
    requires FrameCodec.Encode(hello).Ok?
    ensures
      var r := CommandLine.ParseFrom(SpacedArgs(n), CommandLine.START);
      && r.Ok?
      && var ts := AnnouncedAll(r.value.tracks);
         && (n >= 4033 ==> Meets(CutOff, ts, time, hello, rest))
         && (64 <= n <= 4032 ==> Meets(Rejected, ts, time, hello, rest))
         && (n <= 63 ==> Meets(Shown(ts), ts, time, hello, rest))
  {
    SpacedSlug(n);
    LabelAccepted("a" + Spaces(n));
    var specs := CommandLine.ParseFrom(SpacedArgs(n), CommandLine.START).value.tracks;
    assert specs[1..] == [];
    assert AnnouncedLength(specs) == 52 + n;
    AnnouncementArrives(SpacedArgs(n), time, hello, rest);
  }

  // ---- a label that the printer does not escape ----

  /** The end of one item and the beginning of another, up to its label. */
  const BETWEEN := ITEM_END + "," + ID_KEY + "2" + SLUG_KEY + "b" + CATEGORY_KEY + "mic" + LABEL_KEY

  lemma BetweenIs()
    ensures |BETWEEN| == 48 && 'i' in BETWEEN && '|' !in BETWEEN
  {
    assert BETWEEN[5] == 'i';
  }

  /** As a label, a + BETWEEN + b is printed like the labels a and b of two tracks. */
  lemma PrintsAsTwo(slug: string, a: string, b: string)
    ensures Print([WireTrack(1, slug, CommandLine.CUSTOM, a + BETWEEN + b)])
         == Print([WireTrack(1, slug, CommandLine.CUSTOM, a), WireTrack(2, "b", "mic", b)])
  {
    var first, second := WireTrack(1, slug, CommandLine.CUSTOM, a), WireTrack(2, "b", "mic", b);
    ItemAppended(ITEM_END + ",", second, CLOSE);
    assert Decimal(2) == "2";
    Sequences.Regroup(ITEM_END, ",", Item(second, CLOSE));
    assert a + (ITEM_END + ("," + Item(second, CLOSE))) == (a + BETWEEN + b) + (ITEM_END + CLOSE);
    assert Item(first.(text := a + BETWEEN + b), CLOSE) == Item(first, "," + Item(second, CLOSE));
    assert [first, second][1..] == [second] && Items([second], CLOSE) == Item(second, CLOSE);
    assert Items([first, second], CLOSE) == Item(first, "," + Items([second], CLOSE));
  }

  /**
   So this label, as long as its slug is short enough for the command line to be accepted, reaches
   the viewer as two tracks.
   */
  lemma LabelSplitsIntoTwo(a: string, b: string, time: FrameCodec.uint64)
    requires AllPlain(a) && AllPlain(b) && '|' !in a && '|' !in b && |a| <= MAX_LABEL && |b| <= MAX_LABEL
    ensures |a| + |b| <= 16 ==> |Slugs.Slug(a + BETWEEN + b)| <= Slugs.MAX_SLUG
    ensures |Slugs.Slug(a + BETWEEN + b)| <= Slugs.MAX_SLUG ==>
              var r := CommandLine.ParseFrom(LabelArgs(a + BETWEEN + b), CommandLine.START);
              && r.Ok? && |r.value.tracks| == 1
              && Received(EncodeFrameOrLog(TrackListFrame(AnnouncedAll(r.value.tracks), time)))
                 == Ok([WireTrack(1, r.value.tracks[0].slug, CommandLine.CUSTOM, a), WireTrack(2, "b", "mic", b)])
  {
    var text := a + BETWEEN + b;
    BetweenIs();
    assert 'i' in text;
    Slugs.SlugIsEmptyOrMatches(text);
    Slugs.JoinedWordsFit(Slugs.Lower(text));
    if |Slugs.Slug(text)| <= Slugs.MAX_SLUG {
      LabelAccepted(text);
      TwoArrive(Slugs.Slug(text), a, b, time);
    }
  }

  lemma TwoArrive(slug: string, a: string, b: string, time: FrameCodec.uint64)
    requires Slugs.ValidSlug(slug) && AllPlain(a) && AllPlain(b) && |a| <= MAX_LABEL && |b| <= MAX_LABEL
    ensures
      var specs := [CommandLine.TrackSpec(1, slug, CommandLine.CUSTOM, a + BETWEEN + b, "p")];
      Received(EncodeFrameOrLog(TrackListFrame(AnnouncedAll(specs), time)))
      == Ok([WireTrack(1, slug, CommandLine.CUSTOM, a), WireTrack(2, "b", "mic", b)])
  {
    var specs := [CommandLine.TrackSpec(1, slug, CommandLine.CUSTOM, a + BETWEEN + b, "p")];
    var one := CommandLine.TrackSpec(1, slug, CommandLine.CUSTOM, a, "p");
    var two := CommandLine.TrackSpec(2, "b", "mic", b, "p");
    SlugIsPlain(slug);
    CategoryIsPlain(CommandLine.CUSTOM);
    CategoryIsPlain("mic");
    CommandLine.WordIsSlug("b");
    var ts := [Announced(one), Announced(two)];
    PrintsAsTwo(slug, a, b);
    assert AnnouncedAll(specs) == [WireTrack(1, slug, CommandLine.CUSTOM, a + BETWEEN + b)];
    ItemIsLonger(ts[0], "," + Items(ts[1..], CLOSE));
    ItemIsLonger(ts[1], CLOSE);
    PacketArrives(ts, time);
  }
}
