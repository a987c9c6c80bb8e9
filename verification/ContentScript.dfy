/**
 The content script as an object: the closures over its maps, each proved to do what the mixer's
 step function says.
 */
module ContentScript {
  import opened Wrappers
  import G = MixerGraph
  import M = MixerState

  // ---- one more track: the specification's loops, read forwards ----

  ghost function MutedBySolo(ts: seq<M.TrackInfo>, slug: string): map<string, bool> {
    map s | s in M.Slugs(ts) :: s != slug
  }

  lemma SoloStep(m: M.Mixer, ts: seq<M.TrackInfo>, i: nat, slug: string)
    requires i < |ts|
    ensures M.SoloLevels(m, ts[..i + 1], slug) ==
              M.SoloLevels(m, ts[..i], slug)
              .SetLevel(ts[i].slug, if ts[i].slug != slug then G.Fin(0.0) else m.GainOr(ts[i].slug))
    ensures MutedBySolo(ts[..i + 1], slug) == MutedBySolo(ts[..i], slug)[ts[i].slug := ts[i].slug != slug]
  {
    assert ts[..i + 1][..i] == ts[..i];
    M.SlugsAppend(ts[..i + 1]);
  }

  lemma ResetStep(m: M.Mixer, ts: seq<M.TrackInfo>, i: nat, global: M.Prefs)
    requires i < |ts|
    ensures M.ResetAll(m, ts[..i + 1], global) == M.ResetOne(M.ResetAll(m, ts[..i], global), ts[i], global)
  {
    assert ts[..i + 1][..i] == ts[..i];
  }

  lemma AddStep(m: M.Mixer, ts: seq<M.TrackInfo>, i: nat, streamer: M.Prefs, global: M.Prefs, available: bool)
    requires i < |ts|
    ensures M.AddAll(m, ts[..i + 1], streamer, global, available)
         == M.AddOne(M.AddAll(m, ts[..i], streamer, global, available), ts[i], streamer, global, available)
  {
    assert ts[..i + 1][..i] == ts[..i];
  }

  // ---- the gains and mutes of the panel play no part in wiring a track ----

  ghost function WithPanel(m: M.Mixer, gains: map<string, G.Num>, muted: map<string, bool>): M.Mixer {
    m.(gains := gains, muted := muted)
  }

  lemma NodeIgnoresPanel(m: M.Mixer, slug: string, gains: map<string, G.Num>, muted: map<string, bool>)
    ensures M.AddNode(WithPanel(m, gains, muted), slug) == WithPanel(M.AddNode(m, slug), gains, muted)
  {
  }

  lemma LevelIgnoresPanel(m: M.Mixer, slug: string, v: G.Num, gains: map<string, G.Num>, muted: map<string, bool>)
    ensures WithPanel(m, gains, muted).SetLevel(slug, v) == WithPanel(m.SetLevel(slug, v), gains, muted)
  {
  }

  lemma LaneIgnoresPanel(m: M.Mixer, slug: string, available: bool, gains: map<string, G.Num>, muted: map<string, bool>)
    ensures M.EnsureLane(WithPanel(m, gains, muted), slug, available) ==
              WithPanel(M.EnsureLane(m, slug, available), gains, muted)
  {
  }

  class Script {
    const graph: G.AudioGraph
    const globalPrefs: M.Prefs
    const streamerPrefs: M.Prefs
    /** Whether a decoder can be created at all. */
    const available: bool
    var tracks: seq<M.TrackInfo>
    var settings: M.Prefs
    var gains: map<string, G.Num>
    var muted: map<string, bool>
    var lanes: map<string, M.Lane>
    var nextLane: nat
    var closedLanes: set<nat>
    var idToSlug: map<nat, string>
    /** What the browser's store holds for this streamer. */
    var stored: M.Prefs

    ghost predicate Valid()
      reads this, graph
    {
      graph.Valid()
    }

    ghost function Mixer(): M.Mixer
      reads this, graph
    {
      M.Mixer(tracks, settings, gains, muted, graph.Levels(), graph.tracks, graph.nextId, lanes, nextLane, closedLanes)
    }

    ghost function Page(): M.Page
      reads this, graph
    {
      M.Page(Mixer(), idToSlug, streamerPrefs, stored)
    }

    ghost function After(p: M.Page, e: M.Event): M.Page {
      M.Step(p, e, globalPrefs, available)
    }

    constructor (globalPrefs: M.Prefs, stored: M.Prefs, available: bool)
      ensures Valid() && fresh(graph) && Page() == M.Page(M.EMPTY, map[], stored, stored)
      ensures this.globalPrefs == globalPrefs && this.available == available
    {
      this.globalPrefs, this.streamerPrefs, this.stored, this.available := globalPrefs, stored, stored, available;
      graph := new G.AudioGraph();
      tracks, settings, gains, muted := [], map[], map[], map[];
      lanes, nextLane, closedLanes, idToSlug := map[], 0, {}, map[];
    }

    method SetTrackGain(slug: string, v: G.Num)
      requires Valid()
      modifies graph
      ensures Valid() && Mixer() == old(Mixer()).SetLevel(slug, v)
    {
      graph.SetTrackGain(slug, v);
    }

    method OnChange(slug: string, v: G.Num)
      requires Valid()
      modifies this, graph
      ensures Valid() && Page() == After(old(Page()), M.Slider(slug, v))
    {
      gains := gains[slug := v];
      if slug in settings {
        settings := settings[slug := settings[slug].(gain := v)];
      }
      SetTrackGain(slug, if slug in muted && muted[slug] then G.Fin(0.0) else v);
    }

    method OnMuteToggle(slug: string)
      requires Valid()
      modifies this, graph
      ensures Valid() && Page() == After(old(Page()), M.MuteToggle(slug))
    {
      var next := !(slug in muted && muted[slug]);
      muted := muted[slug := next];
      if slug in settings {
        settings := settings[slug := settings[slug].(muted := next)];
      }
      SetTrackGain(slug, if next then G.Fin(0.0) else GainOrDefault(slug));
    }

    function GainOrDefault(slug: string): G.Num
      reads this
    {
      if slug in gains && gains[slug] != G.Undefined then gains[slug] else G.Fin(0.5)
    }

    method SoloTracks(slug: string) returns (nextMuted: map<string, bool>)
      requires Valid()
      modifies graph
      ensures Valid() && nextMuted == MutedBySolo(tracks, slug) && Mixer() == M.SoloLevels(old(Mixer()), tracks, slug)
    {
      ghost var was := Mixer();
      nextMuted := map[];
      for i := 0 to |tracks|
        invariant Valid() && nextMuted == MutedBySolo(tracks[..i], slug)
        invariant Mixer() == M.SoloLevels(was, tracks[..i], slug)
      {
        SoloStep(was, tracks, i, slug);
        var t := tracks[i];
        nextMuted := nextMuted[t.slug := t.slug != slug];
        SetTrackGain(t.slug, if nextMuted[t.slug] then G.Fin(0.0) else GainOrDefault(t.slug));
      }
      assert tracks[..|tracks|] == tracks;
    }

    method OnSoloToggle(slug: string)
      requires Valid()
      modifies this, graph
      ensures Valid() && Page() == After(old(Page()), M.SoloToggle(slug))
    {
      var nextMuted := SoloTracks(slug);
      muted := nextMuted;
    }

    method ResetTrack(t: M.TrackInfo, gains0: map<string, G.Num>, muted0: map<string, bool>)
      returns (nextGains: map<string, G.Num>, nextMuted: map<string, bool>)
      requires Valid()
      modifies this`settings, graph
      ensures Valid() && WithPanel(Mixer(), nextGains, nextMuted)
                      == M.ResetOne(WithPanel(old(Mixer()), gains0, muted0), t, globalPrefs)
    {
      var eff := M.EffectiveSetting(t.slug, t.category, map[], globalPrefs);
      nextGains := gains0[t.slug := eff.gain];
      nextMuted := muted0[t.slug := eff.muted];
      settings := settings[t.slug := eff];
      LevelIgnoresPanel(Mixer(), t.slug, if eff.muted then G.Fin(0.0) else eff.gain, nextGains, nextMuted);
      SetTrackGain(t.slug, if eff.muted then G.Fin(0.0) else eff.gain);
    }

    method ResetTracks() returns (nextGains: map<string, G.Num>, nextMuted: map<string, bool>)
      requires Valid()
      modifies this`settings, graph
      ensures Valid() && WithPanel(Mixer(), nextGains, nextMuted)
                      == M.ResetAll(WithPanel(old(Mixer()), map[], map[]), tracks, globalPrefs)
    {
      ghost var start := WithPanel(Mixer(), map[], map[]);
      nextGains, nextMuted := map[], map[];
      for i := 0 to |tracks|
        invariant Valid()
        invariant WithPanel(Mixer(), nextGains, nextMuted) == M.ResetAll(start, tracks[..i], globalPrefs)
      {
        ResetStep(start, tracks, i, globalPrefs);
        nextGains, nextMuted := ResetTrack(tracks[i], nextGains, nextMuted);
      }
      assert tracks[..|tracks|] == tracks;
    }

    method OnReset()
      requires Valid()
      modifies this, graph
      ensures Valid() && Page() == After(old(Page()), M.ResetClicked)
    {
      var nextGains, nextMuted := ResetTracks();
      gains, muted := nextGains, nextMuted;
    }

    method OnSaveStreamer()
      requires Valid()
      modifies this`stored
      ensures Valid() && Page() == After(old(Page()), M.SaveClicked)
    {
      var out: M.Prefs, todo := map[], settings.Keys;
      while todo != {}
        invariant todo <= settings.Keys && out == settings - todo
      {
        var slug :| slug in todo;
        out := out[slug := settings[slug]];
        todo := todo - {slug};
      }
      stored := out;
    }

    method EnsureLane(slug: string) returns (lane: Option<M.Lane>)
      requires Valid()
      modifies this`lanes, this`nextLane
      ensures Valid() && Mixer() == M.EnsureLane(old(Mixer()), slug, available) && lane == M.Get(lanes, slug)
    {
      if slug in lanes {
        return Some(lanes[slug]);
      }
      var entry := graph.EntryNodeFor(slug);
      if entry == None || !available {
        return None;
      }
      lane := Some(M.Lane(nextLane, entry.value));
      lanes := lanes[slug := lane.value];
      nextLane := nextLane + 1;
    }

    method IndexTracks(incoming: seq<M.TrackInfo>)
      modifies this`idToSlug
      ensures idToSlug == M.IndexTracks(incoming)
    {
      idToSlug := map[];
      for i := 0 to |incoming|
        invariant idToSlug == M.IndexTracks(incoming[..i])
      {
        assert incoming[..i + 1][..i] == incoming[..i];
        idToSlug := idToSlug[incoming[i].id := incoming[i].slug];
      }
      assert incoming[..|incoming|] == incoming;
    }

    /** The first loop of a track list: forget the tracks that left. */
    method DropMissing(keep: set<string>) returns (nextGains: map<string, G.Num>, nextMuted: map<string, bool>)
      requires Valid()
      modifies this`lanes, this`closedLanes, this`settings, graph
      ensures Valid() && WithPanel(Mixer(), nextGains, nextMuted) == M.DropAll(old(Mixer()), old(tracks), keep)
    {
      ghost var was := Mixer();
      nextGains, nextMuted := gains, muted;
      for i := 0 to |tracks|
        invariant Valid() && tracks == was.tracks
        invariant WithPanel(Mixer(), nextGains, nextMuted) == M.DropAll(was, tracks[..i], keep)
      {
        assert tracks[..i + 1][..i] == tracks[..i];
        var slug := tracks[i].slug;
        if slug !in keep {
          if slug in lanes {
            closedLanes := closedLanes + {lanes[slug].id};
          }
          lanes := lanes - {slug};
          graph.RemoveTrack(slug);
          nextGains := nextGains - {slug};
          nextMuted := nextMuted - {slug};
          settings := settings - {slug};
        }
      }
      assert tracks[..|tracks|] == tracks;
    }

    method AddNode(slug: string)
      requires Valid()
      modifies graph
      ensures Valid() && Mixer() == M.AddNode(old(Mixer()), slug)
    {
      var _ := graph.AddTrack(slug);
    }

    method AddTrack(t: M.TrackInfo, gains0: map<string, G.Num>, muted0: map<string, bool>)
      returns (nextGains: map<string, G.Num>, nextMuted: map<string, bool>)
      requires Valid()
      modifies this`lanes, this`nextLane, this`settings, graph
      ensures Valid() && WithPanel(Mixer(), nextGains, nextMuted)
                      == M.AddOne(WithPanel(old(Mixer()), gains0, muted0), t, streamerPrefs, globalPrefs, available)
    {
      nextGains, nextMuted := gains0, muted0;
      if t.slug !in settings {
        var eff := M.EffectiveSetting(t.slug, t.category, streamerPrefs, globalPrefs);
        settings := settings[t.slug := eff];
        nextGains := nextGains[t.slug := eff.gain];
        nextMuted := nextMuted[t.slug := eff.muted];
        NodeIgnoresPanel(Mixer(), t.slug, nextGains, nextMuted);
        AddNode(t.slug);
        LevelIgnoresPanel(Mixer(), t.slug, if eff.muted then G.Fin(0.0) else eff.gain, nextGains, nextMuted);
        SetTrackGain(t.slug, if eff.muted then G.Fin(0.0) else eff.gain);
        LaneIgnoresPanel(Mixer(), t.slug, available, nextGains, nextMuted);
        var _ := EnsureLane(t.slug);
      }
    }

    /** The second loop: install the tracks that are new. */
    method AddNew(incoming: seq<M.TrackInfo>, gains0: map<string, G.Num>, muted0: map<string, bool>)
      returns (nextGains: map<string, G.Num>, nextMuted: map<string, bool>)
      requires Valid()
      modifies this`lanes, this`nextLane, this`settings, graph
      ensures Valid() && WithPanel(Mixer(), nextGains, nextMuted)
                      == M.AddAll(WithPanel(old(Mixer()), gains0, muted0), incoming, streamerPrefs, globalPrefs,
                          available)
    {
      ghost var start := WithPanel(Mixer(), gains0, muted0);
      nextGains, nextMuted := gains0, muted0;
      for i := 0 to |incoming|
        invariant Valid()
        invariant WithPanel(Mixer(), nextGains, nextMuted)
               == M.AddAll(start, incoming[..i], streamerPrefs, globalPrefs, available)
      {
        AddStep(start, incoming, i, streamerPrefs, globalPrefs, available);
        nextGains, nextMuted := AddTrack(incoming[i], nextGains, nextMuted);
      }
      assert incoming[..|incoming|] == incoming;
    }

    method ApplyTrackList(incoming: seq<M.TrackInfo>)
      requires Valid()
      modifies this`tracks, this`gains, this`muted, this`settings, this`lanes, this`nextLane, this`closedLanes, graph
      ensures Valid() && Mixer() == M.ApplyTrackList(old(Mixer()), incoming, streamerPrefs, globalPrefs, available)
    {
      var nextGains, nextMuted := DropMissing(M.Slugs(incoming));
      ghost var dropped := WithPanel(Mixer(), nextGains, nextMuted);
      nextGains, nextMuted := AddNew(incoming, nextGains, nextMuted);
      ghost var added := WithPanel(Mixer(), nextGains, nextMuted);
      tracks, gains, muted := incoming, nextGains, nextMuted;
      assert Mixer() == added.(tracks := incoming);
    }

    method OnTrackList(incoming: seq<M.TrackInfo>)
      requires Valid()
      modifies this, graph
      ensures Valid() && Page() == After(old(Page()), M.TrackList(incoming))
    {
      IndexTracks(incoming);
      ApplyTrackList(incoming);
    }

    /** The lane an arriving frame is handed to. */
    method OnAudio(id: nat) returns (lane: Option<M.Lane>)
      requires Valid()
      modifies this`lanes, this`nextLane
      ensures Valid() && Page() == After(old(Page()), M.Audio(id))
      ensures lane == M.Route(old(Mixer()), old(idToSlug), id, available).1
    {
      if id !in idToSlug || idToSlug[id] == "" {
        return None;
      }
      lane := EnsureLane(idToSlug[id]);
    }
  }
}
