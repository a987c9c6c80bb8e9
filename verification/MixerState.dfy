/**
 The content script's mixer: the maps it keeps per track slug and the audio graph, under track
 lists and user-interface events in any order.
 */
module MixerState {
  import opened Wrappers
  import opened MixerGraph

  datatype TrackInfo = TrackInfo(id: nat, slug: string, category: string, labelText: string)

  datatype Setting = Setting(gain: Num, muted: bool, permanentlyOff: bool)

  type Prefs = map<string, Setting>

  const DEFAULT := Setting(Fin(0.5), false, false)
  const CUSTOM := "custom"

  // ---- the two-tier preferences ----

  /**
   Reading a JavaScript record: an absent key is undefined, except that "constructor" (the one
   slug that names an inherited property) yields a function, whose copied fields are all undefined.
   */
  function Lookup(prefs: Prefs, key: string): Option<Setting> {
    if key in prefs then Some(prefs[key])
    else if key == "constructor" then Some(Setting(Undefined, false, false))
    else None
  }

  /** Per-streamer override, else the global default of a preset category, else the built-in default. */
  function EffectiveSetting(slug: string, category: string, streamer: Prefs, global: Prefs): Setting {
    match Lookup(streamer, slug)
    case Some(s) => s
    case None =>
      match if category != CUSTOM then Lookup(global, category) else None
      case Some(s) => s
      case None => DEFAULT
  }

  /** Gains that were saved are finite numbers, but for one that was read off the inherited property. */
  ghost predicate Defined(prefs: Prefs) {
    forall k :: k in prefs && !prefs[k].gain.Fin? ==> prefs[k].gain == Undefined && k == "constructor"
  }

  /** With such preferences, the only slug without a usable gain is a "constructor" that has not been given one. */
  lemma OnlyConstructorIsUndefined(slug: string, category: string, streamer: Prefs, global: Prefs)
    requires Defined(streamer) && Defined(global) && category != "constructor"
    ensures EffectiveSetting(slug, category, streamer, global).gain == Undefined
            <==> slug == "constructor" && (slug in streamer ==> streamer[slug].gain == Undefined)
  {
  }

  /**
   The precedence, on the stored maps: what the streamer's map says of the slug; else, for a preset
   category, what the global map says of the category; else half gain and unmuted.
   */
  lemma Precedence(slug: string, category: string, streamer: Prefs, global: Prefs)
    requires slug != "constructor" && category != "constructor"
    ensures EffectiveSetting(slug, category, streamer, global) ==
              if slug in streamer then streamer[slug]
              else if category != "custom" && category in global then global[category]
              else Setting(Fin(0.5), false, false)
  {
  }

  // ---- the state of the mixer ----

  /** A decoder and scheduler pair, feeding an entry node. */
  datatype Lane = Lane(id: nat, entry: nat)

  /** The levels and entry nodes are those of the audio graph. */
  datatype Mixer = Mixer(
    tracks: seq<TrackInfo>,
    settings: Prefs,
    gains: map<string, Num>,
    muted: map<string, bool>,
    levels: map<string, real>,
    entries: map<string, nat>,
    nextNode: nat,
    lanes: map<string, Lane>,
    nextLane: nat,
    closedLanes: set<nat>)
  {
    predicate Muted(slug: string) {
      slug in muted && muted[slug]
    }

    /** `gains[slug] ?? 0.5` */
    function GainOr(slug: string): Num {
      if slug in gains && gains[slug] != Undefined then gains[slug] else Fin(0.5)
    }

    function SetLevel(slug: string, v: Num): Mixer {
      if slug in entries then this.(levels := levels[slug := Clamp01(v)]) else this
    }
  }

  const EMPTY := Mixer([], map[], map[], map[], map[], map[], 0, map[], 0, {})

  function Slugs(tracks: seq<TrackInfo>): set<string> {
    set t | t in tracks :: t.slug
  }

  // ---- the handlers, as functions of that state ----

  function Change(m: Mixer, slug: string, v: Num): Mixer {
    m.(gains := m.gains[slug := v],
       settings := if slug in m.settings then m.settings[slug := m.settings[slug].(gain := v)] else m.settings)
    .SetLevel(slug, if m.Muted(slug) then Fin(0.0) else v)
  }

  function ToggleMute(m: Mixer, slug: string): Mixer {
    var next := !m.Muted(slug);
    m.(muted := m.muted[slug := next],
       settings := if slug in m.settings then m.settings[slug := m.settings[slug].(muted := next)] else m.settings)
    .SetLevel(slug, if next then Fin(0.0) else m.GainOr(slug))
  }

  /** Solo rebuilds the mutes of the listed tracks; it does not touch the settings. */
  function Solo(m: Mixer, slug: string): Mixer {
    SoloLevels(m, m.tracks, slug).(muted := map s | s in Slugs(m.tracks) :: s != slug)
  }

  function SoloLevels(m: Mixer, ts: seq<TrackInfo>, slug: string): Mixer {
    if ts == [] then m else
      var t := ts[|ts| - 1];
      SoloLevels(m, ts[..|ts| - 1], slug).SetLevel(t.slug, if t.slug != slug then Fin(0.0) else m.GainOr(t.slug))
  }

  /** Reset forgets the per-streamer overrides; gains and mutes start from nothing. */
  function Reset(m: Mixer, global: Prefs): Mixer {
    ResetAll(m.(gains := map[], muted := map[]), m.tracks, global)
  }

  function ResetOne(m: Mixer, t: TrackInfo, global: Prefs): Mixer {
    var eff := EffectiveSetting(t.slug, t.category, map[], global);
    m.(gains := m.gains[t.slug := eff.gain], muted := m.muted[t.slug := eff.muted],
       settings := m.settings[t.slug := eff])
    .SetLevel(t.slug, if eff.muted then Fin(0.0) else eff.gain)
  }

  function ResetAll(m: Mixer, ts: seq<TrackInfo>, global: Prefs): Mixer {
    if ts == [] then m else ResetOne(ResetAll(m, ts[..|ts| - 1], global), ts[|ts| - 1], global)
  }

  /** A lane is created once per entry node, unless the decoder is unavailable. */
  function EnsureLane(m: Mixer, slug: string, available: bool): Mixer {
    if slug in m.lanes || slug !in m.entries || !available then m
    else m.(lanes := m.lanes[slug := Lane(m.nextLane, m.entries[slug])], nextLane := m.nextLane + 1)
  }

  function DropOne(m: Mixer, slug: string): Mixer {
    m.(closedLanes := if slug in m.lanes then m.closedLanes + {m.lanes[slug].id} else m.closedLanes,
       lanes := m.lanes - {slug}, levels := m.levels - {slug}, entries := m.entries - {slug},
       gains := m.gains - {slug}, muted := m.muted - {slug}, settings := m.settings - {slug})
  }

  function DropAll(m: Mixer, ts: seq<TrackInfo>, keep: set<string>): Mixer {
    if ts == [] then m else
      var m' := DropAll(m, ts[..|ts| - 1], keep);
      if ts[|ts| - 1].slug in keep then m' else DropOne(m', ts[|ts| - 1].slug)
  }

  function AddNode(m: Mixer, slug: string): Mixer {
    if slug in m.entries then m
    else m.(entries := m.entries[slug := m.nextNode], levels := m.levels[slug := 0.5], nextNode := m.nextNode + 1)
  }

  function AddOne(m: Mixer, t: TrackInfo, streamer: Prefs, global: Prefs, available: bool): Mixer {
    if t.slug in m.settings then m else
      var eff := EffectiveSetting(t.slug, t.category, streamer, global);
      var m' := AddNode(m.(settings := m.settings[t.slug := eff], gains := m.gains[t.slug := eff.gain],
                           muted := m.muted[t.slug := eff.muted]), t.slug);
      EnsureLane(m'.SetLevel(t.slug, if eff.muted then Fin(0.0) else eff.gain), t.slug, available)
  }

  function AddAll(m: Mixer, ts: seq<TrackInfo>, streamer: Prefs, global: Prefs, available: bool): Mixer {
    if ts == [] then m else
      AddOne(AddAll(m, ts[..|ts| - 1], streamer, global, available), ts[|ts| - 1], streamer, global, available)
  }

  function ApplyTrackList(m: Mixer, incoming: seq<TrackInfo>, streamer: Prefs, global: Prefs, available: bool): Mixer {
    AddAll(DropAll(m, m.tracks, Slugs(incoming)), incoming, streamer, global, available).(tracks := incoming)
  }

  // ---- what the user hears and sees ----

  function Level(gain: Num, muted: bool): real {
    if muted then 0.0 else Clamp01(gain)
  }

  function Get<V>(m: map<string, V>, s: string): Option<V> {
    if s in m then Some(m[s]) else None
  }

  /** All that the mixer keeps about one slug. */
  datatype Row = Row(setting: Option<Setting>, gain: Option<Num>, muted: Option<bool>, level: Option<real>,
                     entry: Option<nat>, lane: Option<Lane>)

  function RowOf(m: Mixer, s: string): Row {
    Row(Get(m.settings, s), Get(m.gains, s), Get(m.muted, s), Get(m.levels, s), Get(m.entries, s), Get(m.lanes, s))
  }

  /**
   The maps agree about a slug: it is in all of them or in none; the slider is what a save would
   write, the lane feeds the entry node, and what is audible follows from slider and mute, as long
   as the slider has a value.
   */
  predicate RowOk(slug: string, r: Row) {
    match r
    case Row(None, None, None, None, None, None) => true
    case Row(Some(setting), Some(gain), Some(muted), Some(level), Some(entry), lane) =>
      && setting.gain == gain
      && (!gain.Fin? ==> gain == Undefined && slug == "constructor")
      && (gain.Fin? ==> level == Level(gain, muted))
      && (lane.Some? ==> lane.value.entry == entry)
    case _ => false
  }

  /** No closed lane is still in use and no two tracks share one; numbers are not reused. */
  ghost predicate LanesOk(m: Mixer) {
    && (forall s :: s in m.lanes ==> m.lanes[s].id < m.nextLane && m.lanes[s].id !in m.closedLanes)
    && (forall id :: id in m.closedLanes ==> id < m.nextLane)
    && (forall s, r :: s in m.lanes && r in m.lanes && m.lanes[s].id == m.lanes[r].id ==> s == r)
  }

  /** No two tracks share an entry node. */
  ghost predicate NodesOk(m: Mixer) {
    && (forall s :: s in m.entries ==> m.entries[s] < m.nextNode)
    && (forall s, r :: s in m.entries && r in m.entries && m.entries[s] == m.entries[r] ==> s == r)
  }

  ghost predicate Core(m: Mixer) {
    LanesOk(m) && NodesOk(m) && forall s :: RowOk(s, RowOf(m, s))
  }

  /** Exactly the listed tracks are in the maps and in the graph, and everything agrees. */
  ghost predicate Agrees(m: Mixer) {
    Core(m) && forall s :: s in m.settings <==> s in Slugs(m.tracks)
  }

  /** In terms of the maps themselves. */
  lemma AgreesMeans(m: Mixer)
    requires Agrees(m)
    ensures m.settings.Keys == m.gains.Keys == m.muted.Keys == m.levels.Keys == m.entries.Keys == Slugs(m.tracks)
    ensures forall s :: s in Slugs(m.tracks) ==> m.settings[s].gain == m.gains[s]
    ensures forall s :: s in Slugs(m.tracks) && s != "constructor" ==>
              m.gains[s].Fin? && m.levels[s] == Clamp01(if m.muted[s] then Fin(0.0) else m.gains[s])
    ensures forall s :: s in m.lanes ==> s in m.entries && m.lanes[s].entry == m.entries[s]
    ensures forall s, r :: s in m.entries && r in m.entries && s != r ==> m.entries[s] != m.entries[r]
  {
    forall s
      ensures (s in m.settings <==> s in m.gains) && (s in m.gains <==> s in m.muted)
      ensures (s in m.muted <==> s in m.levels) && (s in m.levels <==> s in m.entries)
      ensures s in m.lanes ==> s in m.entries && m.lanes[s].entry == m.entries[s]
    {
      assert RowOk(s, RowOf(m, s));
    }
    forall s | s in Slugs(m.tracks)
      ensures m.settings[s].gain == m.gains[s]
      ensures s != "constructor" ==>
                m.gains[s].Fin? && m.levels[s] == Clamp01(if m.muted[s] then Fin(0.0) else m.gains[s])
    {
      assert RowOk(s, RowOf(m, s));
    }
  }

  // ---- user-interface events keep the agreement ----

  /** A slider moves one track: its gain, its saved gain and, unless it is muted, its level. */
  lemma ChangeOk(m: Mixer, slug: string, v: Num)
    requires Agrees(m) && slug in Slugs(m.tracks) && v.Fin?
    ensures
      var m' := Change(m, slug, v);
      && Agrees(m')
      && (forall s :: s != slug ==> RowOf(m', s) == RowOf(m, s))
      && slug in m.muted
      && var r := RowOf(m, slug);
         r.setting.Some? && RowOf(m', slug) ==
           r.(setting := Some(r.setting.value.(gain := v)), gain := Some(v), level := Some(Level(v, m.muted[slug])))
  {
    var m' := Change(m, slug, v);
    assert RowOk(slug, RowOf(m, slug));
    forall s ensures RowOk(s, RowOf(m', s)) {
      assert RowOk(s, RowOf(m, s));
    }
  }

  lemma ToggleMuteOk(m: Mixer, slug: string)
    requires Agrees(m) && slug in Slugs(m.tracks)
    ensures
      var m' := ToggleMute(m, slug);
      && Agrees(m')
      && (forall s :: s != slug ==> RowOf(m', s) == RowOf(m, s))
      && slug in m.muted && slug in m.gains
      && var r := RowOf(m, slug);
         var next := !m.muted[slug];
         r.setting.Some? && RowOf(m', slug) ==
           r.(setting := Some(r.setting.value.(muted := next)), muted := Some(next),
              level := Some(Level(m.GainOr(slug), next)))
  {
    var m' := ToggleMute(m, slug);
    assert RowOk(slug, RowOf(m, slug));
    forall s ensures RowOk(s, RowOf(m', s)) {
      assert RowOk(s, RowOf(m, s));
    }
  }

  lemma SlugsAppend(ts: seq<TrackInfo>)
    requires ts != []
    ensures Slugs(ts) == Slugs(ts[..|ts| - 1]) + {ts[|ts| - 1].slug}
  {
    assert ts == ts[..|ts| - 1] + [ts[|ts| - 1]];
  }

  lemma {:induction false} SoloLevelsAre(m: Mixer, ts: seq<TrackInfo>, slug: string)
    requires Core(m) && forall s :: s in Slugs(ts) ==> s in m.settings
    ensures
      var m' := SoloLevels(m, ts, slug);
      && m' == m.(levels := m'.levels)
      && forall s :: Get(m'.levels, s) ==
           if s in Slugs(ts) then Some(Level(m.GainOr(s), s != slug)) else Get(m.levels, s)
    decreases |ts|
  {
    if ts != [] {
      SlugsAppend(ts);
      SoloLevelsAre(m, ts[..|ts| - 1], slug);
      assert RowOk(ts[|ts| - 1].slug, RowOf(m, ts[|ts| - 1].slug));
    }
  }

  /** Solo mutes every other listed track and leaves the settings, so a save after it keeps the old mutes. */
  lemma SoloOk(m: Mixer, slug: string)
    requires Agrees(m)
    ensures
      var m' := Solo(m, slug);
      && Agrees(m') && m'.tracks == m.tracks && m'.settings == m.settings && m'.gains == m.gains
      && m'.lanes == m.lanes && m'.entries == m.entries
      && forall s :: s in m.settings ==> s in m'.muted && m'.muted[s] == (s != slug)
  {
    SoloLevelsAre(m, m.tracks, slug);
    var m' := Solo(m, slug);
    forall s ensures RowOk(s, RowOf(m', s)) {
      assert RowOk(s, RowOf(m, s));
    }
  }

  // ---- reset ----

  /** What a reset leaves about a slug: the default of the last entry that carries it. */
  function LastDefault(ts: seq<TrackInfo>, s: string, global: Prefs): Option<Setting> {
    if ts == [] then None
    else if ts[|ts| - 1].slug == s then Some(EffectiveSetting(s, ts[|ts| - 1].category, map[], global))
    else LastDefault(ts[..|ts| - 1], s, global)
  }

  /** What a track list installs for a new slug: the setting chosen by the first entry that carries it. */
  function FirstSetting(ts: seq<TrackInfo>, s: string, streamer: Prefs, global: Prefs): Option<Setting> {
    if ts == [] then None
    else
      match FirstSetting(ts[..|ts| - 1], s, streamer, global)
      case Some(eff) => Some(eff)
      case None =>
        if ts[|ts| - 1].slug == s then Some(EffectiveSetting(s, ts[|ts| - 1].category, streamer, global)) else None
  }

  function RowWith(eff: Setting, entry: Option<nat>, lane: Option<Lane>): Row {
    Row(Some(eff), Some(eff.gain), Some(eff.muted), Some(Level(eff.gain, eff.muted)), entry, lane)
  }

  lemma ResetOneRow(m: Mixer, t: TrackInfo, global: Prefs, s: string)
    requires t.slug in m.entries
    ensures RowOf(ResetOne(m, t, global), s) ==
              if s == t.slug
              then RowWith(EffectiveSetting(s, t.category, map[], global), Get(m.entries, s), Get(m.lanes, s))
              else RowOf(m, s)
  {
  }

  lemma {:induction false} ResetAllFrame(m: Mixer, ts: seq<TrackInfo>, global: Prefs)
    ensures
      var m' := ResetAll(m, ts, global);
      && m'.tracks == m.tracks && m'.entries == m.entries && m'.lanes == m.lanes
      && m'.nextNode == m.nextNode && m'.nextLane == m.nextLane && m'.closedLanes == m.closedLanes
    decreases |ts|
  {
    if ts != [] {
      ResetAllFrame(m, ts[..|ts| - 1], global);
    }
  }

  lemma {:induction false} ResetAllRow(m: Mixer, ts: seq<TrackInfo>, global: Prefs, s: string)
    requires forall r :: r in Slugs(ts) ==> r in m.entries
    ensures RowOf(ResetAll(m, ts, global), s) ==
              match LastDefault(ts, s, global)
              case Some(eff) => RowWith(eff, Get(m.entries, s), Get(m.lanes, s))
              case None => RowOf(m, s)
    decreases |ts|
  {
    if ts != [] {
      var before := ts[..|ts| - 1];
      SlugsAppend(ts);
      ResetAllRow(m, before, global, s);
      ResetAllFrame(m, before, global);
      ResetOneRow(ResetAll(m, before, global), ts[|ts| - 1], global, s);
    }
  }

  /** Categories are "custom" or one of the presets; of that it only matters that they name no inherited property. */
  ghost predicate Categorised(ts: seq<TrackInfo>) {
    forall t :: t in ts ==> t.category != "constructor"
  }

  ghost predicate Usable(ts: seq<TrackInfo>, streamer: Prefs, global: Prefs) {
    Defined(streamer) && Defined(global) && Categorised(ts)
  }

  lemma {:induction false} LastDefaultOk(ts: seq<TrackInfo>, s: string, global: Prefs)
    requires Usable(ts, map[], global)
    ensures LastDefault(ts, s, global).Some? <==> s in Slugs(ts)
    ensures
      var last := LastDefault(ts, s, global);
      last.Some? && !last.value.gain.Fin? ==> last.value.gain == Undefined && s == "constructor"
    decreases |ts|
  {
    if ts != [] {
      var t := ts[|ts| - 1];
      SlugsAppend(ts);
      assert t in ts;
      OnlyConstructorIsUndefined(t.slug, t.category, map[], global);
      LastDefaultOk(ts[..|ts| - 1], s, global);
    }
  }

  lemma {:induction false} FirstSettingOk(ts: seq<TrackInfo>, s: string, streamer: Prefs, global: Prefs)
    requires Usable(ts, streamer, global)
    ensures FirstSetting(ts, s, streamer, global).Some? <==> s in Slugs(ts)
    ensures
      var first := FirstSetting(ts, s, streamer, global);
      first.Some? && !first.value.gain.Fin? ==> first.value.gain == Undefined && s == "constructor"
    ensures s in streamer && s in Slugs(ts) ==> FirstSetting(ts, s, streamer, global) == Some(streamer[s])
    decreases |ts|
  {
    if ts != [] {
      var t := ts[|ts| - 1];
      SlugsAppend(ts);
      assert t in ts;
      OnlyConstructorIsUndefined(t.slug, t.category, streamer, global);
      FirstSettingOk(ts[..|ts| - 1], s, streamer, global);
    }
  }

  /** Reset gives every listed track the global or built-in default, whatever was saved for the streamer. */
  lemma ResetOk(m: Mixer, global: Prefs)
    requires Agrees(m) && Usable(m.tracks, map[], global)
    ensures
      var m' := Reset(m, global);
      && Agrees(m') && m'.tracks == m.tracks && m'.lanes == m.lanes && m'.entries == m.entries
      && (forall s :: s in m.settings ==>
            var eff := LastDefault(m.tracks, s, global);
            eff.Some? && RowOf(m', s) == RowWith(eff.value, Get(m.entries, s), Get(m.lanes, s)))
  {
    var m' := Reset(m, global);
    ResetAllFrame(m.(gains := map[], muted := map[]), m.tracks, global);
    forall s
      ensures RowOk(s, RowOf(m', s)) && (s in m'.settings <==> s in Slugs(m.tracks))
      ensures s in m.settings ==>
                var eff := LastDefault(m.tracks, s, global);
                eff.Some? && RowOf(m', s) == RowWith(eff.value, Get(m.entries, s), Get(m.lanes, s))
    {
      ResetRow(m, global, s);
    }
  }

  lemma {:induction false} LastDefaultAt(ts: seq<TrackInfo>, k: nat, global: Prefs)
    requires k < |ts| && forall j :: k < j < |ts| ==> ts[j].slug != ts[k].slug
    ensures LastDefault(ts, ts[k].slug, global)
         == Some(EffectiveSetting(ts[k].slug, ts[k].category, map[], global))
    decreases |ts|
  {
    if k < |ts| - 1 {
      LastDefaultAt(ts[..|ts| - 1], k, global);
    }
  }

  /** So a reset gives a track its preset's global setting, or the default. */
  lemma ResetStarts(m: Mixer, global: Prefs, k: nat)
    requires Agrees(m) && Usable(m.tracks, map[], global) && k < |m.tracks| && m.tracks[k].slug != "constructor"
    requires forall j :: k < j < |m.tracks| ==> m.tracks[j].slug != m.tracks[k].slug
    ensures
      var m', t := Reset(m, global), m.tracks[k];
      var start := if t.category != "custom" && t.category in global then global[t.category]
                   else Setting(Fin(0.5), false, false);
      && Get(m'.settings, t.slug) == Some(start) && Get(m'.gains, t.slug) == Some(start.gain)
      && Get(m'.muted, t.slug) == Some(start.muted) && Get(m'.levels, t.slug) == Some(Level(start.gain, start.muted))
  {
    var t := m.tracks[k];
    assert t in m.tracks && t.slug in Slugs(m.tracks);
    Precedence(t.slug, t.category, map[], global);
    LastDefaultAt(m.tracks, k, global);
    ResetRow(m, global, t.slug);
  }

  lemma ResetRow(m: Mixer, global: Prefs, s: string)
    requires Agrees(m) && Usable(m.tracks, map[], global)
    ensures
      var r := RowOf(Reset(m, global), s);
      && RowOk(s, r) && (r.setting.Some? <==> s in Slugs(m.tracks))
      && (s in m.settings ==>
            var eff := LastDefault(m.tracks, s, global);
            eff.Some? && r == RowWith(eff.value, Get(m.entries, s), Get(m.lanes, s)))
  {
    AgreesMeans(m);
    ResetAllRow(m.(gains := map[], muted := map[]), m.tracks, global, s);
    LastDefaultOk(m.tracks, s, global);
    assert RowOk(s, RowOf(m, s));
  }

  // ---- track lists ----

  const BLANK := Row(None, None, None, None, None, None)

  lemma DropOneRow(m: Mixer, x: string, s: string)
    ensures RowOf(DropOne(m, x), s) == if s == x then BLANK else RowOf(m, s)
  {
  }

  lemma DropOneLanes(m: Mixer, x: string)
    requires LanesOk(m)
    ensures LanesOk(DropOne(m, x))
    ensures x in m.lanes ==> m.lanes[x].id in DropOne(m, x).closedLanes
  {
  }

  lemma {:induction false} DropAllFrame(m: Mixer, ts: seq<TrackInfo>, keep: set<string>)
    requires LanesOk(m)
    ensures
      var m' := DropAll(m, ts, keep);
      && LanesOk(m') && m'.tracks == m.tracks && m'.nextNode == m.nextNode && m'.nextLane == m.nextLane
      && m.closedLanes <= m'.closedLanes
    decreases |ts|
  {
    if ts != [] {
      DropAllFrame(m, ts[..|ts| - 1], keep);
      DropOneLanes(DropAll(m, ts[..|ts| - 1], keep), ts[|ts| - 1].slug);
    }
  }

  lemma {:induction false} DropAllRow(m: Mixer, ts: seq<TrackInfo>, keep: set<string>, s: string)
    requires LanesOk(m)
    ensures RowOf(DropAll(m, ts, keep), s) == if s in Slugs(ts) && s !in keep then BLANK else RowOf(m, s)
    ensures s in Slugs(ts) && s !in keep && s in m.lanes ==> m.lanes[s].id in DropAll(m, ts, keep).closedLanes
    decreases |ts|
  {
    if ts != [] {
      var before, x := ts[..|ts| - 1], ts[|ts| - 1].slug;
      SlugsAppend(ts);
      DropAllRow(m, before, keep, s);
      DropAllFrame(m, before, keep);
      DropOneRow(DropAll(m, before, keep), x, s);
      if s == x && s in m.lanes && s !in keep && s !in Slugs(before) {
        assert RowOf(DropAll(m, before, keep), s).lane == Some(m.lanes[s]);
      }
    }
  }

  /** The row of a track that has just been added. */
  function NewRow(eff: Setting, node: nat, lane: nat, available: bool): Row {
    RowWith(eff, Some(node), if available then Some(Lane(lane, node)) else None)
  }

  lemma AddOneRow(m: Mixer, t: TrackInfo, streamer: Prefs, global: Prefs, available: bool, s: string)
    requires RowOk(t.slug, RowOf(m, t.slug))
    ensures RowOf(AddOne(m, t, streamer, global, available), s) ==
              if s == t.slug && s !in m.settings
              then NewRow(EffectiveSetting(s, t.category, streamer, global), m.nextNode, m.nextLane, available)
              else RowOf(m, s)
  {
  }

  lemma AddOneLanes(m: Mixer, t: TrackInfo, streamer: Prefs, global: Prefs, available: bool)
    requires LanesOk(m) && RowOk(t.slug, RowOf(m, t.slug))
    ensures
      var m' := AddOne(m, t, streamer, global, available);
      LanesOk(m') && m'.closedLanes == m.closedLanes && m.nextNode <= m'.nextNode && m.nextLane <= m'.nextLane
      && m'.tracks == m.tracks
  {
  }

  lemma AddOneNodes(m: Mixer, t: TrackInfo, streamer: Prefs, global: Prefs, available: bool)
    requires NodesOk(m)
    ensures NodesOk(AddOne(m, t, streamer, global, available))
  {
  }

  /** What a row becomes when a list is added: untouched if there was one, else installed with unused numbers. */
  predicate Added(before: Row, after: Row, eff: Option<Setting>, available: bool, node: nat, lane: nat) {
    if before.setting.Some? || eff.None? then after == before
    else
      && after.entry.Some? && after.entry.value >= node
      && after == NewRow(eff.value, after.entry.value, if after.lane.Some? then after.lane.value.id else 0, available)
      && (available ==> after.lane.Some? && after.lane.value.id >= lane)
  }

  lemma {:induction false} AddAllFrame(m: Mixer, ts: seq<TrackInfo>, streamer: Prefs, global: Prefs, available: bool)
    requires Core(m) && Usable(ts, streamer, global)
    ensures
      var m' := AddAll(m, ts, streamer, global, available);
      && Core(m') && m'.closedLanes == m.closedLanes && m.nextNode <= m'.nextNode && m.nextLane <= m'.nextLane
      && m'.tracks == m.tracks
    decreases |ts|
  {
    if ts != [] {
      var before, t := ts[..|ts| - 1], ts[|ts| - 1];
      AddAllFrame(m, before, streamer, global, available);
      var mid := AddAll(m, before, streamer, global, available);
      assert RowOk(t.slug, RowOf(mid, t.slug));
      AddOneLanes(mid, t, streamer, global, available);
      AddOneNodes(mid, t, streamer, global, available);
      assert t in ts;
      OnlyConstructorIsUndefined(t.slug, t.category, streamer, global);
      forall s ensures RowOk(s, RowOf(AddOne(mid, t, streamer, global, available), s)) {
        assert RowOk(s, RowOf(mid, s));
        AddOneRow(mid, t, streamer, global, available, s);
      }
    }
  }

  lemma {:induction false} AddAllRow(m: Mixer, ts: seq<TrackInfo>, streamer: Prefs, global: Prefs, available: bool,
        s: string)
    requires Core(m) && Usable(ts, streamer, global)
    ensures Added(RowOf(m, s), RowOf(AddAll(m, ts, streamer, global, available), s),
                  FirstSetting(ts, s, streamer, global), available, m.nextNode, m.nextLane)
    decreases |ts|
  {
    if ts != [] {
      var before, t := ts[..|ts| - 1], ts[|ts| - 1];
      AddAllFrame(m, before, streamer, global, available);
      AddAllRow(m, before, streamer, global, available, s);
      var mid := AddAll(m, before, streamer, global, available);
      assert RowOk(t.slug, RowOf(mid, t.slug));
      AddOneRow(mid, t, streamer, global, available, s);
    }
  }

  /** What one track list does to one row. */
  predicate Applied(before: Row, after: Row, listed: bool, eff: Option<Setting>, available: bool, node: nat,
        lane: nat)
  {
    && (listed <==> eff.Some?)
    && if listed then Added(before, after, eff, available, node, lane) else after == BLANK
  }

  lemma {:induction false} DropAllNodes(m: Mixer, ts: seq<TrackInfo>, keep: set<string>)
    requires NodesOk(m)
    ensures NodesOk(DropAll(m, ts, keep))
    decreases |ts|
  {
    if ts != [] {
      DropAllNodes(m, ts[..|ts| - 1], keep);
    }
  }

  lemma DropUnlisted(m: Mixer, keep: set<string>)
    requires Agrees(m)
    ensures Core(DropAll(m, m.tracks, keep))
    ensures forall s :: RowOf(DropAll(m, m.tracks, keep), s) == if s in keep then RowOf(m, s) else BLANK
    ensures forall s :: s in m.lanes && s !in keep ==> m.lanes[s].id in DropAll(m, m.tracks, keep).closedLanes
  {
    DropAllFrame(m, m.tracks, keep);
    DropAllNodes(m, m.tracks, keep);
    forall s
      ensures RowOf(DropAll(m, m.tracks, keep), s) == if s in keep then RowOf(m, s) else BLANK
      ensures RowOk(s, RowOf(DropAll(m, m.tracks, keep), s))
      ensures s in m.lanes && s !in keep ==> m.lanes[s].id in DropAll(m, m.tracks, keep).closedLanes
    {
      assert RowOk(s, RowOf(m, s));
      DropAllRow(m, m.tracks, keep, s);
    }
  }

  lemma ApplyRow(m: Mixer, incoming: seq<TrackInfo>, streamer: Prefs, global: Prefs, available: bool, s: string)
    requires Agrees(m) && Usable(incoming, streamer, global)
    ensures Applied(RowOf(m, s), RowOf(ApplyTrackList(m, incoming, streamer, global, available), s),
                    s in Slugs(incoming), FirstSetting(incoming, s, streamer, global), available, m.nextNode,
                        m.nextLane)
  {
    var keep := Slugs(incoming);
    var mid := DropAll(m, m.tracks, keep);
    DropUnlisted(m, keep);
    DropAllFrame(m, m.tracks, keep);
    AddAllRow(mid, incoming, streamer, global, available, s);
    FirstSettingOk(incoming, s, streamer, global);
  }

  lemma ApplyFrame(m: Mixer, incoming: seq<TrackInfo>, streamer: Prefs, global: Prefs, available: bool)
    requires Agrees(m) && Usable(incoming, streamer, global)
    ensures
      var m' := ApplyTrackList(m, incoming, streamer, global, available);
      && Core(m') && m'.tracks == incoming
      && (forall s :: s in m.lanes && s !in Slugs(incoming) ==> m.lanes[s].id in m'.closedLanes)
      && m.closedLanes <= m'.closedLanes
  {
    var keep := Slugs(incoming);
    var mid := DropAll(m, m.tracks, keep);
    DropUnlisted(m, keep);
    DropAllFrame(m, m.tracks, keep);
    AddAllFrame(mid, incoming, streamer, global, available);
    var added := AddAll(mid, incoming, streamer, global, available);
    forall s ensures RowOf(added.(tracks := incoming), s) == RowOf(added, s) {
    }
  }

  /**
   A track list: afterwards exactly its slugs are in every map. A track that was there keeps all
   it had, its lane included; a new one gets the stored setting, a new node and a new lane; the
   lane of one that left is closed.
   */
  lemma ApplyTrackListOk(m: Mixer, incoming: seq<TrackInfo>, streamer: Prefs, global: Prefs, available: bool)
    requires Agrees(m) && Usable(incoming, streamer, global)
    ensures
      var m' := ApplyTrackList(m, incoming, streamer, global, available);
      && Agrees(m') && m'.tracks == incoming
      && (forall s :: Applied(RowOf(m, s), RowOf(m', s), s in Slugs(incoming),
                              FirstSetting(incoming, s, streamer, global),
                              available, m.nextNode, m.nextLane))
      && (forall s :: s in m.lanes && s !in Slugs(incoming) ==> m.lanes[s].id in m'.closedLanes)
      && m.closedLanes <= m'.closedLanes
  {
    var m' := ApplyTrackList(m, incoming, streamer, global, available);
    forall s
      ensures Applied(RowOf(m, s), RowOf(m', s), s in Slugs(incoming), FirstSetting(incoming, s, streamer, global),
                      available, m.nextNode, m.nextLane)
      ensures s in m'.settings <==> s in Slugs(incoming)
    {
      ApplyRow(m, incoming, streamer, global, available, s);
    }
    ApplyFrame(m, incoming, streamer, global, available);
  }

  lemma {:induction false} FirstSettingAt(ts: seq<TrackInfo>, k: nat, streamer: Prefs, global: Prefs)
    requires k < |ts| && forall j :: 0 <= j < k ==> ts[j].slug != ts[k].slug
    ensures FirstSetting(ts, ts[k].slug, streamer, global)
         == Some(EffectiveSetting(ts[k].slug, ts[k].category, streamer, global))
    decreases |ts|
  {
    if k < |ts| - 1 {
      FirstSettingAt(ts[..|ts| - 1], k, streamer, global);
    } else {
      NoFirstSetting(ts[..k], ts[k].slug, streamer, global);
    }
  }

  lemma {:induction false} NoFirstSetting(ts: seq<TrackInfo>, s: string, streamer: Prefs, global: Prefs)
    requires forall j :: 0 <= j < |ts| ==> ts[j].slug != s
    ensures FirstSetting(ts, s, streamer, global) == None
  {
    if ts != [] {
      NoFirstSetting(ts[..|ts| - 1], s, streamer, global);
    }
  }

  /** So a new track starts with the streamer's setting for it, else its preset's global one, else the default. */
  lemma NewTrackStarts(m: Mixer, incoming: seq<TrackInfo>, streamer: Prefs, global: Prefs, available: bool, k: nat)
    requires Agrees(m) && Usable(incoming, streamer, global) && k < |incoming| && incoming[k].slug != "constructor"
    requires incoming[k].slug !in Slugs(m.tracks) && forall j :: 0 <= j < k ==> incoming[j].slug != incoming[k].slug
    ensures
      var m', t := ApplyTrackList(m, incoming, streamer, global, available), incoming[k];
      var start :=
        if t.slug in streamer then streamer[t.slug]
        else if t.category != "custom" && t.category in global then global[t.category]
        else Setting(Fin(0.5), false, false);
      && Get(m'.settings, t.slug) == Some(start) && Get(m'.gains, t.slug) == Some(start.gain)
      && Get(m'.muted, t.slug) == Some(start.muted) && Get(m'.levels, t.slug) == Some(Level(start.gain, start.muted))
      && t.slug in m'.entries && (available <==> t.slug in m'.lanes)
  {
    var t := incoming[k];
    assert t in incoming;
    Precedence(t.slug, t.category, streamer, global);
    FirstSettingAt(incoming, k, streamer, global);
    ApplyRow(m, incoming, streamer, global, available, t.slug);
    assert t.slug !in m.settings;
  }

  /** In particular a surviving track is untouched. */
  lemma SurvivorsUntouched(m: Mixer, incoming: seq<TrackInfo>, streamer: Prefs, global: Prefs, available: bool,
        s: string)
    requires Agrees(m) && Usable(incoming, streamer, global) && s in Slugs(incoming) && s in Slugs(m.tracks)
    ensures RowOf(ApplyTrackList(m, incoming, streamer, global, available), s) == RowOf(m, s)
  {
    ApplyRow(m, incoming, streamer, global, available, s);
    assert s in m.settings;
  }

  // ---- lanes on arrival of audio ----

  /** The slug a wire id stands for: the last entry with that id. */
  function IndexTracks(ts: seq<TrackInfo>): map<nat, string> {
    if ts == [] then map[] else IndexTracks(ts[..|ts| - 1])[ts[|ts| - 1].id := ts[|ts| - 1].slug]
  }

  lemma {:induction false} IndexTracksAre(ts: seq<TrackInfo>, id: nat)
    ensures id in IndexTracks(ts) <==> exists t :: t in ts && t.id == id
    ensures id in IndexTracks(ts) ==> IndexTracks(ts)[id] in Slugs(ts)
    ensures forall k :: 0 <= k < |ts| && ts[k].id == id && (forall l :: k < l < |ts| ==> ts[l].id != id) ==>
              id in IndexTracks(ts) && IndexTracks(ts)[id] == ts[k].slug
    decreases |ts|
  {
    if ts != [] {
      IndexTracksAre(ts[..|ts| - 1], id);
      SlugsAppend(ts);
      assert ts == ts[..|ts| - 1] + [ts[|ts| - 1]];
    }
  }

  /** The lane an audio frame of a track is decoded on, if any. */
  function Route(m: Mixer, index: map<nat, string>, id: nat, available: bool): (Mixer, Option<Lane>) {
    if id !in index || index[id] == "" then (m, None)
    else
      var m' := EnsureLane(m, index[id], available);
      (m', Get(m'.lanes, index[id]))
  }

  lemma EnsureLaneOk(m: Mixer, slug: string, available: bool)
    requires Agrees(m)
    ensures
      var m' := EnsureLane(m, slug, available);
      && Agrees(m')
      && (forall s :: RowOf(m', s).(lane := RowOf(m, s).lane) == RowOf(m, s))
      && (forall s :: s in m.lanes ==> s in m'.lanes && m'.lanes[s] == m.lanes[s])
  {
    var m' := EnsureLane(m, slug, available);
    assert RowOk(slug, RowOf(m, slug));
    forall s ensures RowOk(s, RowOf(m', s)) {
      assert RowOk(s, RowOf(m, s));
    }
  }

  /** A frame of a listed track goes to a lane that is open and feeds that track's entry node; others are ignored. */
  lemma RouteOk(m: Mixer, id: nat, available: bool)
    requires Agrees(m)
    ensures
      var index := IndexTracks(m.tracks);
      var (m', lane) := Route(m, index, id, available);
      && Agrees(m') && m'.settings == m.settings && m'.tracks == m.tracks
      && (id !in index || index[id] == "" ==> lane == None && m' == m)
      && (id in index && index[id] != "" && available ==> lane.Some?)
      && (lane.Some? ==> id in index && index[id] in m'.entries && lane.value.entry == m'.entries[index[id]]
                         && lane.value.id !in m'.closedLanes)
  {
    var index := IndexTracks(m.tracks);
    if id in index {
      IndexTracksAre(m.tracks, id);
      EnsureLaneOk(m, index[id], available);
      assert RowOk(index[id], RowOf(m, index[id]));
      assert RowOk(index[id], RowOf(EnsureLane(m, index[id], available), index[id]));
    }
  }

  // ---- whole runs, across page loads ----

  /** The page's mixer, the preferences it loaded, and what the store holds for this streamer. */
  datatype Page = Page(mixer: Mixer, index: map<nat, string>, streamer: Prefs, stored: Prefs)

  datatype Event =
    | TrackList(incoming: seq<TrackInfo>)
    | Slider(slug: string, value: Num)
    | MuteToggle(slug: string)
    | SoloToggle(slug: string)
    | ResetClicked
    | SaveClicked
    | Audio(id: nat)
    | Reload

  function Step(p: Page, e: Event, global: Prefs, available: bool): Page {
    match e
    case TrackList(incoming) =>
      p.(mixer := ApplyTrackList(p.mixer, incoming, p.streamer, global, available), index := IndexTracks(incoming))
    case Slider(slug, v) => p.(mixer := Change(p.mixer, slug, v))
    case MuteToggle(slug) => p.(mixer := ToggleMute(p.mixer, slug))
    case SoloToggle(slug) => p.(mixer := Solo(p.mixer, slug))
    case ResetClicked => p.(mixer := Reset(p.mixer, global))
    case SaveClicked => p.(stored := p.mixer.settings)
    case Audio(id) => p.(mixer := Route(p.mixer, p.index, id, available).0)
    case Reload => Page(EMPTY, map[], p.stored, p.stored)
  }

  function Exec(p: Page, es: seq<Event>, global: Prefs, available: bool): Page {
    if es == [] then p else Step(Exec(p, es[..|es| - 1], global, available), es[|es| - 1], global, available)
  }

  /** The panel shows only listed tracks, and its sliders give finite numbers. */
  ghost predicate Legal(p: Page, e: Event) {
    match e
    case TrackList(incoming) => Categorised(incoming)
    case Slider(slug, v) => slug in Slugs(p.mixer.tracks) && v.Fin?
    case MuteToggle(slug) => slug in Slugs(p.mixer.tracks)
    case SoloToggle(slug) => slug in Slugs(p.mixer.tracks)
    case _ => true
  }

  ghost predicate LegalRun(p: Page, es: seq<Event>, global: Prefs, available: bool) {
    es == [] ||
    (&& LegalRun(p, es[..|es| - 1], global, available)
     && Legal(Exec(p, es[..|es| - 1], global, available), es[|es| - 1]))
  }

  ghost predicate PageOk(p: Page) {
    && Agrees(p.mixer) && Defined(p.streamer) && Defined(p.stored)
    && p.index == IndexTracks(p.mixer.tracks) && Categorised(p.mixer.tracks)
  }

  lemma SavedIsDefined(m: Mixer)
    requires Agrees(m)
    ensures Defined(m.settings)
  {
    forall k | k in m.settings && !m.settings[k].gain.Fin?
      ensures m.settings[k].gain == Undefined && k == "constructor"
    {
      assert RowOk(k, RowOf(m, k));
    }
  }

  lemma StepOk(p: Page, e: Event, global: Prefs, available: bool)
    requires PageOk(p) && Legal(p, e) && Defined(global)
    ensures PageOk(Step(p, e, global, available))
  {
    match e
    case TrackList(incoming) => ApplyTrackListOk(p.mixer, incoming, p.streamer, global, available);
    case Slider(slug, v) => ChangeOk(p.mixer, slug, v);
    case MuteToggle(slug) => ToggleMuteOk(p.mixer, slug);
    case SoloToggle(slug) => SoloOk(p.mixer, slug);
    case ResetClicked => ResetOk(p.mixer, global);
    case SaveClicked => SavedIsDefined(p.mixer);
    case Audio(id) => RouteOk(p.mixer, id, available);
    case Reload => EmptyAgrees();
  }

  lemma EmptyAgrees()
    ensures Agrees(EMPTY)
  {
  }

  /** After any track lists, panel events, audio frames, saves and page loads the maps and the graph agree. */
  lemma {:induction false} RunOk(saved: Prefs, es: seq<Event>, global: Prefs, available: bool)
    requires Defined(saved) && Defined(global) && LegalRun(Page(EMPTY, map[], saved, saved), es, global, available)
    ensures PageOk(Exec(Page(EMPTY, map[], saved, saved), es, global, available))
    decreases |es|
  {
    if es != [] {
      RunOk(saved, es[..|es| - 1], global, available);
      var before := Exec(Page(EMPTY, map[], saved, saved), es[..|es| - 1], global, available);
      StepOk(before, es[|es| - 1], global, available);
    }
  }

  /** Save, load the page again, and receive a track list. */
  function Reopened(p: Page, incoming: seq<TrackInfo>, global: Prefs, available: bool): Page {
    var saved := Step(p, SaveClicked, global, available);
    Step(Step(saved, Reload, global, available), TrackList(incoming), global, available)
  }

  lemma ReopenedMixer(p: Page, incoming: seq<TrackInfo>, global: Prefs, available: bool)
    ensures Reopened(p, incoming, global, available).mixer
         == ApplyTrackList(EMPTY, incoming, p.mixer.settings, global, available)
  {
  }

  /**
   Every track that was listed at the save has its gain back and its saved mute; one that was
   not is at its default, so the save forgot any older override of it.
   */
  lemma SaveThenReload(p: Page, incoming: seq<TrackInfo>, global: Prefs, available: bool, s: string)
    requires PageOk(p) && Legal(p, TrackList(incoming)) && Defined(global) && s in Slugs(incoming)
    ensures
      var m, m' := p.mixer, Reopened(p, incoming, global, available).mixer;
      if s in m.settings then
        && Get(m'.settings, s) == Get(m.settings, s)
        && Get(m'.gains, s) == Get(m.gains, s)
        && Get(m'.muted, s) == Some(m.settings[s].muted)
      else
        Get(m'.settings, s) == FirstSetting(incoming, s, map[], global)
  {
    ReopenedMixer(p, incoming, global, available);
    SavedIsDefined(p.mixer);
    ReloadRow(p.mixer, incoming, global, available, s);
  }

  lemma ReloadRow(m: Mixer, incoming: seq<TrackInfo>, global: Prefs, available: bool, s: string)
    requires Agrees(m) && Usable(incoming, m.settings, global) && s in Slugs(incoming)
    ensures
      var m' := ApplyTrackList(EMPTY, incoming, m.settings, global, available);
      if s in m.settings then
        && Get(m'.settings, s) == Get(m.settings, s)
        && Get(m'.gains, s) == Get(m.gains, s)
        && Get(m'.muted, s) == Some(m.settings[s].muted)
      else
        Get(m'.settings, s) == FirstSetting(incoming, s, map[], global)
  {
    EmptyAgrees();
    ApplyRow(EMPTY, incoming, m.settings, global, available, s);
    assert RowOk(s, RowOf(m, s));
    FirstSettingOk(incoming, s, m.settings, global);
    if s !in m.settings {
      FirstSettingUnsaved(incoming, s, m.settings, global);
    }
  }

  lemma {:induction false} FirstSettingUnsaved(ts: seq<TrackInfo>, s: string, streamer: Prefs, global: Prefs)
    requires s !in streamer
    ensures FirstSetting(ts, s, streamer, global) == FirstSetting(ts, s, map[], global)
    decreases |ts|
  {
    if ts != [] {
      FirstSettingUnsaved(ts[..|ts| - 1], s, streamer, global);
    }
  }

  /** What the panel did to a track, saved, is there again after the page has been loaded anew. */
  lemma PanelSurvivesReload(p: Page, slug: string, v: Num, global: Prefs, available: bool)
    requires PageOk(p) && slug in Slugs(p.mixer.tracks) && v.Fin? && Defined(global)
    ensures
      var slid := Reopened(Step(p, Slider(slug, v), global, available), p.mixer.tracks, global, available).mixer;
      Get(slid.gains, slug) == Some(v)
    ensures
      var toggled := Reopened(Step(p, MuteToggle(slug), global, available), p.mixer.tracks, global, available).mixer;
      slug in p.mixer.muted && Get(toggled.muted, slug) == Some(!p.mixer.muted[slug])
    ensures
      var reset := Step(p, ResetClicked, global, available);
      var reopened := Reopened(reset, p.mixer.tracks, global, available).mixer;
      Get(reopened.settings, slug) == LastDefault(p.mixer.tracks, slug, global)
  {
    ReloadAfter(p, Slider(slug, v), slug, global, available);
    ReloadAfter(p, MuteToggle(slug), slug, global, available);
    ReloadAfter(p, ResetClicked, slug, global, available);
    ChangeOk(p.mixer, slug, v);
    ToggleMuteOk(p.mixer, slug);
    ResetRow(p.mixer, global, slug);
    AgreesMeans(p.mixer);
  }

  lemma ReloadAfter(p: Page, e: Event, slug: string, global: Prefs, available: bool)
    requires PageOk(p) && Legal(p, e) && Defined(global) && slug in Slugs(p.mixer.tracks)
    requires e.Slider? || e.MuteToggle? || e.ResetClicked?
    ensures
      var m := Step(p, e, global, available).mixer;
      var m' := Reopened(Step(p, e, global, available), p.mixer.tracks, global, available).mixer;
      && slug in m.settings && Get(m'.settings, slug) == Get(m.settings, slug)
      && Get(m'.gains, slug) == Get(m.gains, slug) && Get(m'.muted, slug) == Some(m.settings[slug].muted)
  {
    StepOk(p, e, global, available);
    var p' := Step(p, e, global, available);
    if e.ResetClicked? {
      ResetOk(p.mixer, global);
    }
    assert p'.mixer.tracks == p.mixer.tracks;
    SaveThenReload(p', p.mixer.tracks, global, available, slug);
  }

  /** A frame of a listed track opens its lane, as long as there is a decoder. */
  lemma AudioOpensLane(p: Page, id: nat, global: Prefs)
    requires PageOk(p) && id in p.index && p.index[id] != ""
    ensures p.index[id] in Step(p, Audio(id), global, true).mixer.lanes
  {
    RouteOk(p.mixer, id, true);
  }

  /** So a mute that came from a solo is lost. */
  lemma SoloIsNotSaved(p: Page, slug: string, other: string, global: Prefs, available: bool)
    requires PageOk(p) && slug != other && {slug, other} <= Slugs(p.mixer.tracks) && Defined(global)
    requires other in p.mixer.settings && !p.mixer.settings[other].muted
    ensures
      var soloed := Step(p, SoloToggle(slug), global, available);
      var p' := Reopened(soloed, p.mixer.tracks, global, available);
      Get(soloed.mixer.muted, other) == Some(true) && Get(p'.mixer.muted, other) == Some(false)
  {
    SoloOk(p.mixer, slug);
    var soloed := Step(p, SoloToggle(slug), global, available);
    StepOk(p, SoloToggle(slug), global, available);
    SaveThenReload(soloed, p.mixer.tracks, global, available, other);
  }

  /**
   Why the level of a track named "constructor" is left open: it starts silent with no gain, and
   muting and unmuting it makes it audible at one half.
   */
  lemma ConstructorHasNoGain(id: nat, text: string, global: Prefs, available: bool)
    ensures
      var slug := "constructor";
      var list := TrackList([TrackInfo(id, slug, CUSTOM, text)]);
      var m := Step(Page(EMPTY, map[], map[], map[]), list, global, available).mixer;
      && Get(m.gains, slug) == Some(Undefined) && Get(m.muted, slug) == Some(false) && Get(m.levels, slug) == Some(0.0)
      && Get(ToggleMute(ToggleMute(m, slug), slug).levels, slug) == Some(0.5)
  {
    var slug := "constructor";
    var t := TrackInfo(id, slug, CUSTOM, text);
    EmptyAgrees();
    var m := AddOne(EMPTY, t, map[], global, available);
    AddOneRow(EMPTY, t, map[], global, available, slug);
    assert EffectiveSetting(slug, CUSTOM, map[], global) == Setting(Undefined, false, false);
    AddAllOne(EMPTY, t, map[], global, available);
    assert m.(tracks := [t]) == ApplyTrackList(EMPTY, [t], map[], global, available);
    ToggleTwice(m.(tracks := [t]), slug);
  }

  lemma AddAllOne(m: Mixer, t: TrackInfo, streamer: Prefs, global: Prefs, available: bool)
    ensures AddAll(m, [t], streamer, global, available) == AddOne(m, t, streamer, global, available)
  {
    assert [t][..0] == [];
    assert AddAll(m, [], streamer, global, available) == m;
  }

  /** Muting and unmuting leaves the level that the slider stands for. */
  lemma ToggleTwice(m: Mixer, slug: string)
    requires Get(m.muted, slug) == Some(false) && slug in m.entries
    ensures Get(ToggleMute(ToggleMute(m, slug), slug).levels, slug) == Some(Clamp01(m.GainOr(slug)))
  {
  }
}
