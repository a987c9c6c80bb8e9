/**
 The audio routing graph of the viewer's mixer and what it computes. Signals are functions of
 real time; a gain node scales the sum of its inputs and the delay node shifts it, as in "The
 GainNode Interface" and "The DelayNode Interface" of the W3C Web Audio API.
 */
module MixerGraph {
  import opened Wrappers

  /** A JavaScript value used as a number. */
  datatype Num = Fin(value: real) | NotFinite | Undefined

  function Clamp01(v: Num): real {
    match v
    case Fin(x) => if x < 0.0 then 0.0 else if x > 1.0 then 1.0 else x
    case _ => 0.0
  }

  function Distance(x: real, y: real): real {
    if x <= y then y - x else x - y
  }

  /** Every number goes to the nearest one from 0 to 1, and whatever is no finite number to silence. */
  lemma Clamp01IsNearest(v: Num, x: real)
    requires 0.0 <= x <= 1.0
    ensures 0.0 <= Clamp01(v) <= 1.0 && (!v.Fin? ==> Clamp01(v) == 0.0)
    ensures v.Fin? ==> Distance(Clamp01(v), v.value) <= Distance(x, v.value)
  {
  }

  datatype Node = Source | BroadcastGain | CancellationSum | SharedDelay | Inverter | Master | Destination
                | Entry(id: nat) | UserGain(id: nat)

  const MAX_OFFSET_MS: real := 30000.0

  /** The connections into each node, in the order they were made, and the node parameters. */
  datatype Graph = Graph(inputs: map<Node, seq<Node>>, gains: map<Node, real>, delay: real)
  {
    function Inputs(n: Node): seq<Node> {
      if n in inputs then inputs[n] else []
    }

    function Gain(n: Node): real {
      if n in gains then gains[n] else 1.0
    }

    function Connect(a: Node, b: Node): Graph {
      if a in Inputs(b) then this else this.(inputs := inputs[b := Inputs(b) + [a]])
    }

    /** disconnect(): every connection out of a goes. */
    function Disconnect(a: Node): Graph {
      this.(inputs := map n | n in inputs :: Without(inputs[n], a))
    }
  }

  function Without<T(==)>(s: seq<T>, a: T): seq<T> {
    if s == [] then [] else Without(s[..|s| - 1], a) + if s[|s| - 1] == a then [] else [s[|s| - 1]]
  }

  // ---- what a graph computes ----

  type Signal = real -> real

  /** What flows in: the player's audio, and the scheduled buffers of every entry node. */
  datatype Feed = Feed(player: Signal, entries: nat -> Signal)

  function Rank(n: Node): nat {
    match n
    case Source => 0
    case Entry(_) => 0
    case UserGain(_) => 1
    case CancellationSum => 1
    case BroadcastGain => 1
    case SharedDelay => 2
    case Inverter => 3
    case Master => 4
    case Destination => 5
  }

  /** The signal leaving a node at time t; connections never go down in rank, so they form no cycle. */
  function Output(g: Graph, feed: Feed, n: Node, t: real): real
    decreases Rank(n), 1, 0
  {
    match n
    case Source => feed.player(t)
    case Entry(id) => g.Gain(n) * feed.entries(id)(t)
    case SharedDelay => SumInputs(g, feed, g.Inputs(n), n, t - g.delay)
    case _ => g.Gain(n) * SumInputs(g, feed, g.Inputs(n), n, t)
  }

  function SumInputs(g: Graph, feed: Feed, from: seq<Node>, n: Node, t: real): real
    decreases Rank(n), 0, |from|
  {
    if from == [] then 0.0
    else
      var last := from[|from| - 1];
      SumInputs(g, feed, from[..|from| - 1], n, t)
      + if Rank(last) < Rank(n) then Output(g, feed, last, t) else 0.0
  }

  // ---- the layout that the mixer keeps ----

  function Entries(ids: seq<nat>): seq<Node> {
    seq(|ids|, i requires 0 <= i < |ids| => Entry(ids[i]))
  }

  function UserGains(ids: seq<nat>): seq<Node> {
    seq(|ids|, i requires 0 <= i < |ids| => UserGain(ids[i]))
  }

  ghost predicate Distinct(ids: seq<nat>) {
    forall i, j :: 0 <= i < j < |ids| ==> ids[i] != ids[j]
  }

  /** Exactly the wiring of the pipeline drawing, for these tracks. */
  ghost predicate Layout(g: Graph, ids: seq<nat>) {
    Distinct(ids) && Trunk(g, ids) && Lanes(g, ids)
  }

  ghost predicate Trunk(g: Graph, ids: seq<nat>) {
    && g.Inputs(Destination) == [Master]
    && g.Inputs(Master) == [BroadcastGain, Inverter] + UserGains(ids)
    && g.Inputs(BroadcastGain) == [Source]
    && g.Inputs(Inverter) == [SharedDelay]
    && g.Inputs(SharedDelay) == [CancellationSum]
    && g.Inputs(CancellationSum) == Entries(ids)
    && g.Gain(CancellationSum) == 1.0 && g.Gain(Inverter) == -1.0 && g.Gain(Master) == 1.0 && g.Gain(Destination) == 1.0
  }

  ghost predicate Lanes(g: Graph, ids: seq<nat>) {
    forall id :: id in ids ==> g.Inputs(UserGain(id)) == [Entry(id)] && g.Gain(Entry(id)) == 1.0
  }

  /** The sum of the entry signals of these tracks. */
  function SumEntries(feed: Feed, ids: seq<nat>, t: real): real {
    if ids == [] then 0.0 else SumEntries(feed, ids[..|ids| - 1], t) + feed.entries(ids[|ids| - 1])(t)
  }

  /** The user mix: every track at its own gain. */
  function UserMix(g: Graph, feed: Feed, ids: seq<nat>, t: real): real {
    if ids == [] then 0.0 else
      UserMix(g, feed, ids[..|ids| - 1], t) + g.Gain(UserGain(ids[|ids| - 1])) * feed.entries(ids[|ids| - 1])(t)
  }

  /** The same cancellation with a delay and an inverter per track instead of shared ones. */
  function CancelPerTrack(g: Graph, feed: Feed, ids: seq<nat>, t: real): real {
    if ids == [] then 0.0 else
      CancelPerTrack(g, feed, ids[..|ids| - 1], t) + -1.0 * feed.entries(ids[|ids| - 1])(t - g.delay)
  }

  lemma SumOne(g: Graph, feed: Feed, a: Node, n: Node, t: real)
    requires Rank(a) < Rank(n)
    ensures SumInputs(g, feed, [a], n, t) == Output(g, feed, a, t)
  {
    assert [a][..0] == [];
    assert SumInputs(g, feed, [], n, t) == 0.0;
  }

  lemma SumConcat(g: Graph, feed: Feed, a: seq<Node>, b: seq<Node>, n: Node, t: real)
    ensures SumInputs(g, feed, a + b, n, t) == SumInputs(g, feed, a, n, t) + SumInputs(g, feed, b, n, t)
    decreases |b|
  {
    if b == [] {
      assert a + b == a;
    } else {
      assert (a + b)[..|a + b| - 1] == a + b[..|b| - 1];
      SumConcat(g, feed, a, b[..|b| - 1], n, t);
    }
  }

  lemma {:induction false} SumOfEntries(g: Graph, feed: Feed, ids: seq<nat>, t: real)
    requires forall id :: id in ids ==> g.Gain(Entry(id)) == 1.0
    ensures SumInputs(g, feed, Entries(ids), CancellationSum, t) == SumEntries(feed, ids, t)
    decreases |ids|
  {
    if ids != [] {
      SumOfEntries(g, feed, ids[..|ids| - 1], t);
      assert Entries(ids)[..|ids| - 1] == Entries(ids[..|ids| - 1]);
    }
  }

  lemma {:induction false} SumOfUserGains(g: Graph, feed: Feed, ids: seq<nat>, t: real)
    requires forall id :: id in ids ==> g.Inputs(UserGain(id)) == [Entry(id)] && g.Gain(Entry(id)) == 1.0
    ensures SumInputs(g, feed, UserGains(ids), Master, t) == UserMix(g, feed, ids, t)
    decreases |ids|
  {
    if ids != [] {
      SumOfUserGains(g, feed, ids[..|ids| - 1], t);
      assert UserGains(ids)[..|ids| - 1] == UserGains(ids[..|ids| - 1]);
      SumOne(g, feed, Entry(ids[|ids| - 1]), UserGain(ids[|ids| - 1]), t);
    }
  }

  /** The speakers play the scaled broadcast, minus the tracks as they were one delay ago, plus the user mix. */
  lemma SpeakerSignal(g: Graph, feed: Feed, ids: seq<nat>, t: real)
    requires Layout(g, ids)
    ensures Output(g, feed, Destination, t) ==
            g.Gain(BroadcastGain) * feed.player(t) - SumEntries(feed, ids, t - g.delay) + UserMix(g, feed, ids, t)
  {
    SumOne(g, feed, Master, Destination, t);
    BroadcastBranch(g, feed, ids, t);
    CancellationBranch(g, feed, ids, t);
    SumOfUserGains(g, feed, ids, t);
    MasterSum(g, feed, ids, t);
  }

  lemma BroadcastBranch(g: Graph, feed: Feed, ids: seq<nat>, t: real)
    requires Layout(g, ids)
    ensures Output(g, feed, BroadcastGain, t) == g.Gain(BroadcastGain) * feed.player(t)
  {
    SumOne(g, feed, Source, BroadcastGain, t);
  }

  lemma CancellationBranch(g: Graph, feed: Feed, ids: seq<nat>, t: real)
    requires Layout(g, ids)
    ensures Output(g, feed, Inverter, t) == -SumEntries(feed, ids, t - g.delay)
  {
    SumOne(g, feed, SharedDelay, Inverter, t);
    SumOne(g, feed, CancellationSum, SharedDelay, t - g.delay);
    SumOfEntries(g, feed, ids, t - g.delay);
  }

  lemma MasterSum(g: Graph, feed: Feed, ids: seq<nat>, t: real)
    ensures SumInputs(g, feed, [BroadcastGain, Inverter] + UserGains(ids), Master, t) ==
            Output(g, feed, BroadcastGain, t) + Output(g, feed, Inverter, t)
                + SumInputs(g, feed, UserGains(ids), Master, t)
  {
    SumConcat(g, feed, [BroadcastGain, Inverter], UserGains(ids), Master, t);
    SumConcat(g, feed, [BroadcastGain], [Inverter], Master, t);
    assert [BroadcastGain] + [Inverter] == [BroadcastGain, Inverter];
    SumOne(g, feed, BroadcastGain, Master, t);
    SumOne(g, feed, Inverter, Master, t);
  }

  lemma {:induction false} InvertEachOrOnce(g: Graph, feed: Feed, ids: seq<nat>, t: real)
    ensures CancelPerTrack(g, feed, ids, t) == -SumEntries(feed, ids, t - g.delay)
    decreases |ids|
  {
    if ids != [] {
      InvertEachOrOnce(g, feed, ids[..|ids| - 1], t);
    }
  }

  /** One shared delay and inverter play exactly what a delay and an inverter for every track would. */
  lemma SharedDelayPreservesMeaning(g: Graph, feed: Feed, ids: seq<nat>, t: real)
    requires Layout(g, ids)
    ensures Output(g, feed, Destination, t) ==
            g.Gain(BroadcastGain) * feed.player(t) + CancelPerTrack(g, feed, ids, t) + UserMix(g, feed, ids, t)
  {
    SpeakerSignal(g, feed, ids, t);
    InvertEachOrOnce(g, feed, ids, t);
  }

  /**
   If the broadcast is the residue r plus the delayed tracks, the speakers play b·r, the tracks
   scaled by b − 1, and the user mix; so the broadcast copy of the tracks is gone exactly at b = 1.
   */
  lemma Cancellation(g: Graph, feed: Feed, ids: seq<nat>, t: real, r: real)
    requires Layout(g, ids)
    requires feed.player(t) == r + SumEntries(feed, ids, t - g.delay)
    ensures
      var b, delayed := g.Gain(BroadcastGain), SumEntries(feed, ids, t - g.delay);
      && Output(g, feed, Destination, t) == b * r + (b - 1.0) * delayed + UserMix(g, feed, ids, t)
      && (delayed != 0.0 ==>
            (Output(g, feed, Destination, t) == b * r + UserMix(g, feed, ids, t) <==> b == 1.0))
  {
    SpeakerSignal(g, feed, ids, t);
    CancellationArithmetic(g.Gain(BroadcastGain), r, SumEntries(feed, ids, t - g.delay));
  }

  lemma CancellationArithmetic(b: real, r: real, d: real)
    ensures b * (r + d) - d == b * r + (b - 1.0) * d
    ensures d != 0.0 ==> ((b - 1.0) * d == 0.0 <==> b == 1.0)
  {
  }

  lemma {:induction false} MixWithOtherGain(g: Graph, g': Graph, feed: Feed, ids: seq<nat>, id: nat, t: real)
    requires Distinct(ids)
    requires forall k :: k in ids && k != id ==> g'.Gain(UserGain(k)) == g.Gain(UserGain(k))
    ensures UserMix(g', feed, ids, t) - UserMix(g, feed, ids, t) ==
            if id in ids then (g'.Gain(UserGain(id)) - g.Gain(UserGain(id))) * feed.entries(id)(t) else 0.0
    decreases |ids|
  {
    if ids != [] {
      var before, last := ids[..|ids| - 1], ids[|ids| - 1];
      MixWithOtherGain(g, g', feed, before, id, t);
      if last == id {
        assert id !in before;
        assert (g'.Gain(UserGain(id)) - g.Gain(UserGain(id))) * feed.entries(id)(t)
            == g'.Gain(UserGain(id)) * feed.entries(id)(t) - g.Gain(UserGain(id)) * feed.entries(id)(t);
      } else {
        assert id in ids <==> id in before;
      }
    }
  }

  /** Moving one slider changes only that track's own lane; the cancellation and the other tracks are untouched. */
  lemma SliderChangesOneLane(g: Graph, feed: Feed, ids: seq<nat>, id: nat, u: real, t: real)
    requires Layout(g, ids) && id in ids
    ensures
      var g' := g.(gains := g.gains[UserGain(id) := u]);
      && Layout(g', ids)
      && Output(g', feed, Destination, t) - Output(g, feed, Destination, t) ==
           (u - g.Gain(UserGain(id))) * feed.entries(id)(t)
  {
    var g' := g.(gains := g.gains[UserGain(id) := u]);
    LayoutWithGain(g, ids, id, u);
    SpeakerSignal(g, feed, ids, t);
    SpeakerSignal(g', feed, ids, t);
    MixWithOtherGain(g, g', feed, ids, id, t);
    var rest := g.Gain(BroadcastGain) * feed.player(t) - SumEntries(feed, ids, t - g.delay);
    assert Output(g, feed, Destination, t) == rest + UserMix(g, feed, ids, t);
    assert Output(g', feed, Destination, t) == rest + UserMix(g', feed, ids, t);
  }

  lemma LayoutWithGain(g: Graph, ids: seq<nat>, id: nat, u: real)
    requires Layout(g, ids)
    ensures
      var g' := g.(gains := g.gains[UserGain(id) := u]);
      && Layout(g', ids) && g'.Gain(BroadcastGain) == g.Gain(BroadcastGain) && g'.Gain(UserGain(id)) == u
      && forall k :: k != id ==> g'.Gain(UserGain(k)) == g.Gain(UserGain(k))
  {
  }

  // ---- building and changing the graph ----

  function EmptyGraph(): Graph {
    Graph(map[], map[BroadcastGain := 1.0, CancellationSum := 1.0, Inverter := -1.0, Master := 1.0], 0.0)
  }

  function Base(): Graph {
    EmptyGraph()
    .Connect(Source, BroadcastGain).Connect(BroadcastGain, Master).Connect(CancellationSum, SharedDelay)
    .Connect(SharedDelay, Inverter).Connect(Inverter, Master).Connect(Master, Destination)
  }

  lemma ConnectInputs(g: Graph, a: Node, b: Node)
    requires a !in g.Inputs(b)
    ensures forall n :: g.Connect(a, b).Inputs(n) == if n == b then g.Inputs(b) + [a] else g.Inputs(n)
    ensures g.Connect(a, b).inputs.Keys == g.inputs.Keys + {b}
    ensures g.Connect(a, b).gains == g.gains && g.Connect(a, b).delay == g.delay
  {
  }

  lemma BaseInputs(g: Graph)
    requires g == Base()
    ensures g.gains == EmptyGraph().gains && g.delay == 0.0
    ensures g.inputs.Keys == {BroadcastGain, Master, SharedDelay, Inverter, Destination}
    ensures g.Inputs(BroadcastGain) == [Source] && g.Inputs(Master) == [BroadcastGain, Inverter]
    ensures g.Inputs(SharedDelay) == [CancellationSum] && g.Inputs(Inverter) == [SharedDelay]
              && g.Inputs(Destination) == [Master]
  {
    var g0 := EmptyGraph();
    ConnectInputs(g0, Source, BroadcastGain);
    var g1 := g0.Connect(Source, BroadcastGain);
    ConnectInputs(g1, BroadcastGain, Master);
    var g2 := g1.Connect(BroadcastGain, Master);
    ConnectInputs(g2, CancellationSum, SharedDelay);
    var g3 := g2.Connect(CancellationSum, SharedDelay);
    ConnectInputs(g3, SharedDelay, Inverter);
    var g4 := g3.Connect(SharedDelay, Inverter);
    ConnectInputs(g4, Inverter, Master);
    var g5 := g4.Connect(Inverter, Master);
    ConnectInputs(g5, Master, Destination);
    assert g == g5.Connect(Master, Destination);
  }

  lemma BaseLayout()
    ensures Layout(Base(), []) && Base().delay == 0.0
    ensures forall id :: UserGain(id) !in Base().inputs
    ensures Base().Gain(BroadcastGain) == 1.0
  {
    var g := Base();
    BaseInputs(g);
    assert Entries([]) == [] && UserGains([]) == [] && [BroadcastGain, Inverter] + [] == [BroadcastGain, Inverter];
  }

  function Provision(g: Graph, id: nat): Graph {
    g.(gains := g.gains[Entry(id) := 1.0][UserGain(id) := 0.5])
    .Connect(Entry(id), UserGain(id)).Connect(UserGain(id), Master).Connect(Entry(id), CancellationSum)
  }

  lemma ProvisionLayout(g: Graph, ids: seq<nat>, id: nat)
    requires Layout(g, ids) && id !in ids && UserGain(id) !in g.inputs
    ensures Layout(Provision(g, id), ids + [id])
    ensures Provision(g, id).gains == g.gains[Entry(id) := 1.0][UserGain(id) := 0.5]
              && Provision(g, id).delay == g.delay
    ensures Provision(g, id).inputs.Keys == g.inputs.Keys + {UserGain(id), Master, CancellationSum}
  {
    NotYetWired(ids, id);
    ProvisionInputs(g, id);
    AddedLayout(g, Provision(g, id), ids, id);
  }

  lemma NotYetWired(ids: seq<nat>, id: nat)
    requires id !in ids
    ensures UserGain(id) !in [BroadcastGain, Inverter] + UserGains(ids) && Entry(id) !in Entries(ids)
  {
    assert forall i :: 0 <= i < |ids| ==> ids[i] in ids;
  }

  lemma ProvisionInputs(g: Graph, id: nat)
    requires UserGain(id) !in g.inputs && UserGain(id) !in g.Inputs(Master) && Entry(id) !in g.Inputs(CancellationSum)
    ensures
      var g' := Provision(g, id);
      && g'.Inputs(UserGain(id)) == [Entry(id)]
      && g'.Inputs(Master) == g.Inputs(Master) + [UserGain(id)]
      && g'.Inputs(CancellationSum) == g.Inputs(CancellationSum) + [Entry(id)]
      && (forall n :: n != UserGain(id) && n != Master && n != CancellationSum ==> g'.Inputs(n) == g.Inputs(n))
      && g'.gains == g.gains[Entry(id) := 1.0][UserGain(id) := 0.5] && g'.delay == g.delay
      && g'.inputs.Keys == g.inputs.Keys + {UserGain(id), Master, CancellationSum}
  {
    var g0 := g.(gains := g.gains[Entry(id) := 1.0][UserGain(id) := 0.5]);
    ConnectInputs(g0, Entry(id), UserGain(id));
    var g1 := g0.Connect(Entry(id), UserGain(id));
    ConnectInputs(g1, UserGain(id), Master);
    var g2 := g1.Connect(UserGain(id), Master);
    ConnectInputs(g2, Entry(id), CancellationSum);
  }

  lemma AddedLayout(g: Graph, g': Graph, ids: seq<nat>, id: nat)
    requires Layout(g, ids) && id !in ids
    requires g'.gains == g.gains[Entry(id) := 1.0][UserGain(id) := 0.5]
    requires g'.Inputs(UserGain(id)) == [Entry(id)]
    requires g'.Inputs(Master) == g.Inputs(Master) + [UserGain(id)]
    requires g'.Inputs(CancellationSum) == g.Inputs(CancellationSum) + [Entry(id)]
    requires forall n :: n != UserGain(id) && n != Master && n != CancellationSum ==> g'.Inputs(n) == g.Inputs(n)
    ensures Layout(g', ids + [id])
  {
    AddedTrunk(g, g', ids, id);
    AddedLanes(g, g', ids, id);
  }

  lemma AddedTrunk(g: Graph, g': Graph, ids: seq<nat>, id: nat)
    requires Trunk(g, ids)
    requires g'.gains == g.gains[Entry(id) := 1.0][UserGain(id) := 0.5]
    requires g'.Inputs(Master) == g.Inputs(Master) + [UserGain(id)]
    requires g'.Inputs(CancellationSum) == g.Inputs(CancellationSum) + [Entry(id)]
    requires forall n :: n != UserGain(id) && n != Master && n != CancellationSum ==> g'.Inputs(n) == g.Inputs(n)
    ensures Trunk(g', ids + [id])
  {
    var ids' := ids + [id];
    assert UserGains(ids') == UserGains(ids) + [UserGain(id)] && Entries(ids') == Entries(ids) + [Entry(id)];
    assert ([BroadcastGain, Inverter] + UserGains(ids)) + [UserGain(id)] == [BroadcastGain, Inverter] + UserGains(ids');
  }

  lemma AddedLanes(g: Graph, g': Graph, ids: seq<nat>, id: nat)
    requires Lanes(g, ids)
    requires g'.gains == g.gains[Entry(id) := 1.0][UserGain(id) := 0.5]
    requires g'.Inputs(UserGain(id)) == [Entry(id)]
    requires forall n :: n != UserGain(id) && n != Master && n != CancellationSum ==> g'.Inputs(n) == g.Inputs(n)
    ensures Lanes(g', ids + [id])
  {
  }

  function Retire(g: Graph, id: nat): Graph {
    g.Disconnect(Entry(id)).Disconnect(UserGain(id))
  }

  lemma WithoutConcat<T>(s: seq<T>, r: seq<T>, a: T)
    ensures Without(s + r, a) == Without(s, a) + Without(r, a)
    decreases |r|
  {
    if r == [] {
      assert s + r == s;
    } else {
      assert (s + r)[..|s + r| - 1] == s + r[..|r| - 1];
      WithoutConcat(s, r[..|r| - 1], a);
    }
  }

  lemma {:induction false} WithoutAbsent<T>(s: seq<T>, a: T)
    requires a !in s
    ensures Without(s, a) == s
    decreases |s|
  {
    if s != [] {
      assert s == s[..|s| - 1] + [s[|s| - 1]];
      WithoutAbsent(s[..|s| - 1], a);
    }
  }

  lemma {:induction false} WithoutMembers<T>(s: seq<T>, a: T)
    ensures forall x :: x in Without(s, a) <==> x in s && x != a
    decreases |s|
  {
    if s != [] {
      assert s == s[..|s| - 1] + [s[|s| - 1]];
      WithoutMembers(s[..|s| - 1], a);
    }
  }

  lemma {:induction false} WithoutDistinct(ids: seq<nat>, id: nat)
    requires Distinct(ids)
    ensures Distinct(Without(ids, id))
    decreases |ids|
  {
    if ids != [] {
      var before, last := ids[..|ids| - 1], ids[|ids| - 1];
      WithoutDistinct(before, id);
      WithoutMembers(before, id);
      assert last !in before;
    }
  }

  lemma {:induction false} WithoutOne(ids: seq<nat>, id: nat)
    ensures Without(Entries(ids), Entry(id)) == Entries(Without(ids, id))
    ensures Without(UserGains(ids), UserGain(id)) == UserGains(Without(ids, id))
    decreases |ids|
  {
    if ids != [] {
      var before, last := ids[..|ids| - 1], ids[|ids| - 1];
      WithoutOne(before, id);
      assert Entries(ids)[..|ids| - 1] == Entries(before) && UserGains(ids)[..|ids| - 1] == UserGains(before);
      assert Entries(Without(before, id) + [last]) == Entries(Without(before, id)) + [Entry(last)];
      assert UserGains(Without(before, id) + [last]) == UserGains(Without(before, id)) + [UserGain(last)];
    }
  }

  /** What disconnecting both nodes of a track leaves of one node's inputs. */
  function Unplugged(from: seq<Node>, id: nat): seq<Node> {
    Without(Without(from, Entry(id)), UserGain(id))
  }

  lemma UnpluggedInputs(g: Graph, id: nat, n: Node)
    ensures Retire(g, id).Inputs(n) == Unplugged(g.Inputs(n), id)
  {
  }

  lemma UnpluggedOther(n: Node, id: nat)
    requires n != Entry(id) && n != UserGain(id)
    ensures Unplugged([n], id) == [n]
  {
    WithoutAbsent([n], Entry(id));
    WithoutAbsent([n], UserGain(id));
  }

  lemma UnpluggedEntries(ids: seq<nat>, id: nat)
    ensures Unplugged(Entries(ids), id) == Entries(Without(ids, id))
  {
    WithoutOne(ids, id);
    WithoutAbsent(Entries(Without(ids, id)), UserGain(id));
  }

  lemma UnpluggedMaster(ids: seq<nat>, id: nat)
    ensures Unplugged([BroadcastGain, Inverter] + UserGains(ids), id) ==
              [BroadcastGain, Inverter] + UserGains(Without(ids, id))
  {
    WithoutOne(ids, id);
    var mine: seq<Node> := [BroadcastGain, Inverter];
    WithoutAbsent(mine + UserGains(ids), Entry(id));
    WithoutConcat(mine, UserGains(ids), UserGain(id));
    WithoutAbsent(mine, UserGain(id));
  }

  lemma RetireFacts(g: Graph, id: nat)
    ensures
      var g' := Retire(g, id);
      && (forall n :: g'.Inputs(n) == Unplugged(g.Inputs(n), id))
      && g'.gains == g.gains && g'.delay == g.delay && g'.inputs.Keys == g.inputs.Keys
  {
    forall n ensures Retire(g, id).Inputs(n) == Unplugged(g.Inputs(n), id) {
      UnpluggedInputs(g, id, n);
    }
  }

  lemma RetireLayout(g: Graph, g': Graph, ids: seq<nat>, id: nat)
    requires Layout(g, ids) && g'.gains == g.gains
    requires forall n :: g'.Inputs(n) == Unplugged(g.Inputs(n), id)
    ensures Layout(g', Without(ids, id))
  {
    WithoutDistinct(ids, id);
    RetiredTrunk(g, g', ids, id);
    RetiredLanes(g, g', ids, id);
  }

  lemma RetiredTrunk(g: Graph, g': Graph, ids: seq<nat>, id: nat)
    requires Trunk(g, ids) && g'.gains == g.gains
    requires forall n :: g'.Inputs(n) == Unplugged(g.Inputs(n), id)
    ensures Trunk(g', Without(ids, id))
  {
    UnpluggedEntries(ids, id);
    UnpluggedMaster(ids, id);
    UnpluggedOther(Master, id);
    UnpluggedOther(Source, id);
    UnpluggedOther(SharedDelay, id);
    UnpluggedOther(CancellationSum, id);
  }

  lemma RetiredLanes(g: Graph, g': Graph, ids: seq<nat>, id: nat)
    requires Lanes(g, ids) && g'.gains == g.gains
    requires forall n :: g'.Inputs(n) == Unplugged(g.Inputs(n), id)
    ensures Lanes(g', Without(ids, id))
  {
    WithoutMembers(ids, id);
    forall k | k in Without(ids, id) ensures g'.Inputs(UserGain(k)) == [Entry(k)] && g'.Gain(Entry(k)) == 1.0 {
      UnpluggedOther(Entry(k), id);
    }
  }

  /** Slugs name different tracks of the layout, and no node number is used before its time. */
  ghost predicate NamesOk(tracks: map<string, nat>, ids: seq<nat>, nextId: nat) {
    && (forall s :: s in tracks ==> tracks[s] in ids)
    && (forall s, r :: s in tracks && r in tracks && tracks[s] == tracks[r] ==> s == r)
    && (forall id :: id in ids ==> id < nextId)
  }

  ghost predicate Unused(keys: set<Node>, nextId: nat) {
    forall id :: id >= nextId ==> UserGain(id) !in keys
  }

  function LevelsOf(gains: map<Node, real>, tracks: map<string, nat>): map<string, real> {
    map s | s in tracks :: if UserGain(tracks[s]) in gains then gains[UserGain(tracks[s])] else 1.0
  }

  lemma LevelsAfterAdd(gains: map<Node, real>, tracks: map<string, nat>, ids: seq<nat>, slug: string, id: nat)
    requires NamesOk(tracks, ids, id) && slug !in tracks
    ensures LevelsOf(gains[Entry(id) := 1.0][UserGain(id) := 0.5], tracks[slug := id]) ==
              LevelsOf(gains, tracks)[slug := 0.5]
    ensures NamesOk(tracks[slug := id], ids + [id], id + 1)
  {
  }

  lemma LevelsAfterRemove(gains: map<Node, real>, tracks: map<string, nat>, ids: seq<nat>, nextId: nat, slug: string)
    requires NamesOk(tracks, ids, nextId) && slug in tracks
    ensures LevelsOf(gains, tracks - {slug}) == LevelsOf(gains, tracks) - {slug}
    ensures NamesOk(tracks - {slug}, Without(ids, tracks[slug]), nextId)
  {
    WithoutMembers(ids, tracks[slug]);
  }

  lemma LevelsAfterSet(gains: map<Node, real>, tracks: map<string, nat>, ids: seq<nat>, nextId: nat, slug: string,
        v: real)
    requires NamesOk(tracks, ids, nextId) && slug in tracks
    ensures LevelsOf(gains[UserGain(tracks[slug]) := v], tracks) == LevelsOf(gains, tracks)[slug := v]
  {
  }

  class AudioGraph {
    var graph: Graph
    var offsetMs: real
    /** Per slug the number of its entry and user-gain nodes. */
    var tracks: map<string, nat>
    var nextId: nat
    ghost var ids: seq<nat>

    ghost predicate Valid()
      reads this
    {
      && Layout(graph, ids)
      && graph.delay == offsetMs / 1000.0
      && NamesOk(tracks, ids, nextId)
      && Unused(graph.inputs.Keys, nextId)
    }

    /** The user gain of every track. */
    ghost function Levels(): map<string, real>
      reads this
    {
      LevelsOf(graph.gains, tracks)
    }

    constructor ()
      ensures Valid() && tracks == map[] && Levels() == map[] && ids == [] && nextId == 0
      ensures offsetMs == 0.0 && graph.Gain(BroadcastGain) == 1.0
    {
      graph, offsetMs, tracks, nextId, ids := Base(), 0.0, map[], 0, [];
      new;
      BaseLayout();
    }

    method AddTrack(slug: string) returns (entry: nat)
      requires Valid()
      modifies this`graph, this`tracks, this`nextId, this`ids
      ensures Valid() && slug in tracks && entry == tracks[slug]
      ensures slug in old(tracks) ==>
                tracks == old(tracks) && Levels() == old(Levels()) && graph == old(graph) && nextId == old(nextId)
      ensures slug !in old(tracks) ==>
                && entry == old(nextId) && tracks == old(tracks)[slug := entry]
                && Levels() == old(Levels())[slug := 0.5] && ids == old(ids) + [entry] && nextId == old(nextId) + 1
      ensures entry < nextId
    {
      if slug in tracks {
        return tracks[slug];
      }
      entry := nextId;
      ProvisionLayout(graph, ids, entry);
      LevelsAfterAdd(graph.gains, tracks, ids, slug, entry);
      graph := Provision(graph, entry);
      tracks := tracks[slug := entry];
      ids := ids + [entry];
      nextId := nextId + 1;
    }

    method RemoveTrack(slug: string)
      requires Valid()
      modifies this`graph, this`tracks, this`ids
      ensures Valid() && tracks == old(tracks) - {slug} && Levels() == old(Levels()) - {slug}
      ensures ids == if slug in old(tracks) then Without(old(ids), old(tracks)[slug]) else old(ids)
    {
      if slug in tracks {
        var id := tracks[slug];
        LevelsAfterRemove(graph.gains, tracks, ids, nextId, slug);
        Unplug(id);
        tracks := tracks - {slug};
      }
    }

    /** Both nodes of a track are disconnected. */
    method Unplug(id: nat)
      requires Layout(graph, ids)
      modifies this`graph, this`ids
      ensures Layout(graph, ids) && ids == Without(old(ids), id)
      ensures graph.gains == old(graph).gains && graph.delay == old(graph).delay
                && graph.inputs.Keys == old(graph).inputs.Keys
    {
      RetireFacts(graph, id);
      RetireLayout(graph, Retire(graph, id), ids, id);
      graph := Retire(graph, id);
      ids := Without(ids, id);
    }

    function EntryNodeFor(slug: string): Option<nat>
      reads this
    {
      if slug in tracks then Some(tracks[slug]) else None
    }

    method SetTrackGain(slug: string, v: Num)
      requires Valid()
      modifies this`graph
      ensures Valid()
      ensures Levels() == if slug in tracks then old(Levels())[slug := Clamp01(v)] else old(Levels())
      ensures graph == if slug in tracks
                       then old(graph).(gains := old(graph).gains[UserGain(tracks[slug]) := Clamp01(v)])
                       else old(graph)
    {
      if slug in tracks {
        LevelsAfterSet(graph.gains, tracks, ids, nextId, slug, Clamp01(v));
        graph := graph.(gains := graph.gains[UserGain(tracks[slug]) := Clamp01(v)]);
      }
    }

    method SetBroadcastGain(v: Num)
      requires Valid()
      modifies this`graph
      ensures Valid() && Levels() == old(Levels()) && graph.Gain(BroadcastGain) == Clamp01(v)
    {
      graph := graph.(gains := graph.gains[BroadcastGain := Clamp01(v)]);
    }

    method SetOffsetMs(ms: Num)
      requires Valid()
      modifies this`graph, this`offsetMs
      ensures Valid() && Levels() == old(Levels())
      ensures 0.0 <= offsetMs <= 30000.0
      ensures ms.Fin? && 0.0 <= ms.value <= 30000.0 ==> offsetMs == ms.value
      ensures !ms.Fin? || ms.value < 0.0 ==> offsetMs == 0.0
      ensures ms.Fin? && ms.value > 30000.0 ==> offsetMs == MAX_OFFSET_MS
      ensures graph == old(graph).(delay := offsetMs / 1000.0)
    {
      var clamped := 0.0;
      if ms.Fin? {
        clamped := if ms.value > MAX_OFFSET_MS then MAX_OFFSET_MS else ms.value;
        clamped := if clamped < 0.0 then 0.0 else clamped;
      }
      offsetMs := clamped;
      graph := graph.(delay := clamped / 1000.0);
    }
  }
}
