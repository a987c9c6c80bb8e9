/**
 What becomes of the frames of one track, from the capture thread to the socket of a viewer: which
 of them are enqueued, which a viewer can be handed, and that they do arrive.
 */
module EndToEndDelivery {
  import opened EndToEnd
  import opened Wrappers
  import S = PublisherSession
  import R = RelayProtocol
  import Q = SubscriberQueue
  import G = RelayGuarantees

  // ---- what is enqueued ----

  /** The last thing the capture thread of this track did was to number a frame. */
  function Awaiting(evs: seq<Event>, t: nat): bool {
    if evs == [] then false
    else
      match evs[|evs| - 1]
      case Number(u) => u == t || Awaiting(evs[..|evs| - 1], t)
      case EnqueueAudio(u, _) => u != t && Awaiting(evs[..|evs| - 1], t)
      case _ => Awaiting(evs[..|evs| - 1], t)
  }

  /** For each numbered frame of the track that was dealt with, in order, whether its encoding succeeded. */
  function Outcomes(evs: seq<Event>, t: nat): seq<bool> {
    if evs == [] then []
    else
      var before := evs[..|evs| - 1];
      match evs[|evs| - 1]
      case EnqueueAudio(u, encoded) =>
        Outcomes(before, t) + if u == t && Awaiting(before, t) then [encoded] else []
      case _ => Outcomes(before, t)
  }

  /** The numbers, counted from one, of those that succeeded. */
  function Successes(outcomes: seq<bool>): seq<nat> {
    if outcomes == [] then []
    else Successes(outcomes[..|outcomes| - 1]) + if outcomes[|outcomes| - 1] then [|outcomes|] else []
  }

  /** The counts of a track's audio frames among some packets. */
  function AudioCounts(packets: seq<Packet>, t: nat): seq<nat> {
    if packets == [] then []
    else
      AudioCounts(packets[..|packets| - 1], t)
      + match packets[|packets| - 1]
        case Audio(u, count) => if u == t then [count] else []
        case Control => []
  }

  lemma CountsAppend(packets: seq<Packet>, p: Packet, t: nat)
    ensures AudioCounts(packets + [p], t) ==
              AudioCounts(packets, t) + if p.Audio? && p.track == t then [p.count] else []
  {
    assert (packets + [p])[..|packets|] == packets;
  }

  lemma {:induction false} ControlsCountNothing(log: seq<Packet>, log': seq<Packet>, t: nat)
    requires log <= log' && forall i :: |log| <= i < |log'| ==> log'[i] == Control
    ensures AudioCounts(log', t) == AudioCounts(log, t)
    decreases |log'|
  {
    if |log| < |log'| {
      ControlsCountNothing(log, log'[..|log'| - 1], t);
    } else {
      assert log' == log;
    }
  }

  lemma SuccessesAppend(outcomes: seq<bool>, ok: bool)
    ensures Successes(outcomes + [ok]) == Successes(outcomes) + if ok then [|outcomes| + 1] else []
  {
    assert (outcomes + [ok])[..|outcomes|] == outcomes;
  }

  /** The track's own state, and what of it is in the log. */
  ghost predicate LogAgrees(sys: System, outcomes: seq<bool>, awaiting: bool, t: nat) {
    && TrackOf(sys, t) == Track(|outcomes| + (if awaiting then 1 else 0), awaiting)
    && AudioCounts(sys.session.log, t) == Successes(outcomes)
  }

  lemma EnqueueAgrees(lim: R.Limits, sys: System, u: nat, encoded: bool, outcomes: seq<bool>, awaiting: bool, t: nat)
    requires LogAgrees(sys, outcomes, awaiting, t)
    ensures LogAgrees(Step(lim, sys, EnqueueAudio(u, encoded)),
                      outcomes + (if u == t && awaiting then [encoded] else []), u != t && awaiting, t)
  {
    assert outcomes + [] == outcomes;
    SuccessesAppend(outcomes, encoded);
    CountsAppend(sys.session.log, Audio(u, TrackOf(sys, u).count), t);
  }

  lemma NumberAgrees(lim: R.Limits, sys: System, u: nat, outcomes: seq<bool>, awaiting: bool, t: nat)
    requires LogAgrees(sys, outcomes, awaiting, t)
    ensures LogAgrees(Step(lim, sys, Number(u)), outcomes, u == t || awaiting, t)
  {
  }

  lemma OtherAgrees(lim: R.Limits, sys: System, ev: Event, outcomes: seq<bool>, awaiting: bool, t: nat)
    requires Inv(lim, sys) && LogAgrees(sys, outcomes, awaiting, t) && (ev.Session? || ev.Relay?)
    ensures LogAgrees(Step(lim, sys, ev), outcomes, awaiting, t)
  {
    if ev.Session? && SessionMay(sys, ev.sessionEvent) {
      SessionStepShape(sys, ev.sessionEvent);
      ControlsCountNothing(sys.session.log, S.Step(sys.session, ev.sessionEvent).log, t);
    }
  }

  /**
   In every run, the audio packets of a track in the publisher's log carry, in order, exactly the
   numbers of its frames whose encoding succeeded; the k-th frame has number k.
   */
  lemma LogIsWhatWasEncoded(lim: R.Limits, evs: seq<Event>, t: nat)
    ensures
      var sys := Exec(lim, Init(), evs);
      && AudioCounts(sys.session.log, t) == Successes(Outcomes(evs, t))
      && TrackOf(sys, t).count == |Outcomes(evs, t)| + (if Awaiting(evs, t) then 1 else 0)
      && TrackOf(sys, t).pending == Awaiting(evs, t)
  {
    LogAlwaysAgrees(lim, evs, t);
  }

  lemma {:induction false} LogAlwaysAgrees(lim: R.Limits, evs: seq<Event>, t: nat)
    ensures LogAgrees(Exec(lim, Init(), evs), Outcomes(evs, t), Awaiting(evs, t), t)
    decreases |evs|
  {
    if evs != [] {
      var before, ev := evs[..|evs| - 1], evs[|evs| - 1];
      LogAlwaysAgrees(lim, before, t);
      assert Inv(lim, Exec(lim, Init(), before)) by { RunOk(lim, before); }
      AgreesStep(lim, Exec(lim, Init(), before), before, ev, t);
    }
  }

  lemma AgreesStep(lim: R.Limits, sys: System, before: seq<Event>, ev: Event, t: nat)
    requires Inv(lim, sys) && LogAgrees(sys, Outcomes(before, t), Awaiting(before, t), t)
    ensures LogAgrees(Step(lim, sys, ev), Outcomes(before + [ev], t), Awaiting(before + [ev], t), t)
  {
    assert (before + [ev])[..|before|] == before;
    match ev
    case Number(u) => NumberAgrees(lim, sys, u, Outcomes(before, t), Awaiting(before, t), t);
    case EnqueueAudio(u, encoded) =>
      EnqueueAgrees(lim, sys, u, encoded, Outcomes(before, t), Awaiting(before, t), t);
    case _ => OtherAgrees(lim, sys, ev, Outcomes(before, t), Awaiting(before, t), t);
  }

  // ---- what a viewer is handed ----

  /** The relay's own run within a run of the system. */
  ghost function RelayEvents(lim: R.Limits, evs: seq<Event>): seq<R.Event<nat>> {
    if evs == [] then []
    else
      var before, ev := evs[..|evs| - 1], evs[|evs| - 1];
      RelayEvents(lim, before)
      + if ev.Relay? && RelayMay(Exec(lim, Init(), before), ev.relayEvent) then [ev.relayEvent] else []
  }

  lemma RelayPart(lim: R.Limits, sys: System, ev: Event)
    ensures Step(lim, sys, ev).relay ==
              if ev.Relay? && RelayMay(sys, ev.relayEvent) then R.Step(lim, sys.relay, ev.relayEvent) else sys.relay
  {
  }

  lemma RunAppend(lim: R.Limits, es: seq<R.Event<nat>>, e: R.Event<nat>)
    ensures G.Run(lim, es + [e]) == R.Step(lim, G.Run(lim, es), e)
  {
    assert (es + [e])[..|es|] == es;
  }

  lemma {:induction false} RelayRuns(lim: R.Limits, evs: seq<Event>)
    ensures Exec(lim, Init(), evs).relay == G.Run(lim, RelayEvents(lim, evs))
    decreases |evs|
  {
    if evs != [] {
      var before, ev := evs[..|evs| - 1], evs[|evs| - 1];
      RelayRuns(lim, before);
      RelayPart(lim, Exec(lim, Init(), before), ev);
      if ev.Relay? && RelayMay(Exec(lim, Init(), before), ev.relayEvent) {
        RunAppend(lim, RelayEvents(lim, before), ev.relayEvent);
      } else {
        assert RelayEvents(lim, evs) == RelayEvents(lim, before);
      }
    }
  }

  /** The packets behind some positions of the relay's history. */
  function PacketsAt(sys: System, positions: seq<nat>): seq<Packet> {
    seq(|positions|, i requires 0 <= i < |positions| =>
      if positions[i] < |sys.relay.history| && sys.relay.history[positions[i]] < |sys.session.log|
      then sys.session.log[sys.relay.history[positions[i]]] else Control)
  }

  /** The frames of a track that a viewer's connection has been handed, in this order, by their numbers. */
  ghost function FramesHanded(lim: R.Limits, evs: seq<Event>, v: nat, t: nat): seq<nat> {
    AudioCounts(PacketsAt(Exec(lim, Init(), evs), G.HandedOut(lim, RelayEvents(lim, evs), v)), t)
  }

  lemma {:induction false} CountsOf(packets: seq<Packet>, t: nat)
    ensures forall c :: c in AudioCounts(packets, t) <==> Audio(t, c) in packets
  {
    if packets != [] {
      CountsOf(packets[..|packets| - 1], t);
      assert packets == packets[..|packets| - 1] + [packets[|packets| - 1]];
    }
  }

  /** Packets whose counts rise within each track. */
  ghost predicate Rising(packets: seq<Packet>) {
    forall i, j ::
      0 <= i < j < |packets| && packets[i].Audio? && packets[j].Audio? && packets[i].track == packets[j].track ==>
        packets[i].count < packets[j].count
  }

  lemma {:induction false} RisingCounts(packets: seq<Packet>, t: nat)
    requires Rising(packets)
    ensures Q.Increasing(AudioCounts(packets, t))
  {
    if packets != [] {
      var before, last := packets[..|packets| - 1], packets[|packets| - 1];
      RisingCounts(before, t);
      CountsOf(before, t);
      if last.Audio? && last.track == t {
        forall i | 0 <= i < |AudioCounts(before, t)| ensures AudioCounts(before, t)[i] < last.count {
          assert Audio(t, AudioCounts(before, t)[i]) in before;
        }
      }
    }
  }

  lemma HandedAreRising(lim: R.Limits, sys: System, v: nat)
    requires Inv(lim, sys) && v in sys.relay.seats
    ensures
      var handed := PacketsAt(sys, Q.Received(sys.relay.seats[v].queue.fates));
      Rising(handed) && forall p :: p in handed ==> p == Control || p in sys.session.log
  {
    var got := Q.Received(sys.relay.seats[v].queue.fates);
    var handed := PacketsAt(sys, got);
    SeenInOrder(lim, sys, v);
    forall i, j | 0 <= i < j < |handed| && handed[i].Audio? && handed[j].Audio? && handed[i].track == handed[j].track
      ensures handed[i].count < handed[j].count
    {
      assert Seen(sys, v)[i] == got[i] && Seen(sys, v)[j] == got[j];
      HistoryIsOrdered(sys, got[i], got[j]);
    }
  }

  /**
   In every run, what a viewer is handed of a track is a strictly increasing selection of the numbers
   of the frames whose encoding succeeded: nothing repeated, reordered or made up.
   */
  lemma ViewerGetsEncodedFrames(lim: R.Limits, evs: seq<Event>, v: nat, t: nat)
    ensures Q.Increasing(FramesHanded(lim, evs, v, t))
    ensures forall c :: c in FramesHanded(lim, evs, v, t) ==> c in Successes(Outcomes(evs, t))
  {
    var sys := Exec(lim, Init(), evs);
    RelayRuns(lim, evs);
    G.HandedOutIsReceived(lim, RelayEvents(lim, evs), v);
    LogIsWhatWasEncoded(lim, evs, t);
    CountsOf(sys.session.log, t);
    if v in sys.relay.seats {
      RunOk(lim, evs);
      HandedAreRising(lim, sys, v);
      RisingCounts(PacketsAt(sys, Q.Received(sys.relay.seats[v].queue.fates)), t);
      CountsOf(PacketsAt(sys, Q.Received(sys.relay.seats[v].queue.fates)), t);
    }
  }

  // ---- that frames do arrive ----

  /** Some run comes to this. */
  ghost predicate Comes(lim: R.Limits, sys: System) {
    exists evs :: Exec(lim, Init(), evs) == sys
  }

  lemma ComesOn(lim: R.Limits, sys: System, ev: Event)
    requires Comes(lim, sys)
    ensures Comes(lim, Step(lim, sys, ev))
  {
    var evs :| Exec(lim, Init(), evs) == sys;
    assert (evs + [ev])[..|evs|] == evs;
    assert Exec(lim, Init(), evs + [ev]) == Step(lim, sys, ev);
  }

  /** One connection is up, its first k packets have been written and read, and the rest are queued. */
  ghost predicate Sending(s: S.State<Packet>, k: nat) {
    && s.phase.Up? && k == |s.fates| <= |s.log| && s.queue == R.Range(k, |s.log|)
    && |s.connections| == 1 && s.connections[0].stream == R.Range(0, k)
  }

  /** The relay's one viewer has been handed the first k packets of its one publisher, which is between two more. */
  ghost predicate Relaying(r: R.State<nat>, v: nat, k: nat) {
    && r.lock.Free? && r.handlers == map[0 := R.Holding] && r.subs == {v} && v in r.seats
    && r.history == R.Range(0, k)
    && var q := r.seats[v].queue;
       q.Open() && !q.flagged && q.buffer == [] && Q.Received(q.fates) == R.Range(0, k)
  }

  ghost predicate Flowing(sys: System, v: nat, k: nat) {
    Sending(sys.session, k) && Relaying(sys.relay, v, k) && sys.served == [0] && sys.read == [k]
  }

  lemma RangeGrows(lo: nat, hi: nat)
    requires lo <= hi
    ensures R.Range(lo, hi + 1) == R.Range(lo, hi) + [hi]
    ensures lo < hi ==> R.Range(lo, hi)[1..] == R.Range(lo + 1, hi) && R.Range(lo, hi)[0] == lo
  {
  }

  /** The service thread takes the front packet and writes it. */
  lemma Written(s: S.State<Packet>, k: nat)
    requires Sending(s, k) && k < |s.log|
    ensures Sending(S.Step(S.Step(s, S.Take), S.WriteDone(true)), k + 1)
    ensures S.Step(S.Step(s, S.Take), S.WriteDone(true)).log == s.log
    ensures |S.Step(s, S.Take).connections| == 1
  {
    RangeGrows(k, |s.log|);
    RangeGrows(0, k);
    var mid := S.Step(s, S.Take);
    assert mid.phase == S.Writing(k) && mid.queue == R.Range(k + 1, |s.log|);
    assert mid.connections[0].stream == R.Range(0, k);
  }

  lemma SessionPart(lim: R.Limits, sys: System, e: S.Event<Packet>)
    requires SessionMay(sys, e) && !e.TryConnect? && |S.Step(sys.session, e).connections| == |sys.session.connections|
    ensures Step(lim, sys, Session(e)) == sys.(session := S.Step(sys.session, e))
  {
  }

  lemma RelayOnly(lim: R.Limits, sys: System, e: R.Event<nat>)
    requires !e.Claim? && !e.BeginCast?
    ensures Step(lim, sys, Relay(e)) == sys.(relay := R.Step(lim, sys.relay, e))
  {
  }

  /** In the broadcast of packet k: its handler, and the viewer's queue. */
  ghost predicate During(r: R.State<nat>, v: nat, k: nat, h: R.Handler, q: Q.Queue<nat>) {
    && r.lock.Free? && r.handlers == map[0 := h] && r.subs == {v} && v in r.seats && r.seats[v].queue == q
    && r.history == R.Range(0, k + 1) && r.scratch != [] && r.scratch[0] == v
  }

  lemma CastStarts(lim: R.Limits, r: R.State<nat>, v: nat, k: nat)
    requires Relaying(r, v, k)
    ensures
      var begun := R.Step(lim, r, R.BeginCast(0, k, [v]));
      && During(begun, v, k, R.Casting(k, [v], 0, Q.Check), r.seats[v].queue)
      && begun.history == r.history + [k]
  {
    RangeGrows(0, k);
    assert R.Enumerates([v], r.subs);
  }

  lemma CastChecks(lim: R.Limits, r: R.State<nat>, v: nat, k: nat, q: Q.Queue<nat>)
    requires During(r, v, k, R.Casting(k, [v], 0, Q.Check), q) && !q.flagged
    ensures During(R.Step(lim, r, R.CastStep(0)), v, k, R.Casting(k, [v], 0, Q.First), q)
  {
  }

  lemma CastSends(lim: R.Limits, r: R.State<nat>, v: nat, k: nat, q: Q.Queue<nat>)
    requires During(r, v, k, R.Casting(k, [v], 0, Q.First), q) && q.Open() && q.buffer == []
    ensures During(R.Step(lim, r, R.CastStep(0)), v, k, R.Casting(k, [v], 1, Q.Check), q.(buffer := [k]))
  {
  }

  lemma CastEnds(lim: R.Limits, r: R.State<nat>, v: nat, k: nat, q: Q.Queue<nat>)
    requires During(r, v, k, R.Casting(k, [v], 1, Q.Check), q)
    ensures During(R.Step(lim, r, R.CastStep(0)), v, k, R.Holding, q)
  {
  }

  lemma ReadsIt(lim: R.Limits, r: R.State<nat>, v: nat, k: nat, q: Q.Queue<nat>)
    requires During(r, v, k, R.Holding, q.(buffer := [k])) && q.Open() && !q.flagged
    requires Q.Received(q.fates) == R.Range(0, k)
    ensures Relaying(R.Step(lim, r, R.ReadOne(v)), v, k + 1)
  {
    RangeGrows(0, k);
    Q.DepartedAppend(q.fates, Q.Taken(k));
  }

  /** A packet is cast to the one viewer, whose empty queue takes it at once, and is read. */
  lemma CastAndRead(lim: R.Limits, r: R.State<nat>, v: nat, k: nat)
    requires Relaying(r, v, k)
    ensures
      var begun := R.Step(lim, r, R.BeginCast(0, k, [v]));
      var done := R.Step(lim, R.Step(lim, R.Step(lim, begun, R.CastStep(0)), R.CastStep(0)), R.CastStep(0));
      Relaying(R.Step(lim, done, R.ReadOne(v)), v, k + 1) && begun.history == r.history + [k]
  {
    var q := r.seats[v].queue;
    CastStarts(lim, r, v, k);
    var begun := R.Step(lim, r, R.BeginCast(0, k, [v]));
    CastChecks(lim, begun, v, k, q);
    var first := R.Step(lim, begun, R.CastStep(0));
    CastSends(lim, first, v, k, q);
    var second := R.Step(lim, first, R.CastStep(0));
    CastEnds(lim, second, v, k, q.(buffer := [k]));
    ReadsIt(lim, R.Step(lim, second, R.CastStep(0)), v, k, q);
  }

  lemma OneMore(lim: R.Limits, sys: System, v: nat, k: nat) returns (sys': System)
    requires Comes(lim, sys) && Flowing(sys, v, k) && k < |sys.session.log|
    ensures Comes(lim, sys') && Flowing(sys', v, k + 1)
    ensures sys'.session.log == sys.session.log && sys'.tracks == sys.tracks
  {
    Written(sys.session, k);
    SessionPart(lim, sys, S.Take);
    ComesOn(lim, sys, Session(S.Take));
    var taken := Step(lim, sys, Session(S.Take));
    SessionPart(lim, taken, S.WriteDone(true));
    ComesOn(lim, taken, Session(S.WriteDone(true)));
    var written := Step(lim, taken, Session(S.WriteDone(true)));
    sys' := ReadAndCast(lim, written, v, k);
  }

  lemma ReadAndCast(lim: R.Limits, sys: System, v: nat, k: nat) returns (sys': System)
    requires Comes(lim, sys) && Sending(sys.session, k + 1) && Relaying(sys.relay, v, k)
    requires sys.served == [0] && sys.read == [k]
    ensures Comes(lim, sys') && Flowing(sys', v, k + 1)
    ensures sys'.session == sys.session && sys'.tracks == sys.tracks
  {
    CastAndRead(lim, sys.relay, v, k);
    var begun := CastBegins(lim, sys, v, k);
    ComesOn(lim, sys, Relay(R.BeginCast(0, k, [v])));
    RelayOnly(lim, begun, R.CastStep(0));
    ComesOn(lim, begun, Relay(R.CastStep(0)));
    var first := Step(lim, begun, Relay(R.CastStep(0)));
    RelayOnly(lim, first, R.CastStep(0));
    ComesOn(lim, first, Relay(R.CastStep(0)));
    var second := Step(lim, first, Relay(R.CastStep(0)));
    RelayOnly(lim, second, R.CastStep(0));
    ComesOn(lim, second, Relay(R.CastStep(0)));
    var done := Step(lim, second, Relay(R.CastStep(0)));
    RelayOnly(lim, done, R.ReadOne(v));
    ComesOn(lim, done, Relay(R.ReadOne(v)));
    sys' := Step(lim, done, Relay(R.ReadOne(v)));
  }

  lemma CastBegins(lim: R.Limits, sys: System, v: nat, k: nat) returns (begun: System)
    requires Sending(sys.session, k + 1) && Relaying(sys.relay, v, k) && sys.served == [0] && sys.read == [k]
    requires R.Step(lim, sys.relay, R.BeginCast(0, k, [v])).history == sys.relay.history + [k]
    ensures begun == Step(lim, sys, Relay(R.BeginCast(0, k, [v])))
    ensures begun == sys.(relay := R.Step(lim, sys.relay, R.BeginCast(0, k, [v])), read := [k + 1])
  {
    assert Serves(sys, 0, 0) && HasUnread(sys, 0) && NextUnread(sys, 0) == k;
    assert RelayMay(sys, R.BeginCast(0, k, [v]));
    begun := Step(lim, sys, Relay(R.BeginCast(0, k, [v])));
    assert forall j :: Serves(sys, 0, j) ==> j == 0;
    assert sys.read[0 := k + 1] == [k + 1];
  }

  /** Connected, with HELLO and TRACK_LIST queued. */
  lemma Connects(lim: R.Limits) returns (sys: System)
    ensures Comes(lim, sys) && Sending(sys.session, 0) && sys.session.log == [Control, Control]
    ensures sys.served == [0] && sys.read == [0] && sys.tracks == map[]
    ensures sys.relay == R.Init<nat>().(hasPub := true, handlers := map[0 := R.Holding])
  {
    assert Exec(lim, Init(), []) == Init();
    var e1, e2 := Session(S.TryConnect(true)), Relay(R.Claim(0));
    ComesOn(lim, Init(), e1);
    var dialled := Step(lim, Init(), e1);
    assert dialled == Init().(session := S.Init<Packet>().(connecting := true, phase := S.Connecting), attempts := 1);
    ComesOn(lim, dialled, e2);
    var claimed := Step(lim, dialled, e2);
    assert claimed == dialled.(relay := R.Init<nat>().(hasPub := true, handlers := map[0 := R.Holding]),
                               claimed := {0});
    var greeting := Greets(lim, claimed);
    sys := Announces(lim, greeting);
  }

  lemma Greets(lim: R.Limits, sys: System) returns (sys': System)
    requires Comes(lim, sys) && sys.attempts == 1 && sys.claimed == {0} && sys.served == [] && sys.read == []
    requires sys.session == S.Init<Packet>().(connecting := true, phase := S.Connecting)
    ensures Comes(lim, sys')
    ensures sys' == sys.(session := S.State([], [], [], S.Greeting, [S.Connection(0, None, None, [], [], [])],
                                            true, false, 0, 0, 0),
                         served := [0], read := [0])
  {
    SessionPart(lim, sys, S.Established);
    ComesOn(lim, sys, Session(S.Established));
    var up := Step(lim, sys, Session(S.Established));
    assert up == sys.(session := S.Init<Packet>().(connected := true, phase := S.Clearing));
    ComesOn(lim, up, Session(S.ClearQueue));
    sys' := Step(lim, up, Session(S.ClearQueue));
    assert S.Repeat(S.Cleared, 0) == [];
  }

  lemma Announces(lim: R.Limits, sys: System) returns (sys': System)
    requires Comes(lim, sys)
    requires sys.session == S.State([], [], [], S.Greeting, [S.Connection(0, None, None, [], [], [])],
                                    true, false, 0, 0, 0)
    ensures Comes(lim, sys') && sys' == sys.(session := sys'.session)
    ensures Sending(sys'.session, 0) && sys'.session.log == [Control, Control]
  {
    var c := S.Connection(0, None, None, [], [], []);
    SessionPart(lim, sys, S.Hello(Control));
    ComesOn(lim, sys, Session(S.Hello(Control)));
    HelloQueued(sys.session, c);
    var listing := Step(lim, sys, Session(S.Hello(Control)));
    SessionPart(lim, listing, S.TrackList(Control));
    ComesOn(lim, listing, Session(S.TrackList(Control)));
    ListQueued(listing.session, c.(hello := Some(0)));
    sys' := Step(lim, listing, Session(S.TrackList(Control)));
  }

  lemma HelloQueued(s: S.State<Packet>, c: S.Connection)
    requires s == S.State([], [], [], S.Greeting, [c], true, false, 0, 0, 0)
    ensures S.Step(s, S.Hello(Control))
         == S.State([Control], [0], [], S.Listing, [c.(hello := Some(0))], true, false, 0, 0, 0)
  {
  }

  lemma ListQueued(s: S.State<Packet>, c: S.Connection)
    requires s == S.State([Control], [0], [], S.Listing, [c], true, false, 0, 0, 0) && c.stream == []
    ensures
      var s' := S.Step(s, S.TrackList(Control));
      Sending(s', 0) && s'.log == [Control, Control]
  {
    assert R.Range(0, 2) == [0, 1] && R.Range(0, 0) == [];
  }

  /** With a viewer, and the two announcements through. */
  lemma StartsFlowing(lim: R.Limits, v: nat) returns (sys: System)
    requires lim.maxSubs >= 1
    ensures Comes(lim, sys) && Flowing(sys, v, 2) && sys.session.log == [Control, Control] && sys.tracks == map[]
  {
    var connected := Connects(lim);
    RelayOnly(lim, connected, R.Subscribe(v));
    ComesOn(lim, connected, Relay(R.Subscribe(v)));
    var watched := Step(lim, connected, Relay(R.Subscribe(v)));
    assert R.Range(0, 0) == [];
    var one := OneMore(lim, watched, v, 0);
    sys := OneMore(lim, one, v, 1);
  }

  /** n frames of the track have gone all the way. */
  ghost predicate Arrived(sys: System, v: nat, t: nat, n: nat) {
    && Flowing(sys, v, n + 2) && |sys.session.log| == n + 2
    && TrackOf(sys, t) == Track(n, false) && AudioCounts(sys.session.log, t) == R.Range(1, n + 1)
  }

  lemma NextFrame(lim: R.Limits, sys: System, v: nat, t: nat, n: nat) returns (sys': System)
    requires Comes(lim, sys) && Arrived(sys, v, t, n)
    ensures Comes(lim, sys') && Arrived(sys', v, t, n + 1)
  {
    ComesOn(lim, sys, Number(t));
    var numbered := Step(lim, sys, Number(t));
    assert numbered == sys.(tracks := sys.tracks[t := Track(n + 1, true)]);
    ComesOn(lim, numbered, EnqueueAudio(t, true));
    var queued := Step(lim, numbered, EnqueueAudio(t, true));
    Enqueued(sys.session, n + 2, Audio(t, n + 1));
    CountsAppend(sys.session.log, Audio(t, n + 1), t);
    RangeGrows(1, n + 1);
    sys' := OneMore(lim, queued, v, n + 2);
  }

  lemma Enqueued(s: S.State<Packet>, k: nat, p: Packet)
    requires Sending(s, k) && |s.log| == k
    ensures
      var s' := S.Step(s, S.Enqueue(p));
      Sending(s', k) && s'.log == s.log + [p]
  {
    assert R.Range(k, k) == [] && R.Range(k, k + 1) == [k];
  }

  lemma {:induction false} FramesFlow(lim: R.Limits, v: nat, t: nat, n: nat) returns (sys: System)
    requires lim.maxSubs >= 1
    ensures Comes(lim, sys) && Arrived(sys, v, t, n)
    decreases n
  {
    if n == 0 {
      sys := StartsFlowing(lim, v);
      ControlsCountNothing([], [Control, Control], t);
      assert |R.Range(1, 1)| == 0;
    } else {
      var before := FramesFlow(lim, v, t, n - 1);
      sys := NextFrame(lim, before, v, t, n - 1);
    }
  }

  /** And they do arrive: for every n there is a run in which a viewer is handed the frames 1 to n of a track. */
  lemma FramesArrive(lim: R.Limits, v: nat, t: nat, n: nat)
    requires lim.maxSubs >= 1
    ensures exists evs :: FramesHanded(lim, evs, v, t) == R.Range(1, n + 1)
  {
    var sys := FramesFlow(lim, v, t, n);
    var evs :| Exec(lim, Init(), evs) == sys;
    RelayRuns(lim, evs);
    G.HandedOutIsReceived(lim, RelayEvents(lim, evs), v);
    assert PacketsAt(sys, R.Range(0, n + 2)) == sys.session.log;
    assert FramesHanded(lim, evs, v, t) == R.Range(1, n + 1);
  }
}
