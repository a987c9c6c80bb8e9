/**
 One publisher process, its connections, and the relay channel it publishes to, side by side:
 the capture threads number and enqueue audio, the session of PublisherSession sends it, and the
 channel of RelayProtocol fans it out. The network keeps order within a connection and may
 lose a tail: the relay handler of a connection reads a prefix of what was written on it.

 Relay handlers are known by the connection attempt they serve. The client sees its handshake
 complete only after its handler has claimed the channel, since the relay accepts the socket
 after the claim. Relay history entries are serials of the publisher's log, never looked into.
 */
module EndToEnd {
  import S = PublisherSession
  import R = RelayProtocol
  import Q = SubscriberQueue
  import G = RelayGuarantees

  const U32 := 0x1_0000_0000

  /** An audio frame carries how many frames its track had numbered, modulo 2^32 on the wire. */
  datatype Packet = Audio(track: nat, count: nat) | Control

  function SeqOnWire(p: Packet): nat
    requires p.Audio?
  {
    p.count % U32
  }

  /** A capture thread numbers a frame and enqueues it under its track's own lock. */
  datatype Track = Track(count: nat, pending: bool)

  datatype System = System(
    tracks: map<nat, Track>,
    session: S.State<Packet>,
    relay: R.State<nat>,
    attempts: nat,
    claimed: set<nat>,
    served: seq<nat>,
    read: seq<nat>)

  datatype Event =
    | Number(track: nat)
    | EnqueueAudio(track: nat, encoded: bool)
    | Session(sessionEvent: S.Event<Packet>)
    | Relay(relayEvent: R.Event<nat>)

  function Init(): System {
    System(map[], S.Init(), R.Init(), 0, {}, [], [])
  }

  function TrackOf(sys: System, t: nat): Track {
    if t in sys.tracks then sys.tracks[t] else Track(0, false)
  }

  /** The capture threads are the only ones to enqueue audio; the announcements carry no track. */
  predicate SessionMay(sys: System, ev: S.Event<Packet>) {
    && !ev.Enqueue?
    && (ev.Hello? || ev.TrackList? ==> ev.packet == Control)
    && (ev.Established? ==> sys.attempts > 0 && sys.attempts - 1 in sys.claimed)
  }

  /** Handler t forwards the next unread packet of the connection it serves, and claims at most once. */
  ghost predicate RelayMay(sys: System, ev: R.Event<nat>) {
    && (ev.Claim? ==> ev.tid < sys.attempts && ev.tid !in sys.claimed)
    && (ev.BeginCast? ==> exists k :: Serves(sys, ev.tid, k) && HasUnread(sys, k) && ev.message == NextUnread(sys, k))
  }

  predicate Serves(sys: System, t: nat, k: int) {
    0 <= k < |sys.served| && sys.served[k] == t
  }

  predicate HasUnread(sys: System, k: nat) {
    k < |sys.session.connections| && k < |sys.read| && sys.read[k] < |sys.session.connections[k].stream|
  }

  function NextUnread(sys: System, k: nat): nat
    requires HasUnread(sys, k)
  {
    sys.session.connections[k].stream[sys.read[k]]
  }

  ghost function Step(lim: R.Limits, sys: System, ev: Event): System {
    match ev
    case Number(t) =>
      var tr := TrackOf(sys, t);
      if tr.pending then sys else sys.(tracks := sys.tracks[t := Track(tr.count + 1, true)])
    case EnqueueAudio(t, encoded) =>
      var tr := TrackOf(sys, t);
      if !tr.pending then sys
      else
        var sys' := sys.(tracks := sys.tracks[t := Track(tr.count, false)]);
        if encoded then sys'.(session := S.Step(sys.session, S.Enqueue(Audio(t, tr.count)))) else sys'
    case Session(e) =>
      if !SessionMay(sys, e) then sys
      else
        var s' := S.Step(sys.session, e);
        var began := e.TryConnect? && s'.phase.Connecting? && sys.session.phase.Down?;
        var newConn := |s'.connections| > |sys.session.connections| && sys.attempts > 0;
        sys.(session := s',
             attempts := sys.attempts + if began then 1 else 0,
             served := if newConn then sys.served + [sys.attempts - 1] else sys.served,
             read := if newConn then sys.read + [0] else sys.read)
    case Relay(e) =>
      if !RelayMay(sys, e) then sys
      else
        var r' := R.Step(lim, sys.relay, e);
        var sys' := sys.(relay := r');
        if e.Claim? && e.tid in r'.handlers then sys'.(claimed := sys.claimed + {e.tid})
        else if |r'.history| > |sys.relay.history| && e.BeginCast? then
          var k :| Serves(sys, e.tid, k) && HasUnread(sys, k) && e.message == NextUnread(sys, k);
          sys'.(read := sys.read[k := sys.read[k] + 1])
        else sys'
  }

  ghost function Exec(lim: R.Limits, sys: System, evs: seq<Event>): System {
    if evs == [] then sys else Step(lim, Exec(lim, sys, evs[..|evs| - 1]), evs[|evs| - 1])
  }

  // ---- invariants of the parts and of the seams ----

  /** Within a track, later packets of the log carry higher counts. */
  ghost predicate TracksOk(sys: System) {
    var log := sys.session.log;
    && (forall i :: 0 <= i < |log| && log[i].Audio? ==>
          var tr := TrackOf(sys, log[i].track);
          1 <= log[i].count <= tr.count && (tr.pending ==> log[i].count < tr.count))
    && (forall i, j :: 0 <= i < j < |log| && log[i].Audio? && log[j].Audio? && log[i].track == log[j].track ==>
          log[i].count < log[j].count)
    && (forall t :: t in sys.tracks && sys.tracks[t].pending ==> sys.tracks[t].count >= 1)
  }

  ghost predicate ServingOk(sys: System) {
    var s := sys.session;
    && |sys.served| == |sys.read| == |s.connections|
    && (forall k :: 0 <= k < |sys.read| ==> sys.read[k] <= |s.connections[k].stream|)
    && (forall j, k :: 0 <= j < k < |sys.served| ==> sys.served[j] != sys.served[k])
    && (forall k :: 0 <= k < |sys.served| ==> sys.served[k] in sys.claimed)
    && (forall k :: 0 <= k < |sys.served| ==>
          sys.served[k] < sys.attempts - if s.phase.Connecting? || s.phase.Clearing? then 1 else 0)
    && (s.phase.Connecting? ==> sys.attempts > 0)
    && (s.phase.Clearing? ==> sys.attempts > 0 && sys.attempts - 1 in sys.claimed)
    && (forall t :: t in sys.relay.handlers ==> t in sys.claimed)
  }

  /** Everything the relay has is older than whatever can still be sent or read. */
  ghost predicate HistoryOk(sys: System) {
    var h := sys.relay.history;
    && Q.Increasing(h)
    && (forall i :: 0 <= i < |h| ==> h[i] < SentBelow(sys.session))
    && (forall k, u :: 0 <= k < |sys.served| && sys.served[k] in sys.relay.handlers
                       && k < |sys.read| && k < |sys.session.connections|
                       && sys.read[k] <= u < |sys.session.connections[k].stream| ==>
          forall i :: 0 <= i < |h| ==> h[i] < sys.session.connections[k].stream[u])
  }

  function SentBelow(s: S.State<Packet>): nat {
    if s.phase.Writing? then s.phase.serial else |s.fates|
  }

  ghost predicate Inv(lim: R.Limits, sys: System) {
    && S.Inv(sys.session) && R.Inv(lim, sys.relay)
    && TracksOk(sys) && ServingOk(sys) && HistoryOk(sys)
  }

  lemma StreamBelow(s: S.State<Packet>, k: nat, u: nat)
    requires S.Inv(s) && k < |s.connections| && u < |s.connections[k].stream|
    ensures s.connections[k].stream[u] < SentBelow(s) <= |s.log|
    ensures forall v :: 0 <= v < u ==> s.connections[k].stream[v] < s.connections[k].stream[u]
  {
    var c := s.connections[k];
    assert S.ConnectionOk(c, |s.log|, s.fates);
    assert c.stream[u] == c.writes[u];
    assert forall v :: 0 <= v < u ==> c.stream[v] == c.writes[v];
    if s.phase.Writing? {
      var last := S.Current(s);
      assert S.LiveOk(s);
      assert S.ConnectionOk(last, |s.log|, s.fates);
      assert last.writes[|last.stream|] == s.phase.serial;
      if k < |s.connections| - 1 {
        assert S.Precedes(c, last);
      }
    }
  }

  lemma NumberOk(lim: R.Limits, sys: System, t: nat)
    requires Inv(lim, sys)
    ensures Inv(lim, Step(lim, sys, Number(t)))
  {
  }

  lemma EnqueueAudioOk(lim: R.Limits, sys: System, t: nat, encoded: bool)
    requires Inv(lim, sys)
    ensures Inv(lim, Step(lim, sys, EnqueueAudio(t, encoded)))
  {
    if TrackOf(sys, t).pending {
      var sys' := Step(lim, sys, EnqueueAudio(t, encoded));
      if encoded {
        S.PushOk(sys.session, Audio(t, TrackOf(sys, t).count));
        EnqueueKeepsSeams(sys, sys', Audio(t, TrackOf(sys, t).count));
      }
      EnqueueKeepsTracks(sys, sys', t, encoded);
    }
  }

  lemma EnqueueKeepsTracks(sys: System, sys': System, t: nat, encoded: bool)
    requires TracksOk(sys) && TrackOf(sys, t).pending
    requires sys'.tracks == sys.tracks[t := Track(TrackOf(sys, t).count, false)]
    requires sys'.session.log ==
               if encoded then sys.session.log + [Audio(t, TrackOf(sys, t).count)] else sys.session.log
    ensures TracksOk(sys')
  {
  }

  lemma EnqueueKeepsSeams(sys: System, sys': System, p: Packet)
    requires ServingOk(sys) && HistoryOk(sys)
    requires sys' == sys.(tracks := sys'.tracks, session := S.Step(sys.session, S.Enqueue(p)))
    ensures ServingOk(sys') && HistoryOk(sys')
  {
    assert sys'.session.connections == sys.session.connections && sys'.session.phase == sys.session.phase;
    assert SentBelow(sys.session) <= SentBelow(sys'.session);
  }

  /** How a step of the session looks to the seams: no audio is logged, and at most one stream grows, at its end. */
  ghost predicate SeamStep(s: S.State<Packet>, s': S.State<Packet>) {
    && s.log <= s'.log
    && (forall i :: |s.log| <= i < |s'.log| ==> s'.log[i] == Control)
    && (|s'.connections| == |s.connections|
        || (s.phase.Clearing? && s'.phase.Greeting? && |s'.connections| == |s.connections| + 1
            && s'.connections[|s.connections|].stream == []))
    && (forall k :: 0 <= k < |s.connections| ==> StreamStep(s, s.connections[k], s'.connections[k]))
    && SentBelow(s) <= SentBelow(s')
  }

  ghost predicate StreamStep(s: S.State<Packet>, c: S.Connection, c': S.Connection) {
    c'.stream == c.stream || (s.phase.Writing? && c'.stream == c.stream + [s.phase.serial])
  }

  lemma SessionStepShape(sys: System, e: S.Event<Packet>)
    requires S.QueueOk(sys.session) && S.CountersOk(sys.session) && SessionMay(sys, e)
    ensures SeamStep(sys.session, S.Step(sys.session, e))
  {
    var s, s' := sys.session, S.Step(sys.session, e);
    forall k | 0 <= k < |s.connections| ensures StreamStep(s, s.connections[k], s'.connections[k]) {
    }
  }

  lemma SessionKeepsTracks(sys: System, sys': System)
    requires TracksOk(sys) && sys'.tracks == sys.tracks && SeamStep(sys.session, sys'.session)
    ensures TracksOk(sys')
  {
    var log, log' := sys.session.log, sys'.session.log;
    assert forall i :: 0 <= i < |log'| && log'[i].Audio? ==> i < |log| && log'[i] == log[i];
  }

  lemma SessionKeepsServing(lim: R.Limits, sys: System, e: S.Event<Packet>)
    requires ServingOk(sys) && SessionMay(sys, e)
    requires SeamStep(sys.session, S.Step(sys.session, e))
    ensures ServingOk(Step(lim, sys, Session(e)))
  {
    var s, s' := sys.session, S.Step(sys.session, e);
    var sys' := Step(lim, sys, Session(e));
    forall k | 0 <= k < |sys'.read| ensures sys'.read[k] <= |s'.connections[k].stream| {
      if k < |sys.read| {
        assert StreamStep(s, s.connections[k], s'.connections[k]);
      }
    }
  }

  lemma SessionKeepsHistory(sys: System, sys': System)
    requires ServingOk(sys) && HistoryOk(sys) && SeamStep(sys.session, sys'.session) && sys'.relay == sys.relay
    requires |sys'.served| == |sys'.read| == |sys'.session.connections|
    requires sys.served <= sys'.served && sys.read <= sys'.read
    ensures HistoryOk(sys')
  {
    var s, s', h := sys.session, sys'.session, sys.relay.history;
    forall k, u | 0 <= k < |sys'.served| && sys'.served[k] in sys'.relay.handlers
                  && k < |sys'.read| && k < |s'.connections| && sys'.read[k] <= u < |s'.connections[k].stream|
      ensures forall i :: 0 <= i < |h| ==> h[i] < s'.connections[k].stream[u]
    {
      if k < |s.connections| {
        assert StreamStep(s, s.connections[k], s'.connections[k]);
        assert sys'.served[k] == sys.served[k] && sys'.read[k] == sys.read[k];
        if u < |s.connections[k].stream| {
          assert s'.connections[k].stream[u] == s.connections[k].stream[u];
        } else {
          assert s'.connections[k].stream[u] == s.phase.serial;
        }
      }
    }
  }

  lemma SessionOk(lim: R.Limits, sys: System, e: S.Event<Packet>)
    requires Inv(lim, sys)
    ensures Inv(lim, Step(lim, sys, Session(e)))
  {
    if SessionMay(sys, e) {
      var sys' := Step(lim, sys, Session(e));
      S.StepOk(sys.session, e);
      SessionStepShape(sys, e);
      SessionKeepsTracks(sys, sys');
      SessionKeepsServing(lim, sys, e);
      SessionKeepsHistory(sys, sys');
    }
  }

  /** Relay steps other than a claim or the start of a broadcast add no handler and no history. */
  lemma RelayStepShape(lim: R.Limits, r: R.State<nat>, e: R.Event<nat>)
    requires !e.BeginCast?
    ensures
      var r' := R.Step(lim, r, e);
      r'.history == r.history && forall t :: t in r'.handlers && t !in r.handlers ==> e.Claim? && t == e.tid
  {
  }

  lemma OtherRelayOk(lim: R.Limits, sys: System, e: R.Event<nat>)
    requires ServingOk(sys) && HistoryOk(sys) && TracksOk(sys) && RelayMay(sys, e) && !e.BeginCast?
    ensures
      var sys' := Step(lim, sys, Relay(e));
      ServingOk(sys') && HistoryOk(sys') && TracksOk(sys')
  {
    var sys' := Step(lim, sys, Relay(e));
    RelayStepShape(lim, sys.relay, e);
    forall k | 0 <= k < |sys'.served| && sys'.served[k] in sys'.relay.handlers
      ensures sys.served[k] in sys.relay.handlers
    {
      assert sys.served[k] in sys.claimed;
    }
  }

  lemma ReadOk(lim: R.Limits, sys: System, e: R.Event<nat>)
    requires Inv(lim, sys) && RelayMay(sys, e) && e.BeginCast?
    ensures
      var sys' := Step(lim, sys, Relay(e));
      ServingOk(sys') && HistoryOk(sys') && TracksOk(sys')
  {
    var sys' := Step(lim, sys, Relay(e));
    var r, r' := sys.relay, R.Step(lim, sys.relay, e);
    if |r'.history| > |r.history| {
      var k :| Serves(sys, e.tid, k) && HasUnread(sys, k) && e.message == NextUnread(sys, k);
      ReadShape(lim, sys, e, k);
      ReadKeepsHistory(sys, sys', e.tid, k);
      ReadKeepsServing(sys, sys', k);
    }
  }

  /** A broadcast that starts moves one read position on. */
  lemma ReadShape(lim: R.Limits, sys: System, e: R.Event<nat>, k: nat)
    requires ServingOk(sys) && RelayMay(sys, e) && e.BeginCast? && R.ControlOk(lim, sys.relay)
    requires Serves(sys, e.tid, k) && HasUnread(sys, k) && e.message == NextUnread(sys, k)
    requires |R.Step(lim, sys.relay, e).history| > |sys.relay.history|
    ensures
      var sys' := Step(lim, sys, Relay(e));
      && sys' == sys.(relay := sys'.relay, read := sys.read[k := sys.read[k] + 1])
      && sys'.relay.history == sys.relay.history + [NextUnread(sys, k)]
      && sys'.relay.handlers.Keys == sys.relay.handlers.Keys
      && (forall u :: u in sys.relay.handlers <==> u == e.tid)
  {
    forall j | Serves(sys, e.tid, j) ensures j == k {
    }
  }

  lemma ReadKeepsServing(sys: System, sys': System, k: nat)
    requires ServingOk(sys) && HasUnread(sys, k)
    requires sys' == sys.(relay := sys'.relay, read := sys.read[k := sys.read[k] + 1])
    requires sys'.relay.handlers.Keys == sys.relay.handlers.Keys
    ensures ServingOk(sys')
  {
    forall t | t in sys'.relay.handlers ensures t in sys.claimed {
      assert t in sys'.relay.handlers.Keys;
    }
  }

  /** The packet just read is newer than the whole history and older than all that is still unread or unsent. */
  lemma ReadKeepsHistory(sys: System, sys': System, t: nat, k: nat)
    requires ServingOk(sys) && HistoryOk(sys) && S.Inv(sys.session) && Serves(sys, t, k) && HasUnread(sys, k)
    requires forall u :: u in sys.relay.handlers <==> u == t
    requires forall u :: u in sys'.relay.handlers <==> u == t
    requires sys'.session == sys.session && sys'.served == sys.served && sys'.read == sys.read[k := sys.read[k] + 1]
    requires sys'.relay.history == sys.relay.history + [NextUnread(sys, k)]
    ensures HistoryOk(sys')
  {
    var x, h' := NextUnread(sys, k), sys'.relay.history;
    var stream := sys.session.connections[k].stream;
    StreamBelow(sys.session, k, sys.read[k]);
    forall j, u | 0 <= j < |sys'.served| && sys'.served[j] in sys'.relay.handlers
                  && j < |sys'.read| && j < |sys'.session.connections|
                       && sys'.read[j] <= u < |sys'.session.connections[j].stream|
      ensures forall i :: 0 <= i < |h'| ==> h'[i] < sys'.session.connections[j].stream[u]
    {
      assert j == k;
      StreamBelow(sys.session, k, u);
      assert x < stream[u];
    }
  }

  lemma RelayOk(lim: R.Limits, sys: System, e: R.Event<nat>)
    requires Inv(lim, sys)
    ensures Inv(lim, Step(lim, sys, Relay(e)))
  {
    if RelayMay(sys, e) {
      R.StepOk(lim, sys.relay, e);
      if e.BeginCast? {
        ReadOk(lim, sys, e);
      } else {
        OtherRelayOk(lim, sys, e);
      }
    }
  }

  lemma StepOk(lim: R.Limits, sys: System, ev: Event)
    requires Inv(lim, sys)
    ensures Inv(lim, Step(lim, sys, ev))
  {
    match ev
    case Number(t) => NumberOk(lim, sys, t);
    case EnqueueAudio(t, encoded) => EnqueueAudioOk(lim, sys, t, encoded);
    case Session(e) => SessionOk(lim, sys, e);
    case Relay(e) => RelayOk(lim, sys, e);
  }

  lemma {:induction false} RunOk(lim: R.Limits, evs: seq<Event>)
    ensures Inv(lim, Exec(lim, Init(), evs))
    decreases |evs|
  {
    if evs == [] {
      R.InitOk<nat>(lim);
    } else {
      RunOk(lim, evs[..|evs| - 1]);
      StepOk(lim, Exec(lim, Init(), evs[..|evs| - 1]), evs[|evs| - 1]);
    }
  }

  // ---- the end-to-end guarantee ----

  /** What viewer v has received and then what is queued for it, as positions of the relay history. */
  ghost function Seen(sys: System, v: nat): seq<nat>
    requires v in sys.relay.seats
  {
    Q.Received(sys.relay.seats[v].queue.fates) + sys.relay.seats[v].queue.buffer
  }

  /** As in RelayGuarantees, from the invariant alone. */
  lemma SeenInOrder(lim: R.Limits, sys: System, v: nat)
    requires R.Inv(lim, sys.relay) && v in sys.relay.seats
    ensures Q.Increasing(Seen(sys, v)) && forall i :: i in Seen(sys, v) ==> i < |sys.relay.history|
  {
    G.SeenFromInv(lim, sys.relay, v);
  }

  lemma HistoryIsOrdered(sys: System, i: nat, j: nat)
    requires S.Inv(sys.session) && HistoryOk(sys) && i < j < |sys.relay.history|
    ensures sys.relay.history[i] < sys.relay.history[j] < |sys.session.log|
  {
    assert sys.relay.history[j] < SentBelow(sys.session);
  }

  lemma LogIsOrdered(sys: System, a: nat, b: nat)
    requires TracksOk(sys) && a < b < |sys.session.log|
    ensures
      var log := sys.session.log;
      log[a].Audio? && log[b].Audio? && log[a].track == log[b].track && TrackOf(sys, log[a].track).count < U32 ==>
        SeqOnWire(log[a]) < SeqOnWire(log[b])
  {
  }

  /**
   In every interleaving of capture threads, queue overflows, reconnects, relay steps and
   viewers, the audio frames of one track reach any viewer in strictly increasing SEQ order, as
   long as the track has numbered fewer than 2^32 frames.
   */
  lemma SeqIncreasesEndToEnd(lim: R.Limits, evs: seq<Event>, v: nat, i: nat, j: nat)
    requires v in Exec(lim, Init(), evs).relay.seats
    requires i < j < |Seen(Exec(lim, Init(), evs), v)|
    ensures
      var sys := Exec(lim, Init(), evs);
      var seen, log := Seen(sys, v), sys.session.log;
      && seen[i] < |sys.relay.history| && seen[j] < |sys.relay.history|
      && var a, b := sys.relay.history[seen[i]], sys.relay.history[seen[j]];
         && a < b < |log|
         && (log[a].Audio? && log[b].Audio? && log[a].track == log[b].track
             && TrackOf(sys, log[a].track).count < U32 ==>
               SeqOnWire(log[a]) < SeqOnWire(log[b]))
  {
    var sys := Exec(lim, Init(), evs);
    assert Inv(lim, sys) by { RunOk(lim, evs); }
    SeqIncreasesIn(lim, sys, v, i, j);
  }

  lemma SeqIncreasesIn(lim: R.Limits, sys: System, v: nat, i: nat, j: nat)
    requires S.Inv(sys.session) && R.Inv(lim, sys.relay) && TracksOk(sys) && HistoryOk(sys)
    requires v in sys.relay.seats && i < j < |Seen(sys, v)|
    ensures
      var seen, log := Seen(sys, v), sys.session.log;
      && seen[i] < |sys.relay.history| && seen[j] < |sys.relay.history|
      && var a, b := sys.relay.history[seen[i]], sys.relay.history[seen[j]];
         && a < b < |log|
         && (log[a].Audio? && log[b].Audio? && log[a].track == log[b].track
             && TrackOf(sys, log[a].track).count < U32 ==>
               SeqOnWire(log[a]) < SeqOnWire(log[b]))
  {
    SeenInOrder(lim, sys, v);
    var seen := Seen(sys, v);
    assert seen[i] in seen && seen[j] in seen && seen[i] < seen[j];
    HistoryIsOrdered(sys, seen[i], seen[j]);
    LogIsOrdered(sys, sys.relay.history[seen[i]], sys.relay.history[seen[j]]);
  }
}
