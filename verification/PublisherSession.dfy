/**
 The publisher's WebSocket client: a bounded drop-oldest queue filled by the capture threads
 and emptied by one service thread, around a connection that comes and goes. The atomic steps
 are each section under the queue mutex, each socket write, and each callback of the socket
 library; Enqueue may happen between any two of them.

 A packet is known by its serial, its position in the list of everything ever enqueued.
 */
module PublisherSession {
  import opened Wrappers

  const MAX_QUEUE := 256

  /** InFlight: taken from the queue and being written. Lost: its write failed. */
  datatype Fate = InFlight | Sent | Lost | Dropped | Cleared

  /** Where the service thread is. Clearing to Listing are the stages of the established-callback. */
  datatype Phase = Down | Connecting | Clearing | Greeting | Listing | Up | Writing(serial: nat) | Failed

  /**
   One established connection: the length of the log when its queue clear ran, the serials of its
   HELLO and TRACK_LIST, the serials taken for writing with the log length at each, and the
   serials whose write succeeded, which is what the relay can read.
   */
  datatype Connection = Connection(clear: nat, hello: Option<nat>, list: Option<nat>,
                                   writes: seq<nat>, logAt: seq<nat>, stream: seq<nat>)

  datatype State<P> = State(
    log: seq<P>,
    queue: seq<nat>,
    fates: seq<Fate>,
    phase: Phase,
    connections: seq<Connection>,
    connected: bool,
    connecting: bool,
    dropped: nat,
    sent: nat,
    reconnects: nat)

  datatype Event<P> =
    | Enqueue(packet: P)
    | TryConnect(ok: bool)
    | ConnectionError
    | Established
    | ClearQueue
    | Hello(packet: P)
    | TrackList(packet: P)
    | Take
    | WriteDone(ok: bool)
    | Closed

  function Init<P>(): State<P> {
    State([], [], [], Down, [], false, false, 0, 0, 0)
  }

  /** Push at the back; when the queue is full the oldest packet goes. */
  function Push<P>(st: State<P>, packet: P): State<P> {
    var st' := if |st.queue| >= MAX_QUEUE then
                 st.(queue := st.queue[1..], fates := st.fates + [Dropped], dropped := st.dropped + 1)
               else st;
    st'.(log := st.log + [packet], queue := st'.queue + [|st.log|])
  }

  function Repeat(f: Fate, n: nat): (r: seq<Fate>)
    ensures |r| == n && forall i :: 0 <= i < n ==> r[i] == f
  {
    seq(n, _ => f)
  }

  function Disconnect<P>(st: State<P>): State<P> {
    st.(phase := Down, connecting := false, connected := false,
        reconnects := st.reconnects + if st.connected then 1 else 0)
  }

  function Current<P>(st: State<P>): Connection
    requires st.connections != []
  {
    st.connections[|st.connections| - 1]
  }

  function WithCurrent<P>(st: State<P>, c: Connection): State<P>
    requires st.connections != []
  {
    st.(connections := st.connections[|st.connections| - 1 := c])
  }

  function Step<P>(st: State<P>, ev: Event<P>): State<P> {
    match ev
    case Enqueue(p) => Push(st, p)
    case TryConnect(ok) =>
      if st.phase.Down? && !st.connected && !st.connecting then
        st.(connecting := ok, phase := if ok then Connecting else Down)
      else st
    case ConnectionError => if st.phase.Connecting? then Disconnect(st) else st
    case Established =>
      if st.phase.Connecting? then st.(connected := true, connecting := false, phase := Clearing) else st
    case ClearQueue =>
      if st.phase.Clearing? then
        st.(queue := [], fates := st.fates + Repeat(Cleared, |st.queue|), phase := Greeting,
            connections := st.connections + [Connection(|st.log|, None, None, [], [], [])])
      else st
    case Hello(p) =>
      if st.phase.Greeting? && st.connections != [] then
        WithCurrent(Push(st, p), Current(st).(hello := Some(|st.log|))).(phase := Listing)
      else st
    case TrackList(p) =>
      if st.phase.Listing? && st.connections != [] then
        WithCurrent(Push(st, p), Current(st).(list := Some(|st.log|))).(phase := Up)
      else st
    case Take =>
      if st.phase.Up? && st.queue != [] && st.connections != [] then
        var c := Current(st);
        WithCurrent(st, c.(writes := c.writes + [st.queue[0]], logAt := c.logAt + [|st.log|]))
        .(queue := st.queue[1..], fates := st.fates + [InFlight], phase := Writing(st.queue[0]))
      else st
    case WriteDone(ok) =>
      if st.phase.Writing? && st.phase.serial < |st.fates| && st.connections != [] then
        var s := st.phase.serial;
        var c := Current(st);
        if ok then
          WithCurrent(st, c.(stream := c.stream + [s]))
          .(fates := st.fates[s := Sent], sent := st.sent + 1, phase := Up)
        else st.(fates := st.fates[s := Lost], phase := Failed)
      else st
    case Closed => if st.phase.Up? || st.phase.Failed? then Disconnect(st) else st
  }

  function Exec<P>(st: State<P>, evs: seq<Event<P>>): State<P> {
    if evs == [] then st else Step(Exec(st, evs[..|evs| - 1]), evs[|evs| - 1])
  }

  // ---- the invariant ----

  /** The queue is the end of the log, and everything before it has met its fate. */
  ghost predicate QueueOk<P>(st: State<P>) {
    && |st.fates| + |st.queue| == |st.log|
    && (forall i :: 0 <= i < |st.queue| ==> st.queue[i] == |st.fates| + i)
    && |st.queue| <= MAX_QUEUE
  }

  ghost predicate CountersOk<P>(st: State<P>) {
    && st.dropped == multiset(st.fates)[Dropped]
    && st.sent == multiset(st.fates)[Sent]
    && multiset(st.fates)[InFlight] == (if st.phase.Writing? then 1 else 0)
    && (st.phase.Writing? ==> st.phase.serial < |st.fates| && st.fates[st.phase.serial] == InFlight)
  }

  ghost predicate FlagsOk<P>(st: State<P>) {
    && (st.connected <==> !st.phase.Down? && !st.phase.Connecting?)
    && (st.connecting <==> st.phase.Connecting?)
    && (st.connected && !st.phase.Clearing? ==> st.connections != [])
  }

  /** The writes of a connection go up through the stretch of the log that starts at its clear. */
  ghost predicate WritesOk(c: Connection, end: nat, decided: nat) {
    && |c.logAt| == |c.writes| && c.clear <= end
    && (forall i, j :: 0 <= i < j < |c.writes| ==> c.writes[i] < c.writes[j])
    && (forall i :: 0 <= i < |c.writes| ==> c.clear <= c.writes[i] < end && c.writes[i] < decided)
    && (|c.writes| > 0 ==> c.writes[0] == Front(c.clear, c.logAt[0]))
    && (|c.writes| > 1 ==> c.writes[1] == Front(c.writes[0] + 1, c.logAt[1]))
  }

  /** All writes but possibly the last one succeeded, and those make up the stream. */
  ghost predicate StreamOk(c: Connection, fates: seq<Fate>) {
    && |c.stream| <= |c.writes| <= |c.stream| + 1 && c.stream == c.writes[..|c.stream|]
    && (forall i :: 0 <= i < |c.writes| ==> c.writes[i] < |fates| && (fates[c.writes[i]] == Sent <==> i < |c.stream|))
  }

  ghost predicate AnnouncementOk(c: Connection, end: nat) {
    && (c.hello.Some? ==> c.clear <= c.hello.value < end)
    && (c.list.Some? ==> c.hello.Some? && c.hello.value < c.list.value < end)
    && (c.writes != [] ==> c.list.Some?)
  }

  ghost predicate ConnectionOk(c: Connection, end: nat, fates: seq<Fate>) {
    WritesOk(c, end, |fates|) && StreamOk(c, fates) && AnnouncementOk(c, end)
  }

  /** The serial at the front of the queue, when all serials from `next` on were queued and the log has this length. */
  function Front(next: nat, logLength: nat): nat {
    if logLength > next + MAX_QUEUE then logLength - MAX_QUEUE else next
  }

  /** The first serial that has not been taken on this connection. */
  function NextUp(c: Connection): nat {
    if c.writes == [] then c.clear else c.writes[|c.writes| - 1] + 1
  }

  /** The current connection, while it is alive. */
  ghost predicate LiveOk<P>(st: State<P>)
    requires st.connections != []
  {
    var c := Current(st);
    && c.clear <= |st.fates|
    && NextUp(c) <= |st.fates| == Front(NextUp(c), |st.log|)
    && (st.phase.Up? || st.phase.Greeting? || st.phase.Listing? ==> |c.stream| == |c.writes|)
    && (st.phase.Writing? ==> c.writes == c.stream + [st.phase.serial])
    && (c.hello.Some? <==> !st.phase.Greeting?)
    && (c.list.Some? <==> !st.phase.Greeting? && !st.phase.Listing?)
    && (st.phase.Greeting? || st.phase.Listing? ==> c.writes == [])
  }

  /** Everything that belongs to c was enqueued before the clear of d. */
  ghost predicate Precedes(c: Connection, d: Connection) {
    && c.clear <= d.clear
    && (forall i :: 0 <= i < |c.writes| ==> c.writes[i] < d.clear)
    && (c.hello.Some? ==> c.hello.value < d.clear)
    && (c.list.Some? ==> c.list.value < d.clear)
  }

  ghost predicate ConnectionsOk<P>(st: State<P>) {
    && (forall k :: 0 <= k < |st.connections| ==> ConnectionOk(st.connections[k], |st.log|, st.fates))
    && (forall j, k :: 0 <= j < k < |st.connections| ==> Precedes(st.connections[j], st.connections[k]))
  }

  ghost predicate Inv<P>(st: State<P>) {
    && QueueOk(st) && CountersOk(st) && FlagsOk(st) && ConnectionsOk(st)
    && (st.connected && !st.phase.Clearing? ==> LiveOk(st))
  }

  // ---- every step keeps it ----

  lemma PushOk<P>(st: State<P>, packet: P)
    requires Inv(st)
    ensures Inv(Push(st, packet))
  {
    var st' := Push(st, packet);
    if |st.queue| >= MAX_QUEUE {
      assert st'.fates == st.fates + [Dropped];
    }
    ExtendFates(st, st');
    if st.connected && !st.phase.Clearing? {
      assert Current(st') == Current(st);
    }
  }

  lemma GrowOk(c: Connection, end: nat, end': nat, fates: seq<Fate>, fates': seq<Fate>)
    requires ConnectionOk(c, end, fates) && end <= end' && fates <= fates'
    ensures ConnectionOk(c, end', fates')
  {
  }

  /** Longer lists of fates and packets leave the connections as they were. */
  lemma ExtendFates<P>(st: State<P>, st': State<P>)
    requires ConnectionsOk(st)
    requires st'.connections == st.connections && |st.log| <= |st'.log| && st.fates <= st'.fates
    ensures ConnectionsOk(st')
  {
    forall k | 0 <= k < |st'.connections|
      ensures ConnectionOk(st'.connections[k], |st'.log|, st'.fates)
    {
      GrowOk(st.connections[k], |st.log|, |st'.log|, st.fates, st'.fates);
    }
  }

  /** Changing the current connection only. */
  lemma CurrentOk<P>(st: State<P>, st': State<P>, c: Connection)
    requires ConnectionsOk(st) && st.connections != []
    requires st'.connections == st.connections[|st.connections| - 1 := c] && c.clear == Current(st).clear
    requires |st.log| <= |st'.log| && st.fates <= st'.fates
    requires ConnectionOk(c, |st'.log|, st'.fates)
    ensures ConnectionsOk(st')
  {
    forall k | 0 <= k < |st'.connections|
      ensures ConnectionOk(st'.connections[k], |st'.log|, st'.fates)
    {
      if k < |st.connections| - 1 {
        GrowOk(st.connections[k], |st.log|, |st'.log|, st.fates, st'.fates);
      }
    }
    forall j, k | 0 <= j < k < |st'.connections| ensures Precedes(st'.connections[j], st'.connections[k]) {
      assert Precedes(st.connections[j], st.connections[k]);
    }
  }

  lemma LifecycleOk<P>(st: State<P>, ev: Event<P>)
    requires Inv(st) && (ev.TryConnect? || ev.ConnectionError? || ev.Established? || ev.Closed?)
    ensures Inv(Step(st, ev))
  {
    ExtendFates(st, Step(st, ev));
  }

  lemma CountRepeat(f: Fate, n: nat)
    ensures forall g :: multiset(Repeat(f, n))[g] == if g == f then n else 0
  {
    if n > 0 {
      CountRepeat(f, n - 1);
      assert Repeat(f, n) == Repeat(f, n - 1) + [f];
    } else {
      assert Repeat(f, 0) == [];
    }
  }

  lemma ClearOk<P>(st: State<P>, ev: Event<P>)
    requires Inv(st) && ev.ClearQueue?
    ensures Inv(Step(st, ev))
  {
    var st' := Step(st, ev);
    if st.phase.Clearing? {
      CountRepeat(Cleared, |st.queue|);
      forall k | 0 <= k < |st'.connections|
        ensures ConnectionOk(st'.connections[k], |st'.log|, st'.fates)
      {
        if k < |st.connections| {
          GrowOk(st.connections[k], |st.log|, |st'.log|, st.fates, st'.fates);
        }
      }
      forall j, k | 0 <= j < k < |st'.connections| ensures Precedes(st'.connections[j], st'.connections[k]) {
        assert ConnectionOk(st.connections[j], |st.log|, st.fates);
        if k < |st.connections| {
          assert Precedes(st.connections[j], st.connections[k]);
        }
      }
    }
  }

  lemma AnnounceOk<P>(st: State<P>, ev: Event<P>)
    requires Inv(st) && (ev.Hello? || ev.TrackList?)
    ensures Inv(Step(st, ev))
  {
    var st' := Step(st, ev);
    if st' != st {
      PushOk(st, ev.packet);
      AnnounceShape(st, ev);
      AnnounceKeepsConnections(st, Push(st, ev.packet), st', ev.Hello?);
      AnnounceKeepsLive(Push(st, ev.packet), st', |st.log|, ev.Hello?);
    }
  }

  /** An announcement is a push and a note on the current connection. */
  lemma AnnounceShape<P>(st: State<P>, ev: Event<P>)
    requires (ev.Hello? || ev.TrackList?) && Step(st, ev) != st
    ensures
      var mid, st' := Push(st, ev.packet), Step(st, ev);
      && st.connections != [] && mid.connections == st.connections
           && st.phase == (if ev.Hello? then Greeting else Listing)
      && |mid.log| == |st.log| + 1 && st.fates <= mid.fates
      && st' == mid.(connections := st'.connections, phase := st'.phase)
      && st'.phase == (if ev.Hello? then Listing else Up)
      && var c := Current(st);
         st'.connections ==
           WithCurrent(mid, if ev.Hello? then c.(hello := Some(|st.log|)) else c.(list := Some(|st.log|))).connections
  {
  }

  lemma AnnounceKeepsConnections<P>(st: State<P>, mid: State<P>, st': State<P>, hello: bool)
    requires ConnectionsOk(st) && ConnectionsOk(mid) && st.connections != [] && mid.connections == st.connections
    requires |mid.log| == |st.log| + 1 && st.fates <= mid.fates && st'.log == mid.log && st'.fates == mid.fates
    requires var c := Current(st);
             && c.list == None && (!hello ==> c.hello.Some?)
             && st'.connections ==
                  WithCurrent(mid, if hello then c.(hello := Some(|st.log|))
                      else c.(list := Some(|st.log|))).connections
    ensures ConnectionsOk(st')
  {
    var c := Current(st);
    assert ConnectionOk(c, |st.log|, st.fates);
    AnnouncedOk(c, |st.log|, |mid.log|, st.fates, mid.fates, hello);
    CurrentOk(mid, st', Current(st'));
  }

  lemma AnnounceKeepsLive<P>(mid: State<P>, st': State<P>, serial: nat, hello: bool)
    requires mid.connections != [] && LiveOk(mid) && mid.phase == if hello then Greeting else Listing
    requires st'.connections != [] && st'.log == mid.log && st'.fates == mid.fates
    requires st'.phase == if hello then Listing else Up
    requires Current(st') == if hello then Current(mid).(hello := Some(serial)) else Current(mid).(list := Some(serial))
    ensures LiveOk(st')
  {
  }

  /** HELLO or TRACK_LIST takes the next serial. */
  lemma AnnouncedOk(c: Connection, serial: nat, end: nat, fates: seq<Fate>, fates': seq<Fate>, hello: bool)
    requires ConnectionOk(c, serial, fates) && fates <= fates' && serial < end && c.clear <= serial
    requires c.list == None && (!hello ==> c.hello.Some?)
    ensures ConnectionOk(if hello then c.(hello := Some(serial)) else c.(list := Some(serial)), end, fates')
  {
  }

  /** The front of the queue joins the writes of the connection. */
  lemma TakenOk(c: Connection, c': Connection, logLength: nat, fates: seq<Fate>)
    requires ConnectionOk(c, logLength, fates) && |fates| < logLength
    requires |fates| == Front(NextUp(c), logLength) && |c.stream| == |c.writes| && c.list.Some?
    requires c' == c.(writes := c.writes + [|fates|], logAt := c.logAt + [logLength])
    ensures ConnectionOk(c', logLength, fates + [InFlight])
  {
    TakenWritesOk(c, c', logLength, |fates|);
    assert c'.writes[..|c.stream|] == c.writes;
    assert StreamOk(c', fates + [InFlight]);
  }

  lemma TakenWritesOk(c: Connection, c': Connection, logLength: nat, next: nat)
    requires WritesOk(c, logLength, next) && next < logLength && next == Front(NextUp(c), logLength)
    requires c' == c.(writes := c.writes + [next], logAt := c.logAt + [logLength])
    ensures WritesOk(c', logLength, next + 1)
  {
    var n := |c.writes|;
    assert forall i :: 0 <= i < n ==> c'.writes[i] == c.writes[i] && c'.logAt[i] == c.logAt[i];
    assert c'.writes[n] == next && c'.logAt[n] == logLength;
  }

  lemma TakeOk<P>(st: State<P>, ev: Event<P>)
    requires Inv(st) && ev.Take?
    ensures Inv(Step(st, ev))
  {
    var st' := Step(st, ev);
    if st' != st {
      var c := Current(st);
      assert LiveOk(st);
      assert ConnectionOk(c, |st.log|, st.fates);
      assert st.queue[0] == |st.fates|;
      TakenOk(c, Current(st'), |st.log|, st.fates);
      CurrentOk(st, st', Current(st'));
      TakeKeepsCounters(st, ev);
      assert Current(st').writes == c.writes + [|st.fates|];
      TakeKeepsLive(st, st');
    }
  }

  lemma TakeKeepsCounters<P>(st: State<P>, ev: Event<P>)
    requires QueueOk(st) && CountersOk(st) && FlagsOk(st) && ev.Take?
    ensures var st' := Step(st, ev); QueueOk(st') && CountersOk(st') && FlagsOk(st')
  {
  }

  lemma TakeKeepsLive<P>(st: State<P>, st': State<P>)
    requires st.connections != [] && LiveOk(st) && st.phase.Up?
    requires st'.connections != [] && |st'.fates| == |st.fates| + 1 && st'.log == st.log
    requires st'.phase == Writing(|st.fates|) && |Current(st).logAt| == |Current(st).writes|
    requires Current(st).stream == Current(st).writes[..|Current(st).stream|]
    requires Current(st') ==
              Current(st).(writes := Current(st).writes + [|st.fates|], logAt := Current(st).logAt + [|st.log|])
    ensures LiveOk(st')
  {
  }

  lemma CountUpdate(fates: seq<Fate>, i: nat, f: Fate)
    requires i < |fates| && fates[i] == InFlight && f != InFlight
    ensures multiset(fates[i := f])[f] == multiset(fates)[f] + 1
    ensures multiset(fates[i := f])[InFlight] == multiset(fates)[InFlight] - 1
    ensures forall g :: g != f && g != InFlight ==> multiset(fates[i := f])[g] == multiset(fates)[g]
  {
  }

  /** The pending write of a connection has succeeded or failed. */
  lemma WroteOk(c: Connection, logLength: nat, fates: seq<Fate>, s: nat, ok: bool)
    requires ConnectionOk(c, logLength, fates) && c.writes == c.stream + [s] && s < |fates|
    ensures ConnectionOk(if ok then c.(stream := c.stream + [s]) else c, logLength,
                         fates[s := if ok then Sent else Lost])
  {
    WroteKeepsStream(c, fates, s, ok);
  }

  lemma WroteKeepsStream(c: Connection, fates: seq<Fate>, s: nat, ok: bool)
    requires StreamOk(c, fates) && c.writes == c.stream + [s] && s < |fates|
    requires forall i, j :: 0 <= i < j < |c.writes| ==> c.writes[i] < c.writes[j]
    ensures StreamOk(if ok then c.(stream := c.stream + [s]) else c, fates[s := if ok then Sent else Lost])
  {
    assert c.writes[|c.stream|] == s;
    assert forall i :: 0 <= i < |c.stream| ==> c.writes[i] < s;
  }

  lemma EarlierUntouched(c: Connection, end: nat, fates: seq<Fate>, s: nat, f: Fate)
    requires ConnectionOk(c, end, fates) && s < |fates| && forall i :: 0 <= i < |c.writes| ==> c.writes[i] < s
    ensures ConnectionOk(c, end, fates[s := f])
  {
  }

  lemma WriteDoneOk<P>(st: State<P>, ev: Event<P>)
    requires Inv(st) && ev.WriteDone?
    ensures Inv(Step(st, ev))
  {
    WriteDoneKeepsCounters(st, ev);
    if st.phase.Writing? {
      WriteDoneKeepsLive(st, ev);
      WriteDoneKeepsConnections(st, Step(st, ev), st.phase.serial, ev.ok);
    }
  }

  lemma WriteDoneKeepsCounters<P>(st: State<P>, ev: Event<P>)
    requires QueueOk(st) && CountersOk(st) && FlagsOk(st) && ev.WriteDone?
    ensures var st' := Step(st, ev); QueueOk(st') && CountersOk(st') && FlagsOk(st')
  {
    if Step(st, ev) != st {
      CountUpdate(st.fates, st.phase.serial, if ev.ok then Sent else Lost);
    }
  }

  lemma WriteDoneKeepsConnections<P>(st: State<P>, st': State<P>, s: nat, ok: bool)
    requires ConnectionsOk(st) && st.connections != [] && st'.log == st.log && s < |st.fates|
    requires Current(st).writes == Current(st).stream + [s]
    requires st'.fates == st.fates[s := if ok then Sent else Lost]
    requires st'.connections ==
               WithCurrent(st, if ok then Current(st).(stream := Current(st).stream + [s]) else Current(st)).connections
    ensures ConnectionsOk(st')
  {
    var c, last := Current(st), |st.connections| - 1;
    assert ConnectionOk(c, |st.log|, st.fates);
    WroteOk(c, |st.log|, st.fates, s, ok);
    assert c.writes[|c.writes| - 1] == s && c.clear <= s;
    forall k | 0 <= k < |st'.connections|
      ensures ConnectionOk(st'.connections[k], |st'.log|, st'.fates)
    {
      if k < last {
        assert Precedes(st.connections[k], c);
        EarlierUntouched(st.connections[k], |st.log|, st.fates, s, if ok then Sent else Lost);
      }
    }
    forall j, k | 0 <= j < k < |st'.connections| ensures Precedes(st'.connections[j], st'.connections[k]) {
      assert Precedes(st.connections[j], st.connections[k]);
    }
  }

  lemma WriteDoneKeepsLive<P>(st: State<P>, ev: Event<P>)
    requires st.connections != [] && LiveOk(st) && CountersOk(st) && st.phase.Writing? && ev.WriteDone?
    ensures var st' := Step(st, ev);
            && st'.connections != [] && LiveOk(st')
            && st'.log == st.log
            && st'.fates == st.fates[st.phase.serial := if ev.ok then Sent else Lost]
            && var c := Current(st);
               st'.connections ==
                 WithCurrent(st, if ev.ok then c.(stream := c.stream + [st.phase.serial]) else c).connections
  {
  }

  lemma StepOk<P>(st: State<P>, ev: Event<P>)
    requires Inv(st)
    ensures Inv(Step(st, ev))
  {
    match ev
    case Enqueue(p) => PushOk(st, p);
    case ClearQueue => ClearOk(st, ev);
    case Hello(_) => AnnounceOk(st, ev);
    case TrackList(_) => AnnounceOk(st, ev);
    case Take => TakeOk(st, ev);
    case WriteDone(_) => WriteDoneOk(st, ev);
    case _ => LifecycleOk(st, ev);
  }

  lemma {:induction false} RunOk<P>(evs: seq<Event<P>>)
    ensures Inv(Exec(Init<P>(), evs))
    decreases |evs|
  {
    if evs != [] {
      RunOk(evs[..|evs| - 1]);
      StepOk(Exec(Init<P>(), evs[..|evs| - 1]), evs[|evs| - 1]);
    }
  }
}
