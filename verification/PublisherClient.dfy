/** What the publisher's session promises over every interleaving, and the client object itself. */
module PublisherClient {
  import opened Wrappers
  import opened PublisherSession

  ghost function Run<P>(evs: seq<Event<P>>): State<P> {
    Exec(Init<P>(), evs)
  }

  /**
   No stale audio: whatever is written on a connection was enqueued after that connection's
   queue clear and before the clear of any later one, and goes out in the order of enqueuing.
   */
  lemma NoStaleAudio<P>(evs: seq<Event<P>>, k: nat, i: nat)
    requires k < |Run(evs).connections| && i < |Run(evs).connections[k].writes|
    ensures
      var cs := Run(evs).connections;
      && cs[k].clear <= cs[k].writes[i] < |Run(evs).log|
      && (forall m :: k < m < |cs| ==> cs[k].writes[i] < cs[m].clear)
      && (forall j :: i < j < |cs[k].writes| ==> cs[k].writes[i] < cs[k].writes[j])
  {
    RunOk(evs);
    var cs := Run(evs).connections;
    assert ConnectionOk(cs[k], |Run(evs).log|, Run(evs).fates);
    forall m | k < m < |cs| ensures cs[k].writes[i] < cs[m].clear {
      assert Precedes(cs[k], cs[m]);
    }
  }

  lemma {:induction false} KindsAddUp(fates: seq<Fate>)
    ensures var m := multiset(fates);
            m[InFlight] + m[Sent] + m[Lost] + m[Dropped] + m[Cleared] == |fates|
    decreases |fates|
  {
    if fates != [] {
      var before, last := fates[..|fates| - 1], fates[|fates| - 1];
      KindsAddUp(before);
      assert fates == before + [last];
      assert multiset(fates) == multiset(before) + multiset{last};
      match last case InFlight => case Sent => case Lost => case Dropped => case Cleared =>
    }
  }

  /**
   Conservation: every packet ever enqueued is queued, or was sent, dropped, cleared or lost in
   a failed write, or is the one being written; and the queue never exceeds its bound.
   */
  lemma EveryPacketAccountedFor<P>(evs: seq<Event<P>>)
    ensures
      var st := Run(evs);
      var m := multiset(st.fates);
      && |st.queue| <= 256
      && |st.log| == |st.queue| + st.sent + st.dropped + m[Cleared] + m[Lost] + (if st.phase.Writing? then 1 else 0)
  {
    RunOk(evs);
    KindsAddUp(Run(evs).fates);
  }

  /** What the relay can read on a connection is exactly the packets that count as sent on it. */
  lemma StreamIsWhatWasSent<P>(evs: seq<Event<P>>, k: nat, i: nat)
    requires k < |Run(evs).connections| && i < |Run(evs).connections[k].writes|
    ensures
      var c := Run(evs).connections[k];
      && c.stream <= c.writes && |c.writes| <= |c.stream| + 1
      && c.writes[i] < |Run(evs).fates|
      && (i < |c.stream| <==> Run(evs).fates[c.writes[i]] == Sent)
  {
    RunOk(evs);
    assert ConnectionOk(Run(evs).connections[k], |Run(evs).log|, Run(evs).fates);
  }

  /**
   On every connection HELLO precedes TRACK_LIST, and what is written before HELLO was
   enqueued between the clear and the HELLO.
   */
  lemma HelloBeforeTrackList<P>(evs: seq<Event<P>>, k: nat, i: nat, j: nat)
    requires k < |Run(evs).connections|
    requires
      var c := Run(evs).connections[k];
      i < |c.writes| && j < |c.writes| && c.hello == Some(c.writes[i])
    ensures
      var c := Run(evs).connections[k];
      && (c.list == Some(c.writes[j]) ==> i < j)
      && (j < i ==> c.clear <= c.writes[j] < c.hello.value)
  {
    RunOk(evs);
    assert ConnectionOk(Run(evs).connections[k], |Run(evs).log|, Run(evs).fates);
  }

  /** How many of n packets a full queue has dropped. */
  function Overflow(n: int): int {
    if n > MAX_QUEUE then n - MAX_QUEUE else 0
  }

  /**
   HELLO leads exactly when the packets that slipped in between the clear and the HELLO are as
   many as the overflow had dropped by the time of the first write.
   */
  lemma HelloLeadsIff<P>(evs: seq<Event<P>>, k: nat)
    requires k < |Run(evs).connections| && Run(evs).connections[k].writes != []
    ensures
      var c := Run(evs).connections[k];
      && c.hello.Some? && |c.logAt| == |c.writes|
      && (c.writes[0] == c.hello.value <==> c.hello.value - c.clear == Overflow(c.logAt[0] - c.clear))
  {
    RunOk(evs);
    assert ConnectionOk(Run(evs).connections[k], |Run(evs).log|, Run(evs).fates);
  }

  /**
   "Those frames always lead": the first two packets written are HELLO and TRACK_LIST exactly when
   what slipped in before each of them is what the overflow had dropped by the time of its write.
   */
  lemma AnnouncementLeadsIff<P>(evs: seq<Event<P>>, k: nat)
    requires k < |Run(evs).connections| && |Run(evs).connections[k].writes| >= 2
    ensures
      var c := Run(evs).connections[k];
      && c.hello.Some? && c.list.Some? && |c.logAt| == |c.writes|
      && var hello, list := c.hello.value, c.list.value;
         (c.writes[0] == hello && c.writes[1] == list
          <==> hello - c.clear == Overflow(c.logAt[0] - c.clear)
               && list - hello - 1 == Overflow(c.logAt[1] - hello - 1))
  {
    RunOk(evs);
    assert ConnectionOk(Run(evs).connections[k], |Run(evs).log|, Run(evs).fates);
  }

  /**
   When nothing slips in between the clear, HELLO and TRACK_LIST, they lead exactly if at most 254
   others were enqueued before the first write and at most 255 before the second.
   */
  lemma UndisturbedAnnouncementLeadsIff<P>(evs: seq<Event<P>>, k: nat)
    requires k < |Run(evs).connections| && |Run(evs).connections[k].writes| >= 2
    requires
      var c := Run(evs).connections[k];
      c.hello == Some(c.clear) && c.list == Some(c.clear + 1)
    ensures
      var c := Run(evs).connections[k];
      && |c.logAt| == |c.writes|
      && (c.writes[0] == c.hello.value && c.writes[1] == c.list.value
          <==> c.logAt[0] - c.clear - 2 <= 254 && c.logAt[1] - c.clear - 2 <= 255)
  {
    AnnouncementLeadsIff(evs, k);
  }

  lemma ExecThree<P>(st: State<P>, a: Event<P>, b: Event<P>, c: Event<P>)
    ensures Exec(st, [a, b, c]) == Step(Step(Step(st, a), b), c)
  {
    assert [a, b, c][..2] == [a, b] && [a, b][..1] == [a] && [a][..0] == [];
    assert Exec(st, [a]) == Step(st, a);
    assert Exec(st, [a, b]) == Step(Step(st, a), b);
  }

  lemma ExecConcat<P>(st: State<P>, a: seq<Event<P>>, b: seq<Event<P>>)
    ensures Exec(st, a + b) == Exec(Exec(st, a), b)
    decreases |b|
  {
    if b == [] {
      assert a + b == a;
    } else {
      assert (a + b)[..|a + b| - 1] == a + b[..|b| - 1];
      ExecConcat(st, a, b[..|b| - 1]);
    }
  }

  const FRESH := Connection(0, None, None, [], [], [])

  lemma ConnectedEmpty<P>()
    ensures Run<P>([TryConnect(true), Established, ClearQueue])
            == State([], [], [], Greeting, [FRESH], true, false, 0, 0, 0)
  {
    ExecThree(Init<P>(), TryConnect(true), Established, ClearQueue);
  }

  lemma AnnouncedAfter<P>(st: State<P>, audio: P, hello: P, list: P)
    requires st == State([], [], [], Greeting, [FRESH], true, false, 0, 0, 0)
    ensures Exec(st, [Enqueue(audio), Hello(hello), TrackList(list)])
            == State([audio, hello, list], [0, 1, 2], [], Up,
                     [FRESH.(hello := Some(1), list := Some(2))], true, false, 0, 0, 0)
  {
    ExecThree(st, Enqueue(audio), Hello(hello), TrackList(list));
  }

  lemma FirstTwoWrites<P>(st: State<P>, c: Connection)
    requires st == State(st.log, [0, 1, 2], [], Up, [c], true, false, 0, 0, 0) && |st.log| == 3
    requires c.writes == [] && c.stream == [] && c.logAt == []
    ensures
      var r := Exec(st, [Take, WriteDone(true), Take]);
      r.log == st.log && r.connections == [c.(writes := [0, 1], logAt := [3, 3], stream := [0])]
  {
    ExecThree(st, Take, WriteDone(true), Take);
    FirstTake(st, c);
    FirstDone(Step(st, Take), c);
    SecondTake(Step(Step(st, Take), WriteDone(true)), c);
  }

  lemma FirstTake<P>(st: State<P>, c: Connection)
    requires st == State(st.log, [0, 1, 2], [], Up, [c], true, false, 0, 0, 0) && |st.log| == 3
    requires c.writes == [] && c.logAt == []
    ensures Step(st, Take)
         == State(st.log, [1, 2], [InFlight], Writing(0), [c.(writes := [0], logAt := [3])], true, false, 0, 0, 0)
  {
    var q: seq<nat> := [0, 1, 2];
    assert q[1..] == [1, 2] && c.writes + [0] == [0] && c.logAt + [3] == [3];
    assert [c][0 := c.(writes := [0], logAt := [3])] == [c.(writes := [0], logAt := [3])];
  }

  lemma FirstDone<P>(st: State<P>, c: Connection)
    requires st == State(st.log, [1, 2], [InFlight], Writing(0),
                         [c.(writes := [0], logAt := [3])], true, false, 0, 0, 0)
    requires c.stream == []
    ensures Step(st, WriteDone(true))
         == State(st.log, [1, 2], [Sent], Up, [c.(writes := [0], logAt := [3], stream := [0])], true, false, 0, 1, 0)
  {
    var d := c.(writes := [0], logAt := [3]);
    assert [InFlight][0 := Sent] == [Sent] && d.stream + [0] == [0];
    assert [d][0 := d.(stream := [0])] == [d.(stream := [0])];
  }

  lemma SecondTake<P>(st: State<P>, c: Connection)
    requires st == State(st.log, [1, 2], [Sent], Up,
                         [c.(writes := [0], logAt := [3], stream := [0])], true, false, 0, 1, 0)
    requires |st.log| == 3
    ensures
      var r := Step(st, Take);
      r.log == st.log && r.connections == [c.(writes := [0, 1], logAt := [3, 3], stream := [0])]
  {
    var d, e := c.(writes := [0], logAt := [3], stream := [0]), c.(writes := [0, 1], logAt := [3, 3], stream := [0]);
    assert d.writes + [1] == [0, 1] && d.logAt + [3] == [3, 3];
    assert [d][0 := e] == [e];
  }

  /** "Those frames always lead" is not so: one packet enqueued right after the clear is written before HELLO. */
  lemma AudioCanPrecedeHello<P>(audio: P, hello: P, list: P)
    ensures
      var evs := [TryConnect(true), Established, ClearQueue] + [Enqueue(audio), Hello(hello), TrackList(list)]
                 + [Take, WriteDone(true), Take];
      var st := Run(evs);
      && |st.connections| == 1
      && st.connections[0].hello == Some(1)
      && st.connections[0].writes == [0, 1]
      && st.log == [audio, hello, list]
  {
    var a := [Event<P>.TryConnect(true), Established, ClearQueue];
    var b := [Enqueue(audio), Hello(hello), TrackList(list)];
    ExecConcat(Init<P>(), a, b);
    ExecConcat(Init<P>(), a + b, [Take, WriteDone(true), Take]);
    ConnectedEmpty<P>();
    AnnouncedAfter(Exec(Init<P>(), a), audio, hello, list);
    FirstTwoWrites(Exec(Init<P>(), a + b), FRESH.(hello := Some(1), list := Some(2)));
  }

  /**
   A connection that is lost, in the middle of a write or between writes, is counted once; a failed
   attempt is not; either way the client is down and a new attempt can be made.
   */
  lemma GoesDown<P>(evs: seq<Event<P>>)
    ensures
      var st := Run(evs);
      && (st.phase.Up? || st.phase.Failed? ==>
            Step(st, Closed) == st.(phase := Down, connected := false, reconnects := st.reconnects + 1))
      && (st.phase.Connecting? ==> Step(st, ConnectionError) == st.(phase := Down, connecting := false))
      && (st.phase.Writing? ==>
            var failed := Step(st, WriteDone(false));
            failed.phase.Failed? && failed.connections == st.connections && failed.sent == st.sent
            && failed.fates == st.fates[st.phase.serial := Lost])
  {
    var st := Run(evs);
    assert FlagsOk(st) && (st.phase.Writing? ==> st.phase.serial < |st.fates|) by {
      RunOk(evs);
    }
  }

  /**
   From wherever the client is down, a handshake that succeeds brings it up with HELLO and TRACK_LIST
   as all there is in the queue, on a new connection; whatever was queued has been cleared.
   */
  lemma ComesUpAgain<P>(evs: seq<Event<P>>, hello: P, list: P)
    requires Run(evs).phase.Down?
    ensures
      var st := Run(evs);
      var n := |st.log|;
      var greeting := Step(Step(Step(st, TryConnect(true)), Established), ClearQueue);
      var st' := Step(Step(greeting, Hello(hello)), TrackList(list));
      && st'.phase.Up? && st'.connected && st'.log == st.log + [hello, list] && st'.queue == [n, n + 1]
      && st'.connections == st.connections + [Connection(n, Some(n), Some(n + 1), [], [], [])]
      && st'.fates == st.fates + Repeat(Cleared, |st.queue|)
      && st'.sent == st.sent && st'.dropped == st.dropped && st'.reconnects == st.reconnects
  {
    RunOk(evs);
    var st := Run(evs);
    var greeting := Step(Step(Step(st, TryConnect(true)), Established), ClearQueue);
    assert greeting == st.(queue := [], fates := st.fates + Repeat(Cleared, |st.queue|), phase := Greeting,
                           connected := true, connecting := false,
                           connections := st.connections + [Connection(|st.log|, None, None, [], [], [])]);
    AnnouncedOn(greeting, hello, list);
  }

  lemma AnnouncedOn<P>(st: State<P>, hello: P, list: P)
    requires st.phase.Greeting? && st.connections != [] && st.queue == []
    ensures
      var n, c := |st.log|, Current(st);
      Step(Step(st, Hello(hello)), TrackList(list)) ==
      WithCurrent(st, c.(hello := Some(n), list := Some(n + 1)))
      .(log := st.log + [hello, list], queue := [n, n + 1], phase := Up)
  {
    var n, c, last := |st.log|, Current(st), |st.connections| - 1;
    var c1 := c.(hello := Some(n));
    assert st.log + [hello] + [list] == st.log + [hello, list];
    assert [n] + [n + 1] == [n, n + 1];
    assert st.connections[last := c1][last := c1.(list := Some(n + 1))]
        == st.connections[last := c.(hello := Some(n), list := Some(n + 1))];
  }

  // ---- the client object ----

  const BACKOFF_MS: seq<nat> := [500, 1000, 2000, 5000, 15000]

  lemma ExecAppend<P>(st: State<P>, evs: seq<Event<P>>, ev: Event<P>)
    ensures Exec(st, evs + [ev]) == Step(Exec(st, evs), ev)
  {
    assert (evs + [ev])[..|evs|] == evs;
  }

  lemma TakeShape<P>(st: State<P>)
    requires QueueOk(st) && FlagsOk(st) && st.phase.Up? && st.queue != []
    ensures
      var st' := Step(st, Take);
      && QueueOk(st') && FlagsOk(st') && |st'.fates| == |st.fates| + 1
      && st'.phase.Writing? && st'.phase.serial < |st'.fates|
      && st' == st.(queue := st'.queue, fates := st'.fates, phase := st'.phase, connections := st'.connections)
  {
  }

  class WebSocketClient<P> {
    var queue: seq<P>
    var dropped: nat
    var sent: nat
    var reconnects: nat
    var connected: bool
    var connecting: bool
    /** The reconnect loop's own variables. */
    var attempt: nat
    var nextAttempt: int

    ghost var log: seq<P>
    ghost var serials: seq<nat>
    ghost var fates: seq<Fate>
    ghost var phase: Phase
    ghost var connections: seq<Connection>
    ghost var history: seq<Event<P>>

    ghost function View(): State<P>
      reads this
    {
      State(log, serials, fates, phase, connections, connected, connecting, dropped, sent, reconnects)
    }

    /**
     The object is in a state that the session reaches, and its queue holds the packets of the
     serials queued there.
     */
    ghost predicate Valid()
      reads this
    {
      && View() == Run(history)
      && QueueOk(View()) && FlagsOk(View()) && (phase.Writing? ==> phase.serial < |fates|)
      && queue == log[|fates|..]
    }

    constructor ()
      ensures Valid() && View() == Init<P>() && attempt == 0
    {
      queue, dropped, sent, reconnects, connected, connecting, attempt, nextAttempt := [], 0, 0, 0, false, false, 0, 0;
      log, serials, fates, phase, connections, history := [], [], [], Down, [], [];
    }

    /** Notes what is about to happen, for the proof only. */
    ghost method Record(ev: Event<P>)
      requires View() == Run(history)
      modifies this`history
      ensures history == old(history) + [ev] && Run(history) == Step(View(), ev)
    {
      ExecAppend(Init<P>(), history, ev);
      history := history + [ev];
    }

    method Enqueue(packet: P)
      requires Valid()
      modifies this`history, this`queue, this`dropped, this`log, this`serials, this`fates
      ensures Valid() && View() == Step(old(View()), Event.Enqueue(packet))
      ensures queue == (if |old(queue)| >= MAX_QUEUE then old(queue)[1..] else old(queue)) + [packet]
    {
      Record(Event.Enqueue(packet));
      PushBack(packet);
    }

    method PushBack(packet: P)
      requires QueueOk(View()) && queue == log[|fates|..]
      modifies this`queue, this`dropped, this`log, this`serials, this`fates
      ensures View() == Push(old(View()), packet) && QueueOk(View()) && queue == log[|fates|..]
      ensures queue == (if |old(queue)| >= MAX_QUEUE then old(queue)[1..] else old(queue)) + [packet]
    {
      if |queue| >= MAX_QUEUE {
        queue := queue[1..];
        dropped := dropped + 1;
        fates := fates + [Dropped];
        serials := serials[1..];
      }
      queue := queue + [packet];
      serials := serials + [|log|];
      log := log + [packet];
    }

    method StartConnecting(ok: bool)
      requires Valid() && phase.Down?
      modifies this`history, this`connecting, this`phase
      ensures Valid() && View() == Step(old(View()), TryConnect(ok))
    {
      Record(TryConnect(ok));
      connecting := true;
      if !ok {
        connecting := false;
      } else {
        phase := Connecting;
      }
    }

    /** The handshake has completed. If no other thread enqueues meanwhile, the queue is HELLO then TRACK_LIST. */
    method OnEstablished(hello: P, list: P)
      requires Valid() && phase.Connecting?
      modifies this`history, this`queue, this`dropped, this`log, this`serials, this`fates,
               this`connected, this`connecting, this`phase, this`connections
      ensures Valid()
      ensures View() == Step(Step(Step(Step(old(View()), Established), ClearQueue), Event.Hello(hello)),
                Event.TrackList(list))
      ensures queue == [hello, list] && connected && dropped == old(dropped)
    {
      MarkConnected();
      ClearTheQueue();
      Announce(hello, true);
      Announce(list, false);
    }

    method MarkConnected()
      requires Valid() && phase.Connecting?
      modifies this`history, this`connected, this`connecting, this`phase
      ensures Valid() && View() == Step(old(View()), Established) && phase.Clearing? && connected
    {
      Record(Established);
      connected := true;
      connecting := false;
      phase := Clearing;
    }

    method ClearTheQueue()
      requires Valid() && phase.Clearing?
      modifies this`history, this`queue, this`serials, this`fates, this`phase, this`connections
      ensures Valid() && View() == Step(old(View()), ClearQueue) && phase.Greeting? && queue == []
    {
      Record(ClearQueue);
      fates := fates + Repeat(Cleared, |serials|);
      queue, serials := [], [];
      phase := Greeting;
      connections := connections + [Connection(|log|, None, None, [], [], [])];
    }

    method Announce(packet: P, isHello: bool)
      requires Valid() && phase == if isHello then Greeting else Listing
      modifies this`history, this`queue, this`dropped, this`log, this`serials, this`fates, this`phase, this`connections
      ensures Valid() && View() == Step(old(View()), if isHello then Event.Hello(packet) else Event.TrackList(packet))
      ensures phase == if isHello then Listing else Up
      ensures |old(queue)| < MAX_QUEUE ==> queue == old(queue) + [packet] && dropped == old(dropped)
    {
      ghost var ev := if isHello then Event.Hello(packet) else Event.TrackList(packet);
      Record(ev);
      ghost var target := Step(View(), ev);
      PushBack(packet);
      phase := target.phase;
      connections := target.connections;
    }

    /** The writeable callback takes the front packet under the lock; it reports whether more are waiting. */
    method TakeFront() returns (packet: Option<P>, more: bool)
      requires Valid() && phase.Up?
      modifies this`history, this`queue, this`serials, this`fates, this`phase, this`connections
      ensures Valid() && View() == Step(old(View()), Take)
      ensures packet == if old(queue) == [] then None else Some(old(queue)[0])
      ensures more <==> |old(queue)| > 1
    {
      Record(Take);
      if queue == [] {
        return None, false;
      }
      ghost var target := Step(View(), Take);
      TakeShape(View());
      packet := Some(queue[0]);
      queue := queue[1..];
      more := queue != [];
      serials, fates, phase, connections := target.queue, target.fates, target.phase, target.connections;
    }

    method OnWritten(ok: bool)
      requires Valid() && phase.Writing?
      modifies this`history, this`sent, this`fates, this`phase, this`connections
      ensures Valid() && View() == Step(old(View()), WriteDone(ok))
    {
      Record(WriteDone(ok));
      ghost var target := Step(View(), WriteDone(ok));
      if ok {
        sent := sent + 1;
      }
      fates, phase, connections := target.fates, target.phase, target.connections;
    }

    method MarkDisconnected()
      requires Valid() && (phase.Up? || phase.Failed? || phase.Connecting?)
      modifies this`history, this`connected, this`connecting, this`reconnects, this`phase
      ensures Valid() && View() == Step(old(View()), if old(phase).Connecting? then ConnectionError else Closed)
    {
      Record(if phase.Connecting? then ConnectionError else Closed);
      connecting := false;
      if connected {
        connected := false;
        reconnects := reconnects + 1;
      }
      phase := Down;
    }

    /** One turn of the reconnect loop: it tries only while down, and spaces its tries by the backoff table. */
    method ReconnectTick(now: int, ok: bool) returns (tried: bool)
      requires Valid()
      modifies this`history, this`connecting, this`phase, this`attempt, this`nextAttempt
      ensures Valid()
      ensures tried <==> !old(connected) && !old(connecting) && old(nextAttempt) <= now
      ensures View() == if tried then Step(old(View()), TryConnect(ok)) else old(View())
      ensures tried ==>
                && attempt == old(attempt) + 1
                && nextAttempt == now + (match old(attempt)
                                         case 0 => 500 case 1 => 1000 case 2 => 2000 case 3 => 5000 case _ => 15000)
      ensures !tried ==> nextAttempt == old(nextAttempt) && attempt == (if old(connected) then 0 else old(attempt))
    {
      tried := false;
      if connected {
        attempt := 0;
      } else if !connecting && nextAttempt <= now {
        StartConnecting(ok);
        nextAttempt := now + BACKOFF_MS[if attempt < |BACKOFF_MS| - 1 then attempt else |BACKOFF_MS| - 1];
        attempt := attempt + 1;
        tried := true;
      }
    }
  }
}
