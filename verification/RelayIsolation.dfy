/**
 Viewers do not influence one another: seen from one subscriber, a run of the whole relay is
 a run of a small machine that knows only that subscriber's queue and the delivery to it.
 The machine does not mention other subscribers, their reads, the lock or the scratch buffer.
 */
module RelayIsolation {
  import opened Wrappers
  import opened SubscriberQueue
  import opened RelayProtocol

  /** One queue and, if a packet is on its way to it, how far its delivery has got. */
  datatype Local = Local(queue: Queue<nat>, todo: Option<(nat, Phase)>)

  datatype LocalEvent = Offer(packet: nat) | Micro | LocalRead | LocalFlag | LocalClose

  function LocalStep(l: Local, e: LocalEvent, capacity: nat): Local {
    match e
    case Offer(p) => l.(todo := Some((p, Check)))
    case Micro =>
      (match l.todo
       case None => l
       case Some((p, phase)) =>
         Local(Deliver(l.queue, phase, p, capacity),
               match NextPhase(l.queue, phase, capacity)
               case None => None
               case Some(next) => Some((p, next))))
    case LocalRead => l.(queue := Read(l.queue))
    case LocalFlag => l.(queue := l.queue.(flagged := true))
    case LocalClose => l.(queue := l.queue.(closes := l.queue.closes + 1))
  }

  function LocalExec(l: Local, es: seq<LocalEvent>, capacity: nat): Local {
    if es == [] then l else LocalStep(LocalExec(l, es[..|es| - 1], capacity), es[|es| - 1], capacity)
  }

  /** The relay as subscriber s sees it. */
  ghost function View<M>(st: State<M>, s: nat): Local
    requires s in st.seats
  {
    Local(st.seats[s].queue,
          if AnyWaiting(st, s) then
            var t :| t in st.handlers && Waiting(st.handlers[t], s);
            Some(Progress(st.handlers[t], s))
          else None)
  }

  function Progress(h: Handler, s: nat): (nat, Phase)
    requires Waiting(h, s)
  {
    (h.cur, if h.snapshot[h.pos] == s then h.phase else Check)
  }

  /** The part of an event that concerns s, if any. */
  ghost function Project<M>(st: State<M>, ev: Event<M>, s: nat): seq<LocalEvent> {
    match ev
    case BeginCast(t, _, order) =>
      if st.lock.Free? && t in st.handlers && st.handlers[t].Holding? && Enumerates(order, st.subs) && s in st.subs
      then [Offer(|st.history|)] else []
    case CastStep(t) =>
      if t in st.handlers && st.handlers[t].Casting?
         && st.handlers[t].pos < |st.handlers[t].snapshot| && st.handlers[t].snapshot[st.handlers[t].pos] == s
      then [Micro] else []
    case UnsubFlag => if st.lock == Flagging(s) then [LocalFlag] else []
    case UnsubClose => if st.lock == Closing(s) then [LocalClose] else []
    case ReadOne(r) => if r == s then [LocalRead] else []
    case _ => []
  }

  ghost function ProjectRun<M>(lim: Limits, st: State<M>, evs: seq<Event<M>>, s: nat): seq<LocalEvent> {
    if evs == [] then [] else
      var before := evs[..|evs| - 1];
      ProjectRun(lim, st, before, s) + Project(Exec(lim, st, before), evs[|evs| - 1], s)
  }

  lemma ViewOfCaster<M>(lim: Limits, st: State<M>, t: nat, s: nat)
    requires ControlOk(lim, st) && s in st.seats && t in st.handlers
    ensures View(st, s).todo ==
            if Waiting(st.handlers[t], s) then Some(Progress(st.handlers[t], s)) else None
  {
    WaitingMeans(lim, st, t, s);
  }

  lemma ViewWithoutCaster<M>(st: State<M>, s: nat)
    requires s in st.seats && (forall t :: t in st.handlers ==> !st.handlers[t].Casting?)
    ensures View(st, s) == Local(st.seats[s].queue, None)
  {
  }

  lemma SameHandlersSameView<M>(lim: Limits, st: State<M>, st': State<M>, s: nat)
    requires ControlOk(lim, st) && ControlOk(lim, st')
    requires s in st.seats && s in st'.seats && st'.handlers == st.handlers
    ensures View(st', s).todo == View(st, s).todo
  {
    if t :| t in st.handlers {
      ViewOfCaster(lim, st, t, s);
      ViewOfCaster(lim, st', t, s);
    } else {
      ViewWithoutCaster(st, s);
      ViewWithoutCaster(st', s);
    }
  }

  lemma CastStepIsLocal<M>(lim: Limits, st: State<M>, t: nat, s: nat)
    requires Inv(lim, st) && s in st.seats && t in st.handlers && st.handlers[t].Casting?
    ensures
      var st' := StepCaster(lim, st, t);
      s in st'.seats && View(st', s) == LocalExec(View(st, s), Project(st, CastStep(t), s), lim.sendBuf)
  {
    var h := st.handlers[t];
    var st' := StepCaster(lim, st, t);
    CastStepOk(lim, st, CastStep(t));
    assert Inv(lim, st');
    ViewOfCaster(lim, st, t, s);
    ViewOfCaster(lim, st', t, s);
    if h.pos < |h.snapshot| {
      CasterStepShape(lim, st, t);
      var h' := st'.handlers[t];
      assert HandlerOk(lim, st, h);
      if h.snapshot[h.pos] == s {
        WaitingHere(lim, st, h, h');
        WaitingHere(lim, st, h, h);
        LocalExecOne(View(st, s), Micro, lim.sendBuf);
      } else {
        WaitingAfterMove(h, h', s);
      }
    }
  }

  lemma LocalExecOne(l: Local, e: LocalEvent, capacity: nat)
    ensures LocalExec(l, [e], capacity) == LocalStep(l, e, capacity)
  {
    assert [e][..0] == [];
  }

  lemma PublisherStepIsLocal<M>(lim: Limits, st: State<M>, ev: Event<M>, s: nat)
    requires Inv(lim, st) && s in st.seats && (ev.Claim? || ev.Release? || ev.BeginCast?)
    ensures
      var st' := Step(lim, st, ev);
      s in st'.seats && View(st', s) == LocalExec(View(st, s), Project(st, ev, s), lim.sendBuf)
  {
    var st' := Step(lim, st, ev);
    StepOk(lim, st, ev);
    if st' != st {
      ViewWithoutCaster(st, s);
      if ev.BeginCast? {
        ViewOfCaster(lim, st', ev.tid, s);
        var h := st'.handlers[ev.tid];
        assert h.snapshot[0..] == ev.order;
        LocalExecOne(View(st, s), Offer(|st.history|), lim.sendBuf);
      } else {
        ViewWithoutCaster(st', s);
      }
    }
  }

  /** The remaining events leave the handlers alone and change the queue of s only if they project to it. */
  lemma QueueStepIsLocal<M>(lim: Limits, st: State<M>, ev: Event<M>, s: nat)
    requires ControlOk(lim, st) && ControlOk(lim, Step(lim, st, ev)) && s in st.seats
    requires ev.Subscribe? || ev.UnsubBegin? || ev.UnsubFlag? || ev.UnsubClose? || ev.ReadOne?
    ensures
      var st' := Step(lim, st, ev);
      s in st'.seats && View(st', s) == LocalExec(View(st, s), Project(st, ev, s), lim.sendBuf)
  {
    var st' := Step(lim, st, ev);
    var es := Project(st, ev, s);
    assert st'.handlers == st.handlers && s in st'.seats;
    SameHandlersSameView(lim, st, st', s);
    if es != [] {
      assert es == [es[0]];
      LocalExecOne(View(st, s), es[0], lim.sendBuf);
    }
    assert st'.seats[s].queue ==
           if es == [] then st.seats[s].queue else LocalStep(View(st, s), es[0], lim.sendBuf).queue;
  }

  lemma StepIsLocal<M>(lim: Limits, st: State<M>, ev: Event<M>, s: nat)
    requires Inv(lim, st) && s in st.seats
    ensures
      var st' := Step(lim, st, ev);
      s in st'.seats && View(st', s) == LocalExec(View(st, s), Project(st, ev, s), lim.sendBuf)
  {
    if ev.Claim? || ev.Release? || ev.BeginCast? {
      PublisherStepIsLocal(lim, st, ev, s);
    } else if ev.CastStep? {
      if ev.tid in st.handlers && st.handlers[ev.tid].Casting? {
        CastStepIsLocal(lim, st, ev.tid, s);
      }
    } else {
      StepOk(lim, st, ev);
      QueueStepIsLocal(lim, st, ev, s);
    }
  }

  lemma LocalExecConcat(l: Local, a: seq<LocalEvent>, b: seq<LocalEvent>, capacity: nat)
    ensures LocalExec(l, a + b, capacity) == LocalExec(LocalExec(l, a, capacity), b, capacity)
    decreases |b|
  {
    if b == [] {
      assert a + b == a;
    } else {
      assert (a + b)[..|a + b| - 1] == a + b[..|b| - 1];
      LocalExecConcat(l, a, b[..|b| - 1], capacity);
    }
  }

  /** Any run of the relay, seen from one subscriber, is the run of its own events on its own queue. */
  lemma {:induction false} RunIsLocal<M>(lim: Limits, st: State<M>, evs: seq<Event<M>>, s: nat)
    requires Inv(lim, st) && s in st.seats
    ensures
      var end := Exec(lim, st, evs);
      s in end.seats && View(end, s) == LocalExec(View(st, s), ProjectRun(lim, st, evs, s), lim.sendBuf)
    decreases |evs|
  {
    if evs != [] {
      var before, ev := evs[..|evs| - 1], evs[|evs| - 1];
      RunIsLocal(lim, st, before, s);
      RunOk(lim, st, before);
      StepIsLocal(lim, Exec(lim, st, before), ev, s);
      LocalExecConcat(View(st, s), ProjectRun(lim, st, before, s), Project(Exec(lim, st, before), ev, s), lim.sendBuf);
    }
  }

  /**
   Isolation: two runs, possibly of different channels with different viewers, in which s has
   the same events, leave s with the same queue, the same packets received and the same drops.
   */
  lemma SameOwnEventsSameQueue<M>(lim: Limits, a: State<M>, b: State<M>, as': seq<Event<M>>, bs: seq<Event<M>>, s: nat)
    requires Inv(lim, a) && Inv(lim, b) && s in a.seats && s in b.seats
    requires View(a, s) == View(b, s)
    requires ProjectRun(lim, a, as', s) == ProjectRun(lim, b, bs, s)
    ensures s in Exec(lim, a, as').seats && s in Exec(lim, b, bs).seats
    ensures Exec(lim, a, as').seats[s].queue == Exec(lim, b, bs).seats[s].queue
  {
    RunIsLocal(lim, a, as', s);
    RunIsLocal(lim, b, bs, s);
  }

  /** Another viewer's read changes nothing that s, the broadcaster or the registrations can observe. */
  lemma OthersReadsAreInvisible<M>(lim: Limits, st: State<M>, r: nat, s: nat)
    requires Inv(lim, st) && s in st.seats && r != s
    ensures
      var st' := Step(lim, st, ReadOne(r));
      && s in st'.seats && View(st', s) == View(st, s)
      && st'.handlers == st.handlers && st'.scratch == st.scratch && st'.subs == st.subs && st'.history == st.history
  {
    StepIsLocal(lim, st, ReadOne(r), s);
  }

  // ---- the local machine against the documented drop-oldest queue ----

  function Reads(n: nat): seq<LocalEvent> {
    seq(n, _ => LocalRead)
  }

  /** A delivery that found the queue full, with any number of reads between its selects. */
  function DisturbedDelivery(beforeEvict: nat, beforeRetry: nat): seq<LocalEvent> {
    [Micro, Micro] + Reads(beforeEvict) + [Micro] + Reads(beforeRetry) + [Micro]
  }

  lemma {:induction false} ReadsDrain(l: Local, n: nat, capacity: nat)
    ensures
      var r := LocalExec(l, Reads(n), capacity);
      var k := if n <= |l.queue.buffer| then n else |l.queue.buffer|;
      && r.todo == l.todo
      && r.queue.buffer == l.queue.buffer[k..] && r.queue.closes == l.queue.closes
      && r.queue.dropped == l.queue.dropped && r.queue.flagged == l.queue.flagged
    decreases n
  {
    if n > 0 {
      assert Reads(n)[..n - 1] == Reads(n - 1);
      ReadsDrain(l, n - 1, capacity);
    }
  }

  /**
   Whatever the reader does between the selects, a delivery to a full open queue ends with the
   new packet last and a tail of the old packets before it, and it loses a packet unless the
   reader emptied the queue before the eviction.
   */
  lemma DisturbedDeliveryLosesAtMostOne(q: Queue<nat>, packet: nat, capacity: positive, beforeEvict: nat,
        beforeRetry: nat)
    requires q.Open() && !q.flagged && |q.buffer| == capacity
    ensures
      var r := LocalExec(Local(q, Some((packet, Check))), DisturbedDelivery(beforeEvict, beforeRetry), capacity);
      var gone := beforeEvict + beforeRetry + 1;
      && r.todo == None
      && r.queue.buffer == (if gone <= capacity then q.buffer[gone..] else []) + [packet]
      && r.queue.dropped == q.dropped + (if beforeEvict < capacity then 1 else 0)
  {
    var l0 := Local(q, Some((packet, Check)));
    var tried := LocalExec(l0, [Micro, Micro], capacity);
    assert [Micro, Micro][..1] == [Micro];
    LocalExecOne(l0, Micro, capacity);
    assert tried == Local(q, Some((packet, Evict)));
    LocalExecConcat(l0, [Micro, Micro], Reads(beforeEvict), capacity);
    ReadsDrain(tried, beforeEvict, capacity);
    var drained := LocalExec(tried, Reads(beforeEvict), capacity);
    LocalExecConcat(l0, [Micro, Micro] + Reads(beforeEvict), [Micro], capacity);
    LocalExecOne(drained, Micro, capacity);
    var evicted := LocalStep(drained, Micro, capacity);
    LocalExecConcat(l0, [Micro, Micro] + Reads(beforeEvict) + [Micro], Reads(beforeRetry), capacity);
    ReadsDrain(evicted, beforeRetry, capacity);
    var ready := LocalExec(evicted, Reads(beforeRetry), capacity);
    LocalExecConcat(l0, [Micro, Micro] + Reads(beforeEvict) + [Micro] + Reads(beforeRetry), [Micro], capacity);
    LocalExecOne(ready, Micro, capacity);
  }
}
