/**
 One relay channel as a transition system over its atomic steps: each section under
 the channel mutex, each select of deliver, each receive of a viewer's connection, and the
 steps of an unsubscribe. Any number of publisher handlers and viewers run at once;
 a schedule is any sequence of events, and an event that is not enabled changes nothing.

 The broadcaster keeps no copy of its snapshot: it reads the shared scratch buffer outside
 the lock, as the code does. The snapshot taken is remembered beside it only so that the
 two can be compared.
 */
module RelayProtocol {
  import opened Wrappers
  import opened SubscriberQueue

  type positive = n: nat | n >= 1 witness 1

  datatype Limits = Limits(maxSubs: nat, sendBuf: positive)

  /** A publisher handler that has claimed the channel: between packets, or inside Broadcast. */
  datatype Handler = Holding | Casting(cur: nat, snapshot: seq<nat>, pos: nat, phase: Phase)

  /** Who holds the mutex between steps. Only an unsubscribe keeps it for more than one step that others can observe. */
  datatype Lock = Free | Flagging(sub: nat) | Closing(sub: nat)

  /** A subscriber's queue of history positions, and the length of the history when it joined. */
  datatype Seat = Seat(queue: Queue<nat>, joined: nat)

  datatype State<M> = State(
    hasPub: bool,
    handlers: map<nat, Handler>,
    subs: set<nat>,
    seats: map<nat, Seat>,
    scratch: seq<nat>,
    history: seq<M>,
    lock: Lock)

  datatype Event<M> =
    | Claim(tid: nat)
    | Release(tid: nat)
    | BeginCast(tid: nat, message: M, order: seq<nat>)
    | CastStep(tid: nat)
    | Subscribe(sub: nat)
    | UnsubBegin(sub: nat)
    | UnsubFlag
    | UnsubClose
    | ReadOne(sub: nat)

  function Init<M>(): State<M> {
    State(false, map[], {}, map[], [], [], Free)
  }

  ghost predicate Enumerates(order: seq<nat>, subs: set<nat>) {
    && (forall i, j :: 0 <= i < j < |order| ==> order[i] != order[j])
    && (forall s :: s in order <==> s in subs)
  }

  /** The reused scratch slice: the first cells are overwritten, the rest of the backing array stays. */
  function Overwrite(scratch: seq<nat>, order: seq<nat>): seq<nat> {
    if |order| <= |scratch| then order + scratch[|order|..] else order
  }

  ghost function Step<M>(lim: Limits, st: State<M>, ev: Event<M>): State<M> {
    match ev
    case Claim(t) =>
      if st.lock.Free? && t !in st.handlers && !st.hasPub then
        st.(hasPub := true, handlers := st.handlers[t := Holding])
      else st
    case Release(t) =>
      if st.lock.Free? && t in st.handlers && st.handlers[t].Holding? then
        st.(hasPub := false, handlers := st.handlers - {t})
      else st
    case BeginCast(t, message, order) =>
      if st.lock.Free? && t in st.handlers && st.handlers[t].Holding? && Enumerates(order, st.subs) then
        st.(scratch := Overwrite(st.scratch, order),
            history := st.history + [message],
            handlers := st.handlers[t := Casting(|st.history|, order, 0, Check)])
      else st
    case CastStep(t) =>
      if t in st.handlers && st.handlers[t].Casting? then StepCaster(lim, st, t) else st
    case Subscribe(s) =>
      if st.lock.Free? && s !in st.seats && |st.subs| < lim.maxSubs then
        st.(subs := st.subs + {s}, seats := st.seats[s := Seat(NewQueue(), |st.history|)])
      else st
    case UnsubBegin(s) =>
      if st.lock.Free? && s in st.subs then st.(subs := st.subs - {s}, lock := Flagging(s)) else st
    case UnsubFlag =>
      if st.lock.Flagging? && st.lock.sub in st.seats then
        var s := st.lock.sub;
        WithQueue(st, s, st.seats[s].queue.(flagged := true)).(lock := Closing(s))
      else st
    case UnsubClose =>
      if st.lock.Closing? && st.lock.sub in st.seats then
        var s := st.lock.sub;
        WithQueue(st, s, st.seats[s].queue.(closes := st.seats[s].queue.closes + 1)).(lock := Free)
      else st
    case ReadOne(s) =>
      if s in st.seats then WithQueue(st, s, Read(st.seats[s].queue)) else st
  }

  function WithQueue<M>(st: State<M>, s: nat, q: Queue<nat>): State<M>
    requires s in st.seats
  {
    st.(seats := st.seats[s := st.seats[s].(queue := q)])
  }

  /** The broadcaster's own step: it works on whatever the scratch buffer now holds at its position. */
  ghost function StepCaster<M>(lim: Limits, st: State<M>, t: nat): State<M>
    requires t in st.handlers && st.handlers[t].Casting?
  {
    var h := st.handlers[t];
    if h.pos >= |h.snapshot| then st.(handlers := st.handlers[t := Holding])
    else if h.pos >= |st.scratch| || st.scratch[h.pos] !in st.seats then st
    else
      var s := st.scratch[h.pos];
      var q := st.seats[s].queue;
      var h' := match NextPhase(q, h.phase, lim.sendBuf)
                case None => h.(pos := h.pos + 1, phase := Check)
                case Some(p) => h.(phase := p);
      WithQueue(st, s, Deliver(q, h.phase, h.cur, lim.sendBuf)).(handlers := st.handlers[t := h'])
  }

  ghost function Exec<M>(lim: Limits, st: State<M>, evs: seq<Event<M>>): State<M> {
    if evs == [] then st else
      Step(lim, Exec(lim, st, evs[..|evs| - 1]), evs[|evs| - 1])
  }

  // ---- the invariant ----

  /** The broadcast in flight has not finished with s. */
  predicate Waiting(h: Handler, s: nat) {
    h.Casting? && h.pos <= |h.snapshot| && s in h.snapshot[h.pos..]
  }

  ghost predicate AnyWaiting<M>(st: State<M>, s: nat) {
    exists t :: t in st.handlers && Waiting(st.handlers[t], s)
  }

  function Range(lo: nat, hi: nat): (r: seq<nat>)
    requires lo <= hi
    ensures |r| == hi - lo
    ensures forall i :: 0 <= i < |r| ==> r[i] == lo + i
  {
    seq(hi - lo, i requires 0 <= i => lo + i)
  }

  /** One past the last history position this seat has accepted. */
  function Reached(seat: Seat): nat {
    seat.joined + |seat.queue.fates| + |seat.queue.buffer|
  }

  /** What a seat has accepted is an unbroken stretch of the history, from where it joined. */
  ghost predicate SeatOk(lim: Limits, seat: Seat, history: nat) {
    && Reached(seat) <= history
    && Accepted(seat.queue) == Range(seat.joined, Reached(seat))
    && |seat.queue.buffer| <= lim.sendBuf
    && seat.queue.closes <= 1
    && (seat.queue.Open() ==> seat.queue.dropped == Evictions(seat.queue.fates))
  }

  /** How far an open seat must have got. */
  ghost predicate CaughtUp<M>(st: State<M>, s: nat)
    requires s in st.seats
  {
    var seat := st.seats[s];
    seat.queue.Open() ==>
      if AnyWaiting(st, s) then Reached(seat) == |st.history| - 1
      else !seat.queue.flagged ==> Reached(seat) == |st.history|
  }

  ghost predicate HandlerOk<M>(lim: Limits, st: State<M>, h: Handler) {
    h.Casting? ==>
      && h.cur == |st.history| - 1
      && h.pos <= |h.snapshot|
      && |h.snapshot| <= |st.scratch|
      && st.scratch[..|h.snapshot|] == h.snapshot
      && (forall i, j :: 0 <= i < j < |h.snapshot| ==> h.snapshot[i] != h.snapshot[j])
      && (forall s :: s in h.snapshot ==> s in st.seats)
      && (h.pos == |h.snapshot| ==> h.phase == Check)
      && (h.pos < |h.snapshot| && h.phase == Second ==>
            var q := st.seats[h.snapshot[h.pos]].queue;
            q.Open() ==> |q.buffer| < lim.sendBuf)
  }

  /** The flag and the close follow the registration, one locked step apart. */
  ghost predicate Registered<M>(st: State<M>, s: nat)
    requires s in st.seats
  {
    var q := st.seats[s].queue;
    && (q.Open() <==> s in st.subs || (!st.lock.Free? && st.lock.sub == s))
    && (q.flagged <==> s !in st.subs && !(st.lock.Flagging? && st.lock.sub == s))
  }

  ghost predicate ControlOk<M>(lim: Limits, st: State<M>) {
    && (st.hasPub <==> st.handlers != map[])
    && (forall t, u :: t in st.handlers && u in st.handlers ==> t == u)
    && |st.subs| <= lim.maxSubs
    && st.subs <= st.seats.Keys
    && (!st.lock.Free? ==> st.lock.sub in st.seats && st.lock.sub !in st.subs)
  }

  ghost predicate HandlersOk<M>(lim: Limits, st: State<M>) {
    forall t :: t in st.handlers ==> HandlerOk(lim, st, st.handlers[t])
  }

  ghost predicate SeatsOk<M>(lim: Limits, st: State<M>) {
    forall s :: s in st.seats ==> SeatOk(lim, st.seats[s], |st.history|) && CaughtUp(st, s) && Registered(st, s)
  }

  ghost predicate Inv<M>(lim: Limits, st: State<M>) {
    ControlOk(lim, st) && HandlersOk(lim, st) && SeatsOk(lim, st)
  }

  // ---- every step keeps it ----

  lemma InitOk<M>(lim: Limits)
    ensures Inv(lim, Init<M>())
  {
  }

  lemma PublisherStepOk<M>(lim: Limits, st: State<M>, ev: Event<M>)
    requires Inv(lim, st) && (ev.Claim? || ev.Release?)
    ensures Inv(lim, Step(lim, st, ev))
  {
    var st' := Step(lim, st, ev);
    forall s | s in st.seats ensures AnyWaiting(st', s) == AnyWaiting(st, s) {
      if t :| t in st.handlers && Waiting(st.handlers[t], s) {
        assert t in st'.handlers && st'.handlers[t] == st.handlers[t];
      }
      if t :| t in st'.handlers && Waiting(st'.handlers[t], s) {
        assert t in st.handlers && st'.handlers[t] == st.handlers[t];
      }
    }
    if ev.Release? && st' != st {
      assert st'.handlers == map[];
    }
  }

  lemma BeginCastOk<M>(lim: Limits, st: State<M>, ev: Event<M>)
    requires Inv(lim, st) && ev.BeginCast?
    ensures Inv(lim, Step(lim, st, ev))
  {
    var st' := Step(lim, st, ev);
    if st' != st {
      var h := st'.handlers[ev.tid];
      forall s | s in st.seats ensures AnyWaiting(st', s) <==> s in st.subs {
        assert h.snapshot[0..] == ev.order;
        if s in st.subs {
          assert Waiting(st'.handlers[ev.tid], s);
        }
      }
      forall s | s in st.seats ensures !AnyWaiting(st, s) {
        assert !Waiting(st.handlers[ev.tid], s);
      }
      assert Overwrite(st.scratch, ev.order)[..|ev.order|] == ev.order;
    }
  }

  lemma SubscribeOk<M>(lim: Limits, st: State<M>, ev: Event<M>)
    requires Inv(lim, st) && ev.Subscribe?
    ensures Inv(lim, Step(lim, st, ev))
  {
    var st' := Step(lim, st, ev);
    if st' != st {
      forall s | s in st'.seats
        ensures SeatOk(lim, st'.seats[s], |st'.history|) && CaughtUp(st', s) && Registered(st', s)
      {
        if s == ev.sub {
          assert !AnyWaiting(st', s);
          assert Accepted(st'.seats[s].queue) == [];
        } else {
          SameHandlersSameWaiting(st, st', s);
          assert st'.seats[s] == st.seats[s];
        }
      }
      forall t | t in st'.handlers ensures HandlerOk(lim, st', st'.handlers[t]) {
        assert HandlerOk(lim, st, st.handlers[t]);
      }
    }
  }

  lemma SameHandlersSameWaiting<M>(st: State<M>, st': State<M>, s: nat)
    requires st'.handlers == st.handlers
    ensures AnyWaiting(st', s) == AnyWaiting(st, s)
  {
  }

  /** A step that touches one queue, without a send, and no handler. */
  lemma QueueStepOk<M>(lim: Limits, st: State<M>, s: nat, q: Queue<nat>)
    requires Inv(lim, st) && s in st.seats
    requires Accepted(q) == Accepted(st.seats[s].queue)
    requires |q.fates| + |q.buffer| == |st.seats[s].queue.fates| + |st.seats[s].queue.buffer|
    requires |q.buffer| <= |st.seats[s].queue.buffer|
    requires q.closes <= 1 && (q.Open() ==> st.seats[s].queue.Open() && q.dropped == Evictions(q.fates))
    requires st.seats[s].queue.flagged ==> q.flagged
    ensures var st' := WithQueue(st, s, q);
            && HandlersOk(lim, st')
            && (forall r :: r in st'.seats ==> SeatOk(lim, st'.seats[r], |st'.history|) && CaughtUp(st', r))
  {
    var st' := WithQueue(st, s, q);
    forall r | r in st'.seats
      ensures SeatOk(lim, st'.seats[r], |st'.history|) && CaughtUp(st', r)
    {
      SameHandlersSameWaiting(st, st', r);
      assert SeatOk(lim, st.seats[r], |st.history|) && CaughtUp(st, r);
    }
    forall t | t in st'.handlers ensures HandlerOk(lim, st', st'.handlers[t]) {
      assert HandlerOk(lim, st, st.handlers[t]);
    }
  }

  lemma UnsubBeginOk<M>(lim: Limits, st: State<M>, ev: Event<M>)
    requires Inv(lim, st) && ev.UnsubBegin?
    ensures Inv(lim, Step(lim, st, ev))
  {
    var st' := Step(lim, st, ev);
    if st' != st {
      forall s | s in st'.seats
        ensures SeatOk(lim, st'.seats[s], |st'.history|) && CaughtUp(st', s) && Registered(st', s)
      {
        SameHandlersSameWaiting(st, st', s);
        assert SeatOk(lim, st.seats[s], |st.history|) && CaughtUp(st, s) && Registered(st, s);
      }
      forall t | t in st'.handlers ensures HandlerOk(lim, st', st'.handlers[t]) {
        assert HandlerOk(lim, st, st.handlers[t]);
      }
    }
  }

  lemma UnsubFlagOk<M>(lim: Limits, st: State<M>, ev: Event<M>)
    requires Inv(lim, st) && ev.UnsubFlag?
    ensures Inv(lim, Step(lim, st, ev))
  {
    var st' := Step(lim, st, ev);
    if st' != st {
      var s := st.lock.sub;
      var q := st.seats[s].queue.(flagged := true);
      assert SeatOk(lim, st.seats[s], |st.history|) && Registered(st, s);
      QueueStepOk(lim, st, s, q);
      LockChangeOk(lim, WithQueue(st, s, q), Closing(s));
      forall r | r in st'.seats ensures Registered(st', r) {
        assert Registered(st, r);
      }
    }
  }

  lemma UnsubCloseOk<M>(lim: Limits, st: State<M>, ev: Event<M>)
    requires Inv(lim, st) && ev.UnsubClose?
    ensures Inv(lim, Step(lim, st, ev))
  {
    var st' := Step(lim, st, ev);
    if st' != st {
      var s := st.lock.sub;
      var q := st.seats[s].queue.(closes := st.seats[s].queue.closes + 1);
      assert SeatOk(lim, st.seats[s], |st.history|) && Registered(st, s);
      QueueStepOk(lim, st, s, q);
      LockChangeOk(lim, WithQueue(st, s, q), Free);
      ClosedRegistered(lim, st, s, q);
    }
  }

  lemma ClosedRegistered<M>(lim: Limits, st: State<M>, s: nat, q: Queue<nat>)
    requires ControlOk(lim, st) && (forall r :: r in st.seats ==> Registered(st, r))
    requires st.lock == Closing(s) && s in st.seats && q == st.seats[s].queue.(closes := st.seats[s].queue.closes + 1)
    ensures
      var st' := WithQueue(st, s, q).(lock := Free);
      ControlOk(lim, st') && forall r :: r in st'.seats ==> Registered(st', r)
  {
    var st' := WithQueue(st, s, q).(lock := Free);
    forall r | r in st'.seats ensures Registered(st', r) {
      assert Registered(st, r);
    }
  }

  lemma LockChangeOk<M>(lim: Limits, st: State<M>, lock: Lock)
    requires HandlersOk(lim, st)
    requires forall r :: r in st.seats ==> SeatOk(lim, st.seats[r], |st.history|) && CaughtUp(st, r)
    ensures var st' := st.(lock := lock);
            && HandlersOk(lim, st')
            && (forall r :: r in st'.seats ==> SeatOk(lim, st'.seats[r], |st'.history|) && CaughtUp(st', r))
  {
    var st' := st.(lock := lock);
    forall r | r in st'.seats ensures CaughtUp(st', r) {
      SameHandlersSameWaiting(st, st', r);
      assert CaughtUp(st, r);
    }
    forall t | t in st'.handlers ensures HandlerOk(lim, st', st'.handlers[t]) {
      assert HandlerOk(lim, st, st.handlers[t]);
    }
  }

  lemma ReadOk<M>(lim: Limits, st: State<M>, ev: Event<M>)
    requires Inv(lim, st) && ev.ReadOne?
    ensures Inv(lim, Step(lim, st, ev))
  {
    if ev.sub in st.seats {
      var q := st.seats[ev.sub].queue;
      assert SeatOk(lim, st.seats[ev.sub], |st.history|);
      ReadFacts(q);
      QueueStepOk(lim, st, ev.sub, Read(q));
      SameFlagsSameRegistered(st, ev.sub, Read(q));
    }
  }

  lemma ReadFacts(q: Queue<nat>)
    ensures
      var q' := Read(q);
      && Accepted(q') == Accepted(q) && |q'.fates| + |q'.buffer| == |q.fates| + |q.buffer| && |q'.buffer| <= |q.buffer|
      && q'.closes == q.closes && q'.flagged == q.flagged && q'.dropped == q.dropped
           && Evictions(q'.fates) == Evictions(q.fates)
  {
    StepsKeepAccepted(q);
    if q.buffer != [] {
      DepartedAppend(q.fates, Taken(q.buffer[0]));
    }
  }

  lemma SameFlagsSameRegistered<M>(st: State<M>, s: nat, q: Queue<nat>)
    requires s in st.seats && forall r :: r in st.seats ==> Registered(st, r)
    requires q.closes == st.seats[s].queue.closes && q.flagged == st.seats[s].queue.flagged
    ensures var st' := WithQueue(st, s, q); forall r :: r in st'.seats ==> Registered(st', r)
  {
    var st' := WithQueue(st, s, q);
    forall r | r in st'.seats ensures Registered(st', r) {
      assert Registered(st, r);
    }
  }

  /** The caster's step at a queue: a send continues the stretch, an eviction keeps it. */
  lemma DeliverKeepsSeat(lim: Limits, seat: Seat, history: nat, phase: Phase)
    requires history >= 1 && SeatOk(lim, seat, history)
    requires seat.queue.Open() ==> Reached(seat) == history - 1
    requires seat.queue.Open() && phase == Second ==> |seat.queue.buffer| < lim.sendBuf
    ensures var seat' := seat.(queue := Deliver(seat.queue, phase, history - 1, lim.sendBuf));
            && SeatOk(lim, seat', history)
            && seat'.queue.closes == seat.queue.closes && seat'.queue.flagged == seat.queue.flagged
            && (seat.queue.Open() ==>
                  Reached(seat') ==
                    if NextPhase(seat.queue, phase, lim.sendBuf) == None && phase != Check
                    then history else history - 1)
            && (seat.queue.Open() && phase == Evict ==> |seat'.queue.buffer| < lim.sendBuf)
  {
    var q := seat.queue;
    if phase == Evict {
      EvictKeepsSeat(lim, seat, history);
    } else if Deliver(q, phase, history - 1, lim.sendBuf) != q {
      SendKeepsSeat(lim, seat, history);
    }
  }

  lemma EvictKeepsSeat(lim: Limits, seat: Seat, history: nat)
    requires history >= 1 && SeatOk(lim, seat, history)
    ensures var seat' := seat.(queue := Deliver(seat.queue, Evict, history - 1, lim.sendBuf));
            && SeatOk(lim, seat', history) && Reached(seat') == Reached(seat)
            && seat'.queue.closes == seat.queue.closes && seat'.queue.flagged == seat.queue.flagged
            && (seat.queue.Open() ==> |seat'.queue.buffer| < lim.sendBuf)
  {
    var q := seat.queue;
    StepsKeepAccepted(q);
    if q.buffer != [] {
      DepartedAppend(q.fates, Evicted(q.buffer[0]));
    }
  }

  lemma SendKeepsSeat(lim: Limits, seat: Seat, history: nat)
    requires history >= 1 && SeatOk(lim, seat, history) && seat.queue.Open() && Reached(seat) == history - 1
    requires |seat.queue.buffer| < lim.sendBuf
    ensures var seat' := seat.(queue := seat.queue.(buffer := seat.queue.buffer + [history - 1]));
            SeatOk(lim, seat', history) && Reached(seat') == history
  {
    var q := seat.queue;
    assert Accepted(q.(buffer := q.buffer + [history - 1])) == Accepted(q) + [history - 1];
    assert Range(seat.joined, history) == Range(seat.joined, history - 1) + [history - 1];
  }

  lemma CastStepOk<M>(lim: Limits, st: State<M>, ev: Event<M>)
    requires Inv(lim, st) && ev.CastStep?
    ensures Inv(lim, Step(lim, st, ev))
  {
    var t := ev.tid;
    if t in st.handlers && st.handlers[t].Casting? {
      var h := st.handlers[t];
      assert HandlerOk(lim, st, h);
      if h.pos < |h.snapshot| {
        CastAtOk(lim, st, t);
      } else {
        var st' := Step(lim, st, ev);
        assert st' == st.(handlers := st.handlers[t := Holding]);
        forall s | s in st'.seats
          ensures SeatOk(lim, st'.seats[s], |st'.history|) && CaughtUp(st', s) && Registered(st', s)
        {
          assert SeatOk(lim, st.seats[s], |st.history|) && CaughtUp(st, s) && Registered(st, s);
          assert !Waiting(h, s);
          assert !AnyWaiting(st, s);
          assert !AnyWaiting(st', s);
        }
      }
    }
  }

  /** With a single caster, waiting is about its snapshot. */
  lemma WaitingMeans<M>(lim: Limits, st: State<M>, t: nat, s: nat)
    requires ControlOk(lim, st) && t in st.handlers
    ensures AnyWaiting(st, s) <==> Waiting(st.handlers[t], s)
  {
  }

  /** What the caster's step does when its scratch buffer still is its snapshot. */
  lemma CasterStepShape<M>(lim: Limits, st: State<M>, t: nat)
    requires Inv(lim, st) && t in st.handlers && st.handlers[t].Casting?
    requires st.handlers[t].pos < |st.handlers[t].snapshot|
    ensures
      var h := st.handlers[t];
      var s := h.snapshot[h.pos];
      && h.pos < |st.scratch| && st.scratch[h.pos] == s && s in st.seats
      && AnyWaiting(st, s)
      && SeatOk(lim, st.seats[s], |st.history|) && |st.history| >= 1 && h.cur == |st.history| - 1
      && (st.seats[s].queue.Open() ==> Reached(st.seats[s]) == |st.history| - 1)
      && (st.seats[s].queue.Open() && h.phase == Second ==> |st.seats[s].queue.buffer| < lim.sendBuf)
  {
    var h := st.handlers[t];
    assert HandlerOk(lim, st, h);
    var s := h.snapshot[h.pos];
    assert st.scratch[h.pos] == s by { assert st.scratch[..|h.snapshot|][h.pos] == s; }
    assert Waiting(h, s) by { assert h.snapshot[h.pos..][0] == s; }
    assert SeatOk(lim, st.seats[s], |st.history|) && CaughtUp(st, s);
  }

  lemma CastAtOk<M>(lim: Limits, st: State<M>, t: nat)
    requires Inv(lim, st) && t in st.handlers && st.handlers[t].Casting?
    requires st.handlers[t].pos < |st.handlers[t].snapshot|
    ensures Inv(lim, StepCaster(lim, st, t))
  {
    var h := st.handlers[t];
    CasterStepShape(lim, st, t);
    var s := h.snapshot[h.pos];
    DeliverKeepsSeat(lim, st.seats[s], |st.history|, h.phase);
    var st' := StepCaster(lim, st, t);
    CastKeepsSeats(lim, st, t);
    assert ControlOk(lim, st');
    forall u | u in st'.handlers ensures HandlerOk(lim, st', st'.handlers[u]) {
      assert u == t;
      assert HandlerOk(lim, st, h);
    }
  }

  lemma CastKeepsSeats<M>(lim: Limits, st: State<M>, t: nat)
    requires Inv(lim, st) && t in st.handlers && st.handlers[t].Casting?
    requires st.handlers[t].pos < |st.handlers[t].snapshot|
    ensures SeatsOk(lim, StepCaster(lim, st, t))
  {
    var h := st.handlers[t];
    CasterStepShape(lim, st, t);
    var s := h.snapshot[h.pos];
    DeliverKeepsSeat(lim, st.seats[s], |st.history|, h.phase);
    var st' := StepCaster(lim, st, t);
    assert ControlOk(lim, st');
    forall r | r in st'.seats
      ensures SeatOk(lim, st'.seats[r], |st'.history|) && CaughtUp(st', r) && Registered(st', r)
    {
      assert SeatOk(lim, st.seats[r], |st.history|) && CaughtUp(st, r) && Registered(st, r);
      if r != s {
        OtherSeatKeeps(lim, st, st', t, r);
      } else {
        WaitingMeans(lim, st', t, r);
        WaitingHere(lim, st, h, st'.handlers[t]);
      }
    }
  }

  /** A seat that the caster does not touch. */
  lemma OtherSeatKeeps<M>(lim: Limits, st: State<M>, st': State<M>, t: nat, r: nat)
    requires ControlOk(lim, st) && ControlOk(lim, st') && t in st.handlers && t in st'.handlers
    requires r in st.seats && r in st'.seats && st'.seats[r] == st.seats[r]
    requires st'.history == st.history && st'.subs == st.subs && st'.lock == st.lock
    requires st.handlers[t].Casting? && st.handlers[t].pos < |st.handlers[t].snapshot|
    requires r != st.handlers[t].snapshot[st.handlers[t].pos]
    requires st'.handlers[t].Casting? && st'.handlers[t].snapshot == st.handlers[t].snapshot
    requires st.handlers[t].pos <= st'.handlers[t].pos <= st.handlers[t].pos + 1
    requires CaughtUp(st, r) && Registered(st, r)
    ensures CaughtUp(st', r) && Registered(st', r)
  {
    WaitingMeans(lim, st, t, r);
    WaitingMeans(lim, st', t, r);
    WaitingAfterMove(st.handlers[t], st'.handlers[t], r);
  }

  lemma WaitingHere<M>(lim: Limits, st: State<M>, h: Handler, h': Handler)
    requires HandlerOk(lim, st, h)
    requires h.Casting? && h.pos < |h.snapshot|
    requires h'.Casting? && h'.snapshot == h.snapshot && h.pos <= h'.pos <= h.pos + 1
    ensures Waiting(h', h.snapshot[h.pos]) <==> h'.pos == h.pos
  {
    if h'.pos == h.pos {
      assert h.snapshot[h.pos..][0] == h.snapshot[h.pos];
    }
  }

  lemma WaitingAfterMove(h: Handler, h': Handler, r: nat)
    requires h.Casting? && h.pos < |h.snapshot| && r != h.snapshot[h.pos]
    requires h'.Casting? && h'.snapshot == h.snapshot && h.pos <= h'.pos <= h.pos + 1
    ensures Waiting(h', r) == Waiting(h, r)
  {
    assert h.snapshot[h.pos..] == [h.snapshot[h.pos]] + h.snapshot[h.pos + 1..];
  }

  lemma StepOk<M>(lim: Limits, st: State<M>, ev: Event<M>)
    requires Inv(lim, st)
    ensures Inv(lim, Step(lim, st, ev))
  {
    match ev
    case Claim(_) => PublisherStepOk(lim, st, ev);
    case Release(_) => PublisherStepOk(lim, st, ev);
    case BeginCast(_, _, _) => BeginCastOk(lim, st, ev);
    case CastStep(_) => CastStepOk(lim, st, ev);
    case Subscribe(_) => SubscribeOk(lim, st, ev);
    case UnsubBegin(_) => UnsubBeginOk(lim, st, ev);
    case UnsubFlag => UnsubFlagOk(lim, st, ev);
    case UnsubClose => UnsubCloseOk(lim, st, ev);
    case ReadOne(_) => ReadOk(lim, st, ev);
  }

  /** Every schedule keeps the invariant. */
  lemma {:induction false} RunOk<M>(lim: Limits, st: State<M>, evs: seq<Event<M>>)
    requires Inv(lim, st)
    ensures Inv(lim, Exec(lim, st, evs))
    decreases |evs|
  {
    if evs != [] {
      RunOk(lim, st, evs[..|evs| - 1]);
      StepOk(lim, Exec(lim, st, evs[..|evs| - 1]), evs[|evs| - 1]);
    }
  }
}
