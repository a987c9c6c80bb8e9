/** What the relay channel promises its publisher and its viewers, over every schedule. */
module RelayGuarantees {
  import opened SubscriberQueue
  import opened RelayProtocol

  ghost function Run<M>(lim: Limits, evs: seq<Event<M>>): State<M> {
    Exec(lim, Init<M>(), evs)
  }

  lemma RunInv<M>(lim: Limits, evs: seq<Event<M>>)
    ensures Inv(lim, Run(lim, evs))
  {
    InitOk<M>(lim);
    RunOk(lim, Init<M>(), evs);
  }

  // ---- what a viewer sees ----

  lemma SeenFromInv<M>(lim: Limits, st: State<M>, s: nat)
    requires Inv(lim, st) && s in st.seats
    ensures
      var seat := st.seats[s];
      var seen := Received(seat.queue.fates) + seat.queue.buffer;
      && Increasing(seen)
      && (forall i :: i in seen ==> seat.joined <= i < |st.history|)
      && |seen| + Evictions(seat.queue.fates) == Reached(seat) - seat.joined
  {
    var seat := st.seats[s];
    var q := seat.queue;
    assert SeatOk(lim, seat, |st.history|);
    var all := Accepted(q);
    var k := |q.fates|;
    assert Departed(q.fates) == all[..k] && q.buffer == all[k..];
    ReceivedIsOrdered(q.fates);
    ReceivedPlusEvicted(q.fates);
    var got := Received(q.fates);
    forall i | 0 <= i < |got| ensures seat.joined <= got[i] < seat.joined + k {
      assert got[i] in Departed(q.fates);
    }
    assert forall i :: 0 <= i < |q.buffer| ==> q.buffer[i] == seat.joined + k + i;
  }

  /** The packets that the viewer's connection has been handed, and writes to its socket in this order. */
  ghost function HandedOut<M>(lim: Limits, evs: seq<Event<M>>, s: nat): seq<nat> {
    if evs == [] then [] else
      var before, ev := evs[..|evs| - 1], evs[|evs| - 1];
      var st := Run(lim, before);
      HandedOut(lim, before, s)
      + if ev == ReadOne(s) && s in st.seats && ReadResult(st.seats[s].queue).Got?
        then [ReadResult(st.seats[s].queue).packet]
        else []
  }

  lemma OthersKeepReceived<M>(lim: Limits, st: State<M>, ev: Event<M>, s: nat)
    requires ev != ReadOne(s) && s in Step(lim, st, ev).seats
    ensures
      var q' := Step(lim, st, ev).seats[s].queue;
      Received(q'.fates) == if s in st.seats then Received(st.seats[s].queue.fates) else []
  {
    if ev.CastStep? && ev.tid in st.handlers && st.handlers[ev.tid].Casting? {
      CasterKeepsReceived(lim, st, ev.tid, s);
    }
  }

  lemma CasterKeepsReceived<M>(lim: Limits, st: State<M>, t: nat, s: nat)
    requires t in st.handlers && st.handlers[t].Casting? && s in StepCaster(lim, st, t).seats
    ensures s in st.seats
    ensures Received(StepCaster(lim, st, t).seats[s].queue.fates) == Received(st.seats[s].queue.fates)
  {
    if st.seats[s].queue.buffer != [] {
      DepartedAppend(st.seats[s].queue.fates, Evicted(st.seats[s].queue.buffer[0]));
    }
  }

  lemma SeatsStay<M>(lim: Limits, st: State<M>, ev: Event<M>, s: nat)
    requires s in st.seats
    ensures s in Step(lim, st, ev).seats
  {
  }

  /** They are exactly the packets that left its queue without being evicted. */
  lemma {:induction false} HandedOutIsReceived<M>(lim: Limits, evs: seq<Event<M>>, s: nat)
    ensures HandedOut(lim, evs, s) ==
              if s in Run(lim, evs).seats then Received(Run(lim, evs).seats[s].queue.fates) else []
    decreases |evs|
  {
    if evs != [] {
      var before, ev := evs[..|evs| - 1], evs[|evs| - 1];
      var st := Run(lim, before);
      HandedOutIsReceived(lim, before, s);
      if s in st.seats {
        SeatsStay(lim, st, ev, s);
      }
      if ev == ReadOne(s) {
        if s in st.seats {
          HandedOverStep(lim, st, s);
        }
      } else if s in Step(lim, st, ev).seats {
        OthersKeepReceived(lim, st, ev, s);
      }
    }
  }

  lemma HandedOverStep<M>(lim: Limits, st: State<M>, s: nat)
    requires s in st.seats
    ensures
      var r := ReadResult(st.seats[s].queue);
      Received(Step(lim, st, ReadOne(s)).seats[s].queue.fates) ==
        Received(st.seats[s].queue.fates) + if r.Got? then [r.packet] else []
  {
    var q := st.seats[s].queue;
    if ReadResult(q).Got? {
      ReadHandsOver(q, ReadResult(q).packet);
    }
  }

  /**
   In every schedule, what a viewer's connection was handed followed by what is still queued for it is a
   strictly increasing list of history positions broadcast after it joined: nothing is
   reordered, repeated or made up, and nothing is skipped except what was evicted.
   */
  lemma ViewerSeesSubsequence<M>(lim: Limits, evs: seq<Event<M>>, s: nat)
    requires s in Run(lim, evs).seats
    ensures
      var st := Run(lim, evs);
      var seat := st.seats[s];
      var seen := HandedOut(lim, evs, s) + seat.queue.buffer;
      && Increasing(seen)
      && (forall i :: i in seen ==> seat.joined <= i < |st.history|)
      && |seen| + Evictions(seat.queue.fates) == Reached(seat) - seat.joined
  {
    RunInv(lim, evs);
    HandedOutIsReceived(lim, evs, s);
    SeenFromInv(lim, Run(lim, evs), s);
  }

  lemma LatestBlock<M>(lim: Limits, evs: seq<Event<M>>, s: nat)
    requires s in Run(lim, evs).subs
    ensures
      var st := Run(lim, evs);
      && s in st.seats
      && var seat := st.seats[s];
         var q := seat.queue;
         var end := |st.history| - if AnyWaiting(st, s) then 1 else 0;
         && q.Open() && !q.flagged
         && |q.buffer| <= lim.sendBuf
         && 0 <= end - |q.buffer| && q.buffer == Range(end - |q.buffer|, end)
         && |Received(q.fates)| + |q.buffer| + q.dropped == end - seat.joined
  {
    RunInv(lim, evs);
    var st := Run(lim, evs);
    var seat := st.seats[s];
    assert SeatOk(lim, seat, |st.history|) && CaughtUp(st, s) && Registered(st, s);
    ReceivedPlusEvicted(seat.queue.fates);
    var k := |seat.queue.fates|;
    assert seat.queue.buffer == Accepted(seat.queue)[k..];
    assert forall i :: 0 <= i < |seat.queue.buffer| ==> seat.queue.buffer[i] == seat.joined + k + i;
  }

  /**
   While a subscription is open its queue is the unbroken block of the history that ends at
   the last packet delivered to it, never longer than the configured depth; and once no
   delivery to it is pending, handed out + queued + dropped is everything broadcast since it joined.
   */
  lemma OpenQueueIsLatestBlock<M>(lim: Limits, evs: seq<Event<M>>, s: nat)
    requires s in Run(lim, evs).subs
    ensures
      var st := Run(lim, evs);
      && s in st.seats
      && var seat := st.seats[s];
         var q := seat.queue;
         var end := |st.history| - if AnyWaiting(st, s) then 1 else 0;
         && q.Open() && !q.flagged
         && |q.buffer| <= lim.sendBuf
         && 0 <= end - |q.buffer| && q.buffer == Range(end - |q.buffer|, end)
         && |HandedOut(lim, evs, s)| + |q.buffer| + q.dropped == end - seat.joined
  {
    LatestBlock(lim, evs, s);
    HandedOutIsReceived(lim, evs, s);
  }

  /** The branch "still couldn't queue" is dead: whenever the last select runs on an open queue there is room. */
  lemma LastSelectNeverFails<M>(lim: Limits, evs: seq<Event<M>>, t: nat)
    requires
      var st := Run(lim, evs);
      t in st.handlers && st.handlers[t].Casting? && st.handlers[t].pos < |st.handlers[t].snapshot|
      && st.handlers[t].phase == Second
    ensures
      var st := Run(lim, evs);
      var h := st.handlers[t];
      && h.pos < |st.scratch| && st.scratch[h.pos] in st.seats
      && var q := st.seats[st.scratch[h.pos]].queue;
         SendResult(q, lim.sendBuf) != WouldBlock
  {
    RunInv(lim, evs);
    CasterStepShape(lim, Run(lim, evs), t);
  }

  lemma ClosedStaysClosed<M>(lim: Limits, st: State<M>, ev: Event<M>, s: nat)
    requires Inv(lim, st) && s in st.seats && !st.seats[s].queue.Open()
    ensures
      var st' := Step(lim, st, ev);
      && s in st'.seats
      && var before, after := st.seats[s].queue, st'.seats[s].queue;
         && after.closes == before.closes
         && (after.buffer == before.buffer || (before.buffer != [] && after.buffer == before.buffer[1..]))
  {
    assert Registered(st, s);
    if ev.CastStep? && ev.tid in st.handlers && st.handlers[ev.tid].Casting? {
      CasterLeavesClosed(lim, st, ev.tid, s);
    }
  }

  lemma CasterLeavesClosed<M>(lim: Limits, st: State<M>, t: nat, s: nat)
    requires t in st.handlers && st.handlers[t].Casting? && s in st.seats && !st.seats[s].queue.Open()
    ensures
      var st' := StepCaster(lim, st, t);
      && s in st'.seats
      && var before, after := st.seats[s].queue, st'.seats[s].queue;
         && after.closes == before.closes
         && (after.buffer == before.buffer || (before.buffer != [] && after.buffer == before.buffer[1..]))
  {
  }

  /**
   `send` is closed at most once, it stays closed, and from then on the only thing that can
   happen to its buffer is that packets leave it at the front.
   */
  lemma NothingEntersAfterClose<M>(lim: Limits, evs: seq<Event<M>>, ev: Event<M>, s: nat)
    requires s in Run(lim, evs).seats
    ensures Run(lim, evs).seats[s].queue.closes <= 1
    ensures
      var before := Run(lim, evs).seats[s].queue;
      !before.Open() ==>
        && s in Run(lim, evs + [ev]).seats
        && var after := Run(lim, evs + [ev]).seats[s].queue;
           && after.closes == 1
           && (after.buffer == before.buffer || (before.buffer != [] && after.buffer == before.buffer[1..]))
  {
    RunInv(lim, evs);
    assert (evs + [ev])[..|evs|] == evs;
    var st := Run(lim, evs);
    assert SeatOk(lim, st.seats[s], |st.history|);
    if !st.seats[s].queue.Open() {
      ClosedStaysClosed(lim, st, ev, s);
    }
  }

  // ---- the publisher slot and the scratch buffer ----

  /**
   At most one handler holds the channel, at most one Broadcast is in flight, and the scratch
   buffer it iterates over outside the lock is still exactly the snapshot it took.
   */
  lemma OneBroadcastAtATime<M>(lim: Limits, evs: seq<Event<M>>, t: nat, u: nat)
    requires t in Run(lim, evs).handlers && u in Run(lim, evs).handlers
    ensures t == u && Run(lim, evs).hasPub
    ensures
      var st := Run(lim, evs);
      var h := st.handlers[t];
      h.Casting? ==>
        && |h.snapshot| <= |st.scratch| && st.scratch[..|h.snapshot|] == h.snapshot
        && h.cur == |st.history| - 1
    ensures |Run(lim, evs).subs| <= lim.maxSubs
  {
    RunInv(lim, evs);
    var st := Run(lim, evs);
    assert HandlerOk(lim, st, st.handlers[t]);
  }

  /** The slot is taken exactly while some handler holds it, so a claim succeeds exactly when nobody does. */
  lemma SlotMatchesHolder<M>(lim: Limits, evs: seq<Event<M>>, t: nat)
    requires t !in Run(lim, evs).handlers && Run(lim, evs).lock.Free?
    ensures t in Run(lim, evs + [Claim(t)]).handlers <==> Run(lim, evs).handlers == map[]
  {
    RunInv(lim, evs);
    assert (evs + [Event<M>.Claim(t)])[..|evs|] == evs;
  }

  /**
   A released channel can be claimed again at once; a viewer gets an empty queue of its own while
   there is room; and an unsubscribed viewer is gone, its queue flagged and closed, the lock free.
   */
  lemma ComingAndGoing<M>(lim: Limits, st: State<M>, t: nat, u: nat, s: nat)
    requires Inv(lim, st) && st.lock.Free?
    ensures t in st.handlers && st.handlers[t].Holding? ==>
              Step(lim, Step(lim, st, Release(t)), Claim(u)) == st.(handlers := map[u := Holding])
    ensures s !in st.seats ==>
              Step(lim, st, Subscribe(s)) ==
              if |st.subs| < lim.maxSubs
              then st.(subs := st.subs + {s}, seats := st.seats[s := Seat(Queue([], false, 0, 0, []), |st.history|)])
              else st
    ensures s in st.subs ==>
              && s in st.seats
              && var seat := st.seats[s];
                 Step(lim, Step(lim, Step(lim, st, UnsubBegin(s)), UnsubFlag), UnsubClose) ==
                 st.(subs := st.subs - {s},
                     seats := st.seats[s := seat.(queue := seat.queue.(flagged := true, closes := 1))])
  {
    if t in st.handlers && st.handlers[t].Holding? {
      ReleaseThenClaim(lim, st, t, u);
    }
    if s in st.subs {
      assert Registered(st, s);
      UnsubscribeRuns(lim, st, s);
    }
  }

  lemma ReleaseThenClaim<M>(lim: Limits, st: State<M>, t: nat, u: nat)
    requires ControlOk(lim, st) && st.lock.Free? && t in st.handlers && st.handlers[t].Holding?
    ensures Step(lim, Step(lim, st, Release(t)), Claim(u)) == st.(handlers := map[u := Holding])
  {
    assert st.handlers - {t} == map[];
  }

  lemma UnsubscribeRuns<M>(lim: Limits, st: State<M>, s: nat)
    requires s in st.seats && s in st.subs && st.lock.Free? && st.seats[s].queue.closes == 0
    ensures
      var seat := st.seats[s];
      Step(lim, Step(lim, Step(lim, st, UnsubBegin(s)), UnsubFlag), UnsubClose) ==
      st.(subs := st.subs - {s}, seats := st.seats[s := seat.(queue := seat.queue.(flagged := true, closes := 1))])
  {
    var seat := st.seats[s];
    var flagged := seat.(queue := seat.queue.(flagged := true));
    assert st.seats[s := flagged][s := flagged.(queue := flagged.queue.(closes := 1))]
        == st.seats[s := seat.(queue := seat.queue.(flagged := true, closes := 1))];
  }

  // ---- progress ----

  function PhaseNumber(p: Phase): nat {
    match p case Check => 0 case First => 1 case Evict => 2 case Second => 3
  }

  /** How many more steps of its own a broadcast can take. */
  function Budget<M>(st: State<M>, t: nat): nat {
    if t in st.handlers && st.handlers[t].Casting? then
      var h := st.handlers[t];
      if h.pos < |h.snapshot| then 4 * (|h.snapshot| - h.pos) - PhaseNumber(h.phase) + 1 else 1
    else 0
  }

  function CastSteps<M>(evs: seq<Event<M>>, t: nat): nat {
    if evs == [] then 0 else
      CastSteps(evs[..|evs| - 1], t) + if evs[|evs| - 1] == CastStep(t) then 1 else 0
  }

  /** The broadcaster can always step, whatever the readers and the lock do, and each step uses up budget. */
  lemma CastStepProgresses<M>(lim: Limits, st: State<M>, t: nat)
    requires Inv(lim, st) && t in st.handlers && st.handlers[t].Casting?
    ensures Budget(Step(lim, st, CastStep(t)), t) < Budget(st, t)
  {
    var h := st.handlers[t];
    if h.pos < |h.snapshot| {
      CasterStepShape(lim, st, t);
    }
  }

  lemma OthersDoNotDelay<M>(lim: Limits, st: State<M>, ev: Event<M>, t: nat)
    requires Inv(lim, st) && ev != CastStep(t) && !(ev.BeginCast? && ev.tid == t)
    ensures Budget(Step(lim, st, ev), t) <= Budget(st, t)
  {
  }

  /**
   A Broadcast that has taken its snapshot finishes within 4·|snapshot| + 1 of its own steps
   under every schedule: no reader, no subscription and no lock holder can make it wait.
   */
  lemma {:induction false} BroadcastFinishes<M>(lim: Limits, st: State<M>, evs: seq<Event<M>>, t: nat)
    requires Inv(lim, st)
    requires forall e :: e in evs ==> !(e.BeginCast? && e.tid == t)
    ensures Budget(Exec(lim, st, evs), t) == 0 || Budget(Exec(lim, st, evs), t) + CastSteps(evs, t) <= Budget(st, t)
    decreases |evs|
  {
    if evs != [] {
      var before, ev := evs[..|evs| - 1], evs[|evs| - 1];
      BroadcastFinishes(lim, st, before, t);
      RunOk(lim, st, before);
      var mid := Exec(lim, st, before);
      if ev == CastStep(t) {
        if t in mid.handlers && mid.handlers[t].Casting? {
          CastStepProgresses(lim, mid, t);
        }
      } else {
        OthersDoNotDelay(lim, mid, ev, t);
      }
    }
  }

  lemma BroadcastBound<M>(lim: Limits, st: State<M>, t: nat, message: M, order: seq<nat>, evs: seq<Event<M>>)
    requires Inv(lim, st) && st.lock.Free? && t in st.handlers && st.handlers[t].Holding? && Enumerates(order, st.subs)
    requires forall e :: e in evs ==> !(e.BeginCast? && e.tid == t)
    requires CastSteps(evs, t) >= 4 * |order| + 1
    ensures
      var end := Exec(lim, Step(lim, st, BeginCast(t, message, order)), evs);
      t in end.handlers ==> end.handlers[t].Holding?
  {
    var begun := Step(lim, st, BeginCast(t, message, order));
    StepOk(lim, st, BeginCast(t, message, order));
    BroadcastFinishes(lim, begun, evs, t);
    assert Budget(begun, t) == 4 * |order| + 1;
  }
}
