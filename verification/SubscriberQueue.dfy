/**
 The outbound queue of one viewer: the bounded Go channel `send`, the `closed`
 flag and the `dropped` counter, together with what became of every packet that
 ever left the buffer. All the micro-steps that touch one queue are defined here;
 the relay protocol and the relay classes are both built from them.

 Go's semantics are taken literally: a send on a closed channel panics (and
 `deliver` recovers), a receive on a closed channel first drains the buffer and
 then yields zero values without blocking.
 */
module SubscriberQueue {
  import opened Wrappers

  /** What became of a packet that left the buffer at the front. */
  datatype Fate<T> = Taken(packet: T) | Evicted(packet: T)

  /** `closes` counts the calls of close(send): a second one would crash the relay. */
  datatype Queue<T> = Queue(buffer: seq<T>, flagged: bool, closes: nat, dropped: nat, fates: seq<Fate<T>>)
  {
    predicate Open() {
      closes == 0
    }
  }

  /** How far a delivery to one subscriber has got: before the flag test, or before one of its three selects. */
  datatype Phase = Check | First | Evict | Second

  datatype SendOutcome = Queued | WouldBlock | Panicked

  datatype ReadOutcome<T> = Got(packet: T) | EndOfStream | Blocked

  function NewQueue<T>(): Queue<T> {
    Queue([], false, 0, 0, [])
  }

  // ---- the atomic steps ----

  function SendResult<T>(q: Queue<T>, capacity: nat): SendOutcome {
    if !q.Open() then Panicked
    else if |q.buffer| < capacity then Queued
    else WouldBlock
  }

  function TrySend<T>(q: Queue<T>, packet: T, capacity: nat): Queue<T> {
    if SendResult(q, capacity) == Queued then q.(buffer := q.buffer + [packet]) else q
  }

  /** The non-blocking receive inside deliver; on a closed, empty channel it yields a zero value and still counts. */
  function EvictHead<T>(q: Queue<T>): Queue<T> {
    if q.buffer != [] then
      q.(buffer := q.buffer[1..], dropped := q.dropped + 1, fates := q.fates + [Evicted(q.buffer[0])])
    else if !q.Open() then q.(dropped := q.dropped + 1)
    else q
  }

  /** The last select of deliver: on failure the new packet itself is counted as dropped. */
  function Retry<T>(q: Queue<T>, packet: T, capacity: nat): Queue<T> {
    if SendResult(q, capacity) == WouldBlock then q.(dropped := q.dropped + 1)
    else TrySend(q, packet, capacity)
  }

  function ReadResult<T>(q: Queue<T>): ReadOutcome<T> {
    if q.buffer != [] then Got(q.buffer[0])
    else if !q.Open() then EndOfStream
    else Blocked
  }

  function Read<T>(q: Queue<T>): Queue<T> {
    if q.buffer != [] then q.(buffer := q.buffer[1..], fates := q.fates + [Taken(q.buffer[0])]) else q
  }

  /** One step of the broadcaster at this queue: the queue afterwards. */
  function Deliver<T>(q: Queue<T>, phase: Phase, packet: T, capacity: nat): Queue<T> {
    match phase
    case Check => q
    case First => TrySend(q, packet, capacity)
    case Evict => EvictHead(q)
    case Second => Retry(q, packet, capacity)
  }

  /** One step of the broadcaster at this queue: its next phase here, or None once it moves on. */
  function NextPhase<T>(q: Queue<T>, phase: Phase, capacity: nat): Option<Phase> {
    match phase
    case Check => if q.flagged then None else Some(First)
    case First => if SendResult(q, capacity) == WouldBlock then Some(Evict) else None
    case Evict => Some(Second)
    case Second => None
  }

  // ---- what a queue has done so far ----

  /** Everything that ever left the buffer, in the order in which it left. */
  function Departed<T>(fates: seq<Fate<T>>): (r: seq<T>)
    ensures |r| == |fates|
  {
    seq(|fates|, i requires 0 <= i < |fates| => fates[i].packet)
  }

  /** What the viewer's connection received, in order. */
  function Received<T>(fates: seq<Fate<T>>): seq<T> {
    if fates == [] then [] else
      var before := Received(fates[..|fates| - 1]);
      match fates[|fates| - 1]
      case Taken(p) => before + [p]
      case Evicted(_) => before
  }

  function Evictions<T>(fates: seq<Fate<T>>): nat {
    if fates == [] then 0 else
      Evictions(fates[..|fates| - 1]) + if fates[|fates| - 1].Evicted? then 1 else 0
  }

  /** Everything the queue ever accepted, in order: what left it, then what it still holds. */
  function Accepted<T>(q: Queue<T>): seq<T> {
    Departed(q.fates) + q.buffer
  }

  /** The drop-oldest queue the relay documents, as one indivisible operation. */
  function DropOldest<T>(buffer: seq<T>, packet: T, capacity: nat): seq<T>
    requires capacity >= 1
  {
    if |buffer| < capacity then buffer + [packet] else buffer[1..] + [packet]
  }

  /** A whole delivery with nobody else touching the queue. */
  function DeliverAlone<T>(q: Queue<T>, phase: Phase, packet: T, capacity: nat): Queue<T>
    decreases match phase case Check => 3 case First => 2 case Evict => 1 case Second => 0
  {
    var q' := Deliver(q, phase, packet, capacity);
    match NextPhase(q, phase, capacity)
    case None => q'
    case Some(p) => DeliverAlone(q', p, packet, capacity)
  }

  /** Undisturbed, the three selects are exactly the documented drop-oldest queue. */
  lemma DeliverAloneDropsOldest<T>(q: Queue<T>, packet: T, capacity: nat)
    requires capacity >= 1 && q.Open() && !q.flagged && |q.buffer| <= capacity
    ensures var r := DeliverAlone(q, Check, packet, capacity);
            && r.buffer == DropOldest(q.buffer, packet, capacity)
            && r.dropped == q.dropped + (if |q.buffer| < capacity then 0 else 1)
            && r.fates == q.fates + (if |q.buffer| < capacity then [] else [Evicted(q.buffer[0])])
            && r.Open() && !r.flagged
  {
    assert DeliverAlone(q, Check, packet, capacity) == DeliverAlone(q, First, packet, capacity);
    if |q.buffer| == capacity {
      var e := EvictHead(q);
      assert DeliverAlone(q, First, packet, capacity) == DeliverAlone(q, Evict, packet, capacity);
      assert DeliverAlone(q, Evict, packet, capacity) == DeliverAlone(e, Second, packet, capacity);
      assert DeliverAlone(e, Second, packet, capacity) == Retry(e, packet, capacity);
    } else {
      assert q.fates + [] == q.fates;
    }
  }

  /**
   Between the selects a reader may drain the queue, and then it loses a packet although
   there is room: a full queue of two, one read, and the eviction still drops the other.
   */
  lemma EvictionAfterDrainLosesAPacket()
    ensures
      var full := NewQueue<nat>().(buffer := [0, 1]);
      var tried := Deliver(full, First, 2, 2);
      var drained := Read(tried);
      var evicted := Deliver(drained, Evict, 2, 2);
      var done := Deliver(evicted, Second, 2, 2);
      && NextPhase(full, First, 2) == Some(Evict)
      && |drained.buffer| < 2
      && done.buffer == [2] && Received(done.fates) == [0] && done.dropped == 1
      && DeliverAlone(drained, Check, 2, 2).buffer == [1, 2]
  {
    var full := NewQueue<nat>().(buffer := [0, 1]);
    var drained := Read(full);
    assert drained.fates == [Taken(0)] && drained.buffer == [1];
    var evicted := EvictHead(drained);
    assert evicted.fates == [Taken(0), Evicted(1)] && evicted.buffer == [];
    assert evicted.fates[..1] == [Taken(0)];
    assert Received(drained.fates) == [0] by { assert drained.fates[..0] == []; }
    DeliverAloneDropsOldest(drained, 2, 2);
  }

  // ---- bookkeeping of the steps ----

  lemma DepartedAppend<T>(fates: seq<Fate<T>>, f: Fate<T>)
    ensures Departed(fates + [f]) == Departed(fates) + [f.packet]
    ensures Evictions(fates + [f]) == Evictions(fates) + if f.Evicted? then 1 else 0
    ensures Received(fates + [f]) == Received(fates) + if f.Taken? then [f.packet] else []
  {
    assert (fates + [f])[..|fates|] == fates;
  }

  /** Removing the head, whoever does it, keeps the list of accepted packets; nothing but a send extends it. */
  lemma StepsKeepAccepted<T>(q: Queue<T>)
    ensures Accepted(Read(q)) == Accepted(q)
    ensures Accepted(EvictHead(q)) == Accepted(q)
  {
    if q.buffer != [] {
      DepartedAppend(q.fates, Taken(q.buffer[0]));
      DepartedAppend(q.fates, Evicted(q.buffer[0]));
    }
  }

  /**
   A receive hands over a packet exactly if that packet, and no other, is added to what the
   connection has received; it reports the end exactly on a closed and drained queue.
   */
  lemma ReadHandsOver<T>(q: Queue<T>, p: T)
    ensures ReadResult(q) == Got(p) <==> Received(Read(q).fates) == Received(q.fates) + [p]
    ensures ReadResult(q) == EndOfStream <==> !q.Open() && q.buffer == []
    ensures ReadResult(q) == Blocked <==> q.Open() && q.buffer == []
    ensures !ReadResult(q).Got? ==> Read(q) == q
  {
    if q.buffer != [] {
      DepartedAppend(q.fates, Taken(q.buffer[0]));
      assert (Received(q.fates) + [p])[|Received(q.fates)|] == p;
    }
  }

  /**
   Around an unsubscribe: a delivery that sees the flag leaves the queue alone; one that runs into
   the close ends there, its recovered panic leaving no trace; and an eviction that comes after
   the close still takes the head and is counted, even when there is nothing left to take. Should the
   queue be full again by the last select, the new packet is the one that is lost.
   */
  lemma DeliveryToLeaver<T>(q: Queue<T>, packet: T, capacity: nat)
    ensures q.Open() && |q.buffer| >= capacity ==>
              DeliverAlone(q, Second, packet, capacity) == q.(dropped := q.dropped + 1)
    ensures q.flagged ==> DeliverAlone(q, Check, packet, capacity) == q
    ensures !q.Open() ==> DeliverAlone(q, First, packet, capacity) == q
    ensures !q.Open() ==>
              var r := DeliverAlone(q, Evict, packet, capacity);
              && r.dropped == q.dropped + 1
              && r.buffer == (if q.buffer == [] then [] else q.buffer[1..])
              && Received(r.fates) == Received(q.fates)
  {
    if !q.Open() {
      assert NextPhase(EvictHead(q), Second, capacity) == None;
      assert DeliverAlone(q, Evict, packet, capacity) == DeliverAlone(EvictHead(q), Second, packet, capacity);
      if q.buffer != [] {
        DepartedAppend(q.fates, Evicted(q.buffer[0]));
      }
    }
  }

  /** Every departed packet was either received or evicted. */
  lemma ReceivedPlusEvicted<T>(fates: seq<Fate<T>>)
    ensures |Received(fates)| + Evictions(fates) == |fates|
  {
    if fates != [] {
      ReceivedPlusEvicted(fates[..|fates| - 1]);
    }
  }

  ghost predicate Increasing(s: seq<nat>) {
    forall i, j :: 0 <= i < j < |s| ==> s[i] < s[j]
  }

  /** Dropping the evicted packets from an increasing list leaves an increasing list of its members. */
  lemma ReceivedIsOrdered(fates: seq<Fate<nat>>)
    requires Increasing(Departed(fates))
    ensures Increasing(Received(fates))
    ensures forall p :: p in Received(fates) ==> p in Departed(fates)
  {
    if fates != [] {
      var before, last := fates[..|fates| - 1], fates[|fates| - 1];
      assert fates == before + [last];
      DepartedAppend(before, last);
      assert forall i, j :: 0 <= i < j < |before| ==> Departed(fates)[i] < Departed(fates)[j];
      assert forall i :: 0 <= i < |before| ==> Departed(before)[i] == Departed(fates)[i];
      ReceivedIsOrdered(before);
      var all, got := Departed(fates), Received(before);
      forall i | 0 <= i < |got| ensures got[i] < last.packet {
        assert got[i] in Departed(before);
        var k :| 0 <= k < |before| && Departed(before)[k] == got[i];
        assert all[k] < all[|before|];
      }
    }
  }
}
