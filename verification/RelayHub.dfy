/**
 The relay's objects as the handlers use them: subscriber, channel, registry and the publish
 handler. Each method is one locked section, one select, or a whole call with nobody else
 running; RelayProtocol and RelayRegistry say what happens when they interleave.
 */
module RelayHub {
  import opened Wrappers
  import opened SubscriberQueue
  import opened RelayProtocol
  import opened Sequences
  import FrameCodec
  import RelayRegistry

  class Subscriber<T> {
    var send: seq<T>
    var closed: bool
    var sendClosed: bool
    var dropped: nat
    ghost var fates: seq<Fate<T>>

    ghost function View(): Queue<T>
      reads this
    {
      Queue(send, closed, if sendClosed then 1 else 0, dropped, fates)
    }

    constructor ()
      ensures View() == NewQueue()
    {
      send, closed, sendClosed, dropped, fates := [], false, false, 0, [];
    }

    /** `select { case s.send <- packet: default: }`; the outcome Panicked stands for the panic of a closed channel. */
    method TrySend(packet: T, capacity: nat) returns (outcome: SendOutcome)
      modifies this
      ensures View() == SubscriberQueue.TrySend(old(View()), packet, capacity)
      ensures outcome == SendResult(old(View()), capacity)
    {
      if sendClosed {
        return Panicked;
      }
      if |send| >= capacity {
        return WouldBlock;
      }
      send := send + [packet];
      return Queued;
    }

    /** `select { case <-s.send: s.dropped++ default: }` */
    method DropHead()
      modifies this
      ensures View() == EvictHead(old(View()))
    {
      if |send| > 0 {
        fates := fates + [Evicted(send[0])];
        send := send[1..];
        dropped := dropped + 1;
      } else if sendClosed {
        dropped := dropped + 1;
      }
    }

    /** One receive by the viewer's connection. */
    method Receive() returns (outcome: ReadOutcome<T>)
      modifies this
      ensures View() == Read(old(View())) && outcome == ReadResult(old(View()))
    {
      if |send| > 0 {
        outcome := Got(send[0]);
        fates := fates + [Taken(send[0])];
        send := send[1..];
      } else if sendClosed {
        outcome := EndOfStream;
      } else {
        outcome := Blocked;
      }
    }
  }

  /** Delivering a list of packets one after another to an otherwise idle queue. */
  function DeliverAll<T>(q: Queue<T>, packets: seq<T>, capacity: nat): Queue<T>
    decreases |packets|
  {
    if packets == [] then q else
      DeliverAlone(DeliverAll(q, packets[..|packets| - 1], capacity), Check, packets[|packets| - 1], capacity)
  }

  function Newest<T>(s: seq<T>, n: nat): seq<T> {
    if |s| <= n then s else s[|s| - n..]
  }

  /**
   However many packets a silent viewer misses, it is left with the newest ones, in order, and the
   rest are counted.
   */
  lemma {:induction false} SilentViewerKeepsNewest<T>(q: Queue<T>, packets: seq<T>, capacity: positive)
    requires q.Open() && !q.flagged && |q.buffer| <= capacity
    ensures
      var r := DeliverAll(q, packets, capacity);
      && r.Open() && !r.flagged
      && r.buffer == Newest(q.buffer + packets, capacity)
      && r.dropped - q.dropped == |q.buffer| + |packets| - |r.buffer|
    decreases |packets|
  {
    if packets == [] {
      assert q.buffer + packets == q.buffer;
    } else {
      var before, last := packets[..|packets| - 1], packets[|packets| - 1];
      SilentViewerKeepsNewest(q, before, capacity);
      DeliverAloneDropsOldest(DeliverAll(q, before, capacity), last, capacity);
      assert q.buffer + packets == q.buffer + before + [last];
      NewestStep(q.buffer + before, last, capacity);
    }
  }

  lemma NewestStep<T>(s: seq<T>, x: T, n: positive)
    ensures Newest(s + [x], n) == if |Newest(s, n)| < n then Newest(s, n) + [x] else Newest(s, n)[1..] + [x]
  {
  }

  datatype Stats = Stats(hasPublisher: bool, subscribers: nat)

  class Channel<T> {
    const id: string
    const maxSubs: nat
    const sendBuf: positive
    var hasPub: bool
    var subs: set<Subscriber<T>>
    var broadcastScratch: seq<Subscriber<T>>

    ghost predicate Valid()
      reads this, subs
    {
      && |subs| <= maxSubs
      && forall s :: s in subs ==> !s.closed && !s.sendClosed && |s.send| <= sendBuf
    }

    constructor (id: string, maxSubs: nat, sendBuf: positive)
      ensures Valid() && !hasPub && subs == {}
      ensures this.id == id && this.maxSubs == maxSubs && this.sendBuf == sendBuf
    {
      this.id, this.maxSubs, this.sendBuf := id, maxSubs, sendBuf;
      hasPub, subs, broadcastScratch := false, {}, [];
    }

    method ClaimPublisher() returns (ok: bool)
      modifies this`hasPub
      ensures ok == !old(hasPub) && hasPub
    {
      if hasPub {
        return false;
      }
      hasPub := true;
      return true;
    }

    method ReleasePublisher()
      modifies this`hasPub
      ensures !hasPub
    {
      hasPub := false;
    }

    method Subscribe() returns (r: Option<Subscriber<T>>)
      requires Valid()
      modifies this`subs
      ensures Valid()
      ensures r.None? <==> |old(subs)| >= maxSubs
      ensures r.None? ==> subs == old(subs)
      ensures r.Some? ==> fresh(r.value) && subs == old(subs) + {r.value} && r.value.View() == NewQueue()
    {
      if |subs| >= maxSubs {
        return None;
      }
      var s := new Subscriber<T>();
      subs := subs + {s};
      return Some(s);
    }

    /** The closure Subscribe returns: it works once, and again does nothing. */
    method Unsubscribe(s: Subscriber<T>)
      requires Valid()
      modifies this`subs, s
      ensures Valid() && subs == old(subs) - {s}
      ensures s.View() == if s in old(subs) then old(s.View()).(flagged := true, closes := 1) else old(s.View())
    {
      if s in subs {
        SubsetSize(subs - {s}, subs);
        subs := subs - {s};
        s.closed := true;
        s.sendClosed := true;
      }
    }

    method Deliver(s: Subscriber<T>, packet: T)
      modifies s
      ensures s.View() == DeliverAlone(old(s.View()), First, packet, sendBuf)
    {
      var outcome := s.TrySend(packet, sendBuf);
      if outcome.WouldBlock? {
        s.DropHead();
        outcome := s.TrySend(packet, sendBuf);
        if outcome.WouldBlock? {
          s.dropped := s.dropped + 1;
        }
      }
    }

    /** The snapshot Broadcast takes under the lock, in the arbitrary order of the map. */
    method TakeSnapshot()
      modifies this`broadcastScratch
      ensures forall s :: s in broadcastScratch <==> s in subs
      ensures forall i, j :: 0 <= i < j < |broadcastScratch| ==> broadcastScratch[i] != broadcastScratch[j]
    {
      broadcastScratch := [];
      var rest := subs;
      while rest != {}
        invariant rest <= subs
        invariant forall s :: s in broadcastScratch <==> s in subs && s !in rest
        invariant forall i, j :: 0 <= i < j < |broadcastScratch| ==> broadcastScratch[i] != broadcastScratch[j]
        decreases |rest|
      {
        var s :| s in rest;
        broadcastScratch := broadcastScratch + [s];
        rest := rest - {s};
      }
    }

    /** With nobody else running, every subscriber gets the packet through its own drop-oldest queue. */
    method Broadcast(packet: T)
      requires Valid()
      modifies this`broadcastScratch, subs
      ensures Valid()
      ensures forall s :: s in subs ==> s.View() == DeliverAlone(old(s.View()), Check, packet, sendBuf)
    {
      TakeSnapshot();
      var snapshot := broadcastScratch;
      assert forall i :: 0 <= i < |snapshot| ==> snapshot[i] in subs;
      for k := 0 to |snapshot|
        invariant subs == old(subs) && forall i :: 0 <= i < |snapshot| ==> snapshot[i] in subs
        invariant forall i :: 0 <= i < k ==>
                  snapshot[i].View() == DeliverAlone(old(snapshot[i].View()), Check, packet, sendBuf)
        invariant forall i :: k <= i < |snapshot| ==> snapshot[i].View() == old(snapshot[i].View())
      {
        var s := snapshot[k];
        if !s.closed {
          Deliver(s, packet);
        }
      }
      forall s | s in subs
        ensures s.View() == DeliverAlone(old(s.View()), Check, packet, sendBuf)
        ensures !s.closed && !s.sendClosed && |s.send| <= sendBuf
      {
        var i :| 0 <= i < |snapshot| && snapshot[i] == s;
        DeliverAloneDropsOldest(old(s.View()), packet, sendBuf);
      }
    }

    method GetStats() returns (r: Stats)
      ensures r == Stats(hasPub, |subs|)
    {
      r := Stats(hasPub, |subs|);
    }
  }

  datatype LookupError = BadChannelId | ChannelLimit

  class Registry<T> {
    var channels: map<string, Channel<T>>
    const maxChannels: nat
    const maxSubs: nat
    const sendBuf: positive

    ghost predicate Valid()
      reads this
    {
      && |channels| <= maxChannels
      && forall id :: id in channels ==> channels[id].id == id
    }

    constructor (maxChannels: nat, maxSubs: nat, sendBuf: positive)
      ensures Valid() && channels == map[]
      ensures this.maxChannels == maxChannels && this.maxSubs == maxSubs && this.sendBuf == sendBuf
    {
      this.maxChannels, this.maxSubs, this.sendBuf := maxChannels, maxSubs, sendBuf;
      channels := map[];
    }

    method GetOrCreate(id: string) returns (r: Result<Channel<T>, LookupError>)
      requires Valid()
      modifies this`channels
      ensures Valid()
      ensures r == Err(BadChannelId) <==> !RelayRegistry.ValidId(id)
      ensures r == Err(ChannelLimit) <==>
                RelayRegistry.ValidId(id) && id !in old(channels) && |old(channels)| >= maxChannels
      ensures r.Err? ==> channels == old(channels)
      ensures r.Ok? && id in old(channels) ==> r.value == old(channels)[id] && channels == old(channels)
      ensures r.Ok? && id !in old(channels) ==>
                && fresh(r.value) && r.value.Valid() && r.value.subs == {} && !r.value.hasPub
                && r.value.id == id && r.value.maxSubs == maxSubs && r.value.sendBuf == sendBuf
                && channels == old(channels)[id := r.value]
    {
      if !RelayRegistry.ValidId(id) {
        return Err(BadChannelId);
      }
      if id in channels {
        return Ok(channels[id]);
      }
      if |channels| >= maxChannels {
        return Err(ChannelLimit);
      }
      var ch := new Channel<T>(id, maxSubs, sendBuf);
      assert channels[id := ch].Keys == channels.Keys + {id};
      channels := channels[id := ch];
      return Ok(ch);
    }

    /** A sweep with no handler running removes exactly the channels nobody publishes to or watches. */
    method Reap()
      requires Valid()
      modifies this`channels
      ensures Valid()
      ensures channels ==
              map id | id in old(channels) && (old(channels)[id].hasPub || old(channels)[id].subs != {}) ::
                old(channels)[id]
    {
      ghost var was := channels;
      var todo := channels.Keys;
      while todo != {}
        invariant todo <= channels.Keys <= was.Keys
        invariant forall id :: id in channels ==> channels[id] == was[id]
        invariant forall id :: id in was && id !in todo ==> (id in channels <==> was[id].hasPub || was[id].subs != {})
        decreases |todo|
      {
        var id :| id in todo;
        var stats := channels[id].GetStats();
        if !stats.hasPublisher && stats.subscribers == 0 {
          channels := channels - {id};
        }
        todo := todo - {id};
      }
      SubsetSize(channels.Keys, was.Keys);
    }

    method Snapshot() returns (r: map<string, Stats>)
      ensures r == map id | id in channels :: Stats(channels[id].hasPub, |channels[id].subs|)
    {
      r := map[];
      var todo := channels.Keys;
      while todo != {}
        invariant todo <= channels.Keys && r.Keys == channels.Keys - todo
        invariant forall id :: id in r ==> r[id] == Stats(channels[id].hasPub, |channels[id].subs|)
        decreases |todo|
      {
        var id :| id in todo;
        var stats := channels[id].GetStats();
        r := r[id := stats];
        todo := todo - {id};
      }
    }
  }

  // ---- the publish handler ----

  datatype Incoming = Binary(data: Bytes) | NotBinary | ReadError

  /** The default limit on one WebSocket message. */
  const MAX_FRAME_BYTES := 5 * 1024

  /** What the handler forwards: the messages up to the first that is not binary or lacks the magic. */
  function Relayable(incoming: seq<Incoming>): seq<Bytes> {
    if incoming != [] && incoming[0].Binary? && FrameCodec.MAGIC <= incoming[0].data
    then [incoming[0].data] + Relayable(incoming[1..])
    else []
  }

  /** A binary message that begins with the four bytes "SMX1". */
  predicate HasMagic(m: Incoming) {
    m.Binary? && |m.data| >= 4 && m.data[0] == 0x53 && m.data[1] == 0x4d && m.data[2] == 0x58 && m.data[3] == 0x31
  }

  /** Forwarded are exactly the messages before the first one that is not binary or does not begin so, unchanged. */
  lemma {:induction false} ForwardedUpToFirstBad(incoming: seq<Incoming>)
    ensures
      var sent := Relayable(incoming);
      && |sent| <= |incoming|
      && (forall k :: 0 <= k < |sent| ==> HasMagic(incoming[k]) && incoming[k].data == sent[k])
      && (|sent| < |incoming| ==> !HasMagic(incoming[|sent|]))
    decreases |incoming|
  {
    if incoming != [] {
      MagicIsPrefix(incoming[0]);
      if HasMagic(incoming[0]) {
        ForwardedUpToFirstBad(incoming[1..]);
      }
    }
  }

  lemma MagicIsPrefix(m: Incoming)
    ensures HasMagic(m) <==> m.Binary? && FrameCodec.MAGIC <= m.data
  {
    if m.Binary? && |m.data| >= 4 {
      assert m.data[..4] == [m.data[0], m.data[1], m.data[2], m.data[3]];
      assert FrameCodec.MAGIC <= m.data <==> m.data[..4] == FrameCodec.MAGIC;
    }
  }

  /** Every encoded frame is forwarded: it has the magic and fits the limit. */
  lemma FramesAreForwarded(f: FrameCodec.Frame, rest: seq<Incoming>)
    requires FrameCodec.Encode(f).Ok?
    ensures
      var b := FrameCodec.Encode(f).value;
      && Relayable([Binary(b)] + rest) == [b] + Relayable(rest)
      && |b| <= FrameCodec.HEADER_BYTES + FrameCodec.MAX_PAYLOAD_BYTES <= MAX_FRAME_BYTES
  {
    var b := FrameCodec.Encode(f).value;
    FrameCodec.LayoutFields(f);
    var incoming := [Binary(b)] + rest;
    assert b == FrameCodec.MAGIC + b[4..];
    assert incoming[0] == Binary(b) && incoming[1..] == rest;
  }

  function TotalLength(packets: seq<Bytes>): nat {
    if packets == [] then 0 else TotalLength(packets[..|packets| - 1]) + |packets[|packets| - 1]|
  }

  /** The bytes of all packets together. */
  lemma {:induction false} TotalIsSum(packets: seq<Bytes>, more: seq<Bytes>)
    ensures TotalLength(packets + more) == TotalLength(packets) + TotalLength(more)
    ensures |packets| == 1 ==> TotalLength(packets) == |packets[0]|
    decreases |more|
  {
    if more == [] {
      assert packets + more == packets;
    } else {
      assert (packets + more)[..|packets + more| - 1] == packets + more[..|more| - 1];
      TotalIsSum(packets, more[..|more| - 1]);
    }
  }

  class Server {
    var packetsRelayed: nat
    var bytesRelayed: nat

    constructor ()
      ensures packetsRelayed == 0 && bytesRelayed == 0
    {
      packetsRelayed, bytesRelayed := 0, 0;
    }

    /** One message: broadcast, then counted. */
    method Forward(ch: Channel<Bytes>, data: Bytes)
      requires ch.Valid()
      modifies this, ch`broadcastScratch, ch.subs
      ensures ch.Valid() && packetsRelayed == old(packetsRelayed) + 1 && bytesRelayed == old(bytesRelayed) + |data|
      ensures forall s :: s in ch.subs ==> s.View() == DeliverAlone(old(s.View()), Check, data, ch.sendBuf)
    {
      ch.Broadcast(data);
      packetsRelayed := packetsRelayed + 1;
      bytesRelayed := bytesRelayed + |data|;
    }

    /**
     From the claim to the deferred release: a second publisher changes nothing; otherwise every
     viewer's queue has been offered exactly the forwarded messages, and the slot is free again.
     */
    method Publish(ch: Channel<Bytes>, incoming: seq<Incoming>) returns (claimed: bool)
      requires ch.Valid()
      modifies this, ch`hasPub, ch`broadcastScratch, ch.subs
      ensures ch.Valid() && claimed == !old(ch.hasPub) && ch.hasPub == old(ch.hasPub)
      ensures var sent := if claimed then Relayable(incoming) else [];
              && packetsRelayed == old(packetsRelayed) + |sent| && bytesRelayed == old(bytesRelayed) + TotalLength(sent)
              && forall s :: s in ch.subs ==> s.View() == DeliverAll(old(s.View()), sent, ch.sendBuf)
    {
      claimed := ch.ClaimPublisher();
      if !claimed {
        return;
      }
      var k := 0;
      ghost var done: seq<Bytes> := [];
      while k < |incoming| && incoming[k].Binary? && FrameCodec.MAGIC <= incoming[k].data
        invariant 0 <= k <= |incoming| && ch.Valid() && ch.subs == old(ch.subs)
        invariant |done| == k && done + Relayable(incoming[k..]) == Relayable(incoming)
        invariant packetsRelayed == old(packetsRelayed) + k && bytesRelayed == old(bytesRelayed) + TotalLength(done)
        invariant forall s :: s in ch.subs ==> s.View() == DeliverAll(old(s.View()), done, ch.sendBuf)
      {
        assert incoming[k..][1..] == incoming[k + 1..];
        assert (done + [incoming[k].data])[..|done|] == done;
        Forward(ch, incoming[k].data);
        done := done + [incoming[k].data];
        k := k + 1;
      }
      assert Relayable(incoming[k..]) == [] && done + [] == done;
      ch.ReleasePublisher();
    }
  }
}
