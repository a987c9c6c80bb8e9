/**
 The registry of channels beside its publisher and subscriber handlers and the reaper, as a
 transition system. A handler looks its channel up under the registry lock, lets the lock go, and
 only then claims or joins the channel object it was given; the reaper holds the registry
 lock for a whole sweep but reads each channel's state and deletes it in separate steps.
 */
module RelayRegistry {
  import opened Sequences

  type ChannelId = string

  datatype Limits = Limits(maxChannels: nat, maxSubs: nat)

  /** A channel object; it lives on as long as a handler refers to it, registered or not. */
  datatype Channel = Channel(id: ChannelId, hasPub: bool, subs: set<nat>)

  datatype Role = Publisher | Subscriber

  /** A handler between its lookup and its claim (or join), or after it. */
  datatype Handler = Found(role: Role, obj: nat) | Joined(role: Role, obj: nat)

  /** A sweep in progress: ids still to visit, and the id found idle and about to be deleted. */
  datatype Reaper = Idle | Sweeping(todo: set<ChannelId>) | Condemned(todo: set<ChannelId>, id: ChannelId)

  datatype State = State(
    channels: map<ChannelId, nat>,
    objects: seq<Channel>,
    handlers: map<nat, Handler>,
    reaper: Reaper)

  datatype Event =
    | Lookup(tid: nat, id: ChannelId, role: Role)
    | Enter(tid: nat)
    | Leave(tid: nat)
    | ReapBegin
    | ReapCheck(id: ChannelId)
    | ReapDelete
    | ReapEnd

  predicate IsNameChar(c: char) {
    'a' <= c <= 'z' || '0' <= c <= '9' || c == '_'
  }

  /** "twitch:" or "kick:", then 1 to 64 characters of [a-z0-9_]. */
  predicate ValidId(id: string) {
    exists p | p in ["twitch:", "kick:"] ::
      p <= id && 1 <= |id| - |p| <= 64 && forall i :: |p| <= i < |id| ==> IsNameChar(id[i])
  }

  function Init(): State {
    State(map[], [], map[], Idle)
  }

  function Step(lim: Limits, st: State, ev: Event): State {
    match ev
    case Lookup(t, id, role) =>
      if !st.reaper.Idle? || t in st.handlers || !ValidId(id) then st
      else if id in st.channels then st.(handlers := st.handlers[t := Found(role, st.channels[id])])
      else if |st.channels| >= lim.maxChannels then st
      else
        State(st.channels[id := |st.objects|], st.objects + [Channel(id, false, {})],
              st.handlers[t := Found(role, |st.objects|)], st.reaper)
    case Enter(t) =>
      if t in st.handlers && st.handlers[t].Found? && st.handlers[t].obj < |st.objects| then
        var o := st.handlers[t].obj;
        var ch := st.objects[o];
        match st.handlers[t].role
        case Publisher =>
          if ch.hasPub then st.(handlers := st.handlers - {t})
          else st.(objects := st.objects[o := ch.(hasPub := true)], handlers := st.handlers[t := Joined(Publisher, o)])
        case Subscriber =>
          if |ch.subs| >= lim.maxSubs then st.(handlers := st.handlers - {t})
          else st.(objects := st.objects[o := ch.(subs := ch.subs + {t})],
              handlers := st.handlers[t := Joined(Subscriber, o)])
      else st
    case Leave(t) =>
      if t in st.handlers && st.handlers[t].Joined? && st.handlers[t].obj < |st.objects| then
        var o := st.handlers[t].obj;
        var ch := st.objects[o];
        var ch' := match st.handlers[t].role
                   case Publisher => ch.(hasPub := false)
                   case Subscriber => ch.(subs := ch.subs - {t});
        st.(objects := st.objects[o := ch'], handlers := st.handlers - {t})
      else st
    case ReapBegin => if st.reaper.Idle? then st.(reaper := Sweeping(st.channels.Keys)) else st
    case ReapCheck(id) =>
      if st.reaper.Sweeping? && id in st.reaper.todo && id in st.channels && st.channels[id] < |st.objects| then
        var ch := st.objects[st.channels[id]];
        if !ch.hasPub && ch.subs == {} then st.(reaper := Condemned(st.reaper.todo - {id}, id))
        else st.(reaper := Sweeping(st.reaper.todo - {id}))
      else st
    case ReapDelete =>
      if st.reaper.Condemned? then
        State(st.channels - {st.reaper.id}, st.objects, st.handlers, Sweeping(st.reaper.todo))
      else st
    case ReapEnd => if st.reaper.Sweeping? && st.reaper.todo == {} then st.(reaper := Idle) else st
  }

  function Exec(lim: Limits, st: State, evs: seq<Event>): State {
    if evs == [] then st else Step(lim, Exec(lim, st, evs[..|evs| - 1]), evs[|evs| - 1])
  }

  // ---- what holds of every channel object, whatever the reaper does ----

  ghost predicate HandlerOk(st: State, t: nat) {
    t in st.handlers ==>
      var h := st.handlers[t];
      && h.obj < |st.objects|
      && (h.Joined? ==>
            match h.role
            case Publisher => st.objects[h.obj].hasPub
            case Subscriber => t in st.objects[h.obj].subs)
  }

  ghost predicate Publishes(st: State, t: nat, o: nat) {
    t in st.handlers && st.handlers[t] == Joined(Publisher, o)
  }

  ghost predicate ObjectOk(lim: Limits, st: State, o: nat)
    requires o < |st.objects|
  {
    var ch := st.objects[o];
    && |ch.subs| <= lim.maxSubs
    && (ch.hasPub ==> exists t :: Publishes(st, t, o))
    && (forall t, u :: Publishes(st, t, o) && Publishes(st, u, o) ==> t == u)
    && (forall t :: t in ch.subs ==> t in st.handlers && st.handlers[t] == Joined(Subscriber, o))
  }

  ghost predicate PartiesOk(lim: Limits, st: State) {
    && (forall t :: HandlerOk(st, t))
    && (forall o :: 0 <= o < |st.objects| ==> ObjectOk(lim, st, o))
  }

  ghost predicate DirectoryOk(lim: Limits, st: State) {
    && |st.channels| <= lim.maxChannels
    && (forall id :: id in st.channels ==> st.channels[id] < |st.objects| && st.objects[st.channels[id]].id == id)
    && (!st.reaper.Idle? ==> st.reaper.todo <= st.channels.Keys)
    && (st.reaper.Condemned? ==> st.reaper.id in st.channels && st.reaper.id !in st.reaper.todo)
  }

  ghost predicate Inv(lim: Limits, st: State) {
    PartiesOk(lim, st) && DirectoryOk(lim, st)
  }

  lemma SizeAfterInsert(m: map<ChannelId, nat>, id: ChannelId, o: nat)
    requires id !in m
    ensures |m[id := o]| == |m| + 1
  {
    assert m[id := o].Keys == m.Keys + {id};
  }

  lemma SizeAfterRemove(m: map<ChannelId, nat>, id: ChannelId)
    ensures |m - {id}| <= |m|
  {
    assert (m - {id}).Keys <= m.Keys;
    SubsetSize((m - {id}).Keys, m.Keys);
  }

  lemma LookupOk(lim: Limits, st: State, ev: Event)
    requires Inv(lim, st) && ev.Lookup?
    ensures Inv(lim, Step(lim, st, ev))
  {
    LookupKeepsDirectory(lim, st, ev);
    var st' := Step(lim, st, ev);
    if st' != st {
      LookupShape(lim, st, ev);
      KeepsParties(lim, st, st', ev.tid);
    }
  }

  lemma LookupKeepsDirectory(lim: Limits, st: State, ev: Event)
    requires DirectoryOk(lim, st) && ev.Lookup?
    ensures DirectoryOk(lim, Step(lim, st, ev))
  {
    if ev.id !in st.channels {
      SizeAfterInsert(st.channels, ev.id, |st.objects|);
    }
  }

  lemma LookupShape(lim: Limits, st: State, ev: Event)
    requires DirectoryOk(lim, st) && ev.Lookup? && Step(lim, st, ev) != st
    ensures
      var st', t := Step(lim, st, ev), ev.tid;
      && |st.objects| <= |st'.objects| && st'.objects[..|st.objects|] == st.objects
      && (forall o :: |st.objects| <= o < |st'.objects| ==> st'.objects[o].subs == {} && !st'.objects[o].hasPub)
      && t !in st.handlers && t in st'.handlers && st'.handlers[t].Found? && st'.handlers[t].obj < |st'.objects|
      && st'.handlers - {t} == st.handlers - {t}
  {
  }

  /** A handler that has not joined anything may appear or vanish freely. */
  lemma KeepsParties(lim: Limits, st: State, st': State, t: nat)
    requires PartiesOk(lim, st)
    requires |st.objects| <= |st'.objects| && st'.objects[..|st.objects|] == st.objects
    requires forall o :: |st.objects| <= o < |st'.objects| ==> st'.objects[o].subs == {} && !st'.objects[o].hasPub
    requires t in st.handlers ==> st.handlers[t].Found?
    requires t in st'.handlers ==> st'.handlers[t].Found? && st'.handlers[t].obj < |st'.objects|
    requires st'.handlers - {t} == st.handlers - {t}
    ensures PartiesOk(lim, st')
  {
    forall u, o ensures Publishes(st', u, o) == Publishes(st, u, o) {
      SameElsewhere(st.handlers, st'.handlers, t, u);
    }
    forall o | 0 <= o < |st'.objects| ensures ObjectOk(lim, st', o) {
      if o < |st.objects| {
        assert st'.objects[o] == st.objects[o];
        assert ObjectOk(lim, st, o);
        forall u | u in st'.objects[o].subs ensures u in st'.handlers && st'.handlers[u] == Joined(Subscriber, o) {
          SameElsewhere(st.handlers, st'.handlers, t, u);
        }
      } else {
        forall u ensures !Publishes(st', u, o) {
          assert HandlerOk(st, u);
        }
      }
    }
    forall u | u in st'.handlers ensures HandlerOk(st', u) {
      SameElsewhere(st.handlers, st'.handlers, t, u);
      if u != t {
        assert HandlerOk(st, u);
        assert st'.objects[st.handlers[u].obj] == st.objects[st.handlers[u].obj];
      }
    }
  }

  lemma SameElsewhere(m: map<nat, Handler>, m': map<nat, Handler>, t: nat, u: nat)
    requires m' - {t} == m - {t}
    ensures u != t ==> (u in m <==> u in m') && (u in m ==> m'[u] == m[u])
  {
    if u != t {
      assert (u in m <==> u in m - {t}) && (u in m' <==> u in m' - {t});
    }
  }

  /** One object changes together with the one handler concerned. */
  lemma ObjectStepOk(lim: Limits, st: State, st': State, t: nat, o: nat)
    requires PartiesOk(lim, st) && o < |st.objects|
    requires |st'.objects| == |st.objects|
    requires forall p :: 0 <= p < |st.objects| && p != o ==> st'.objects[p] == st.objects[p]
    requires t in st.handlers && st.handlers[t].obj == o
    requires t in st'.handlers ==> st'.handlers[t].obj == o && HandlerOk(st', t)
    requires st'.handlers - {t} == st.handlers - {t}
    requires ObjectOk(lim, st', o)
    requires forall u :: u != t && u in st.handlers && st.handlers[u].obj == o ==> HandlerOk(st', u)
    ensures PartiesOk(lim, st')
  {
    forall p | 0 <= p < |st'.objects| ensures ObjectOk(lim, st', p) {
      if p != o {
        assert ObjectOk(lim, st, p);
        forall u ensures Publishes(st', u, p) == Publishes(st, u, p) {
          SameElsewhere(st.handlers, st'.handlers, t, u);
        }
        forall u | u in st'.objects[p].subs ensures u in st'.handlers && st'.handlers[u] == Joined(Subscriber, p) {
          SameElsewhere(st.handlers, st'.handlers, t, u);
        }
      }
    }
    forall u | u in st'.handlers ensures HandlerOk(st', u) {
      SameElsewhere(st.handlers, st'.handlers, t, u);
      if u != t {
        assert HandlerOk(st, u);
      }
    }
  }

  lemma ClaimOk(lim: Limits, st: State, t: nat)
    requires PartiesOk(lim, st) && t in st.handlers && st.handlers[t].Found? && st.handlers[t].obj < |st.objects|
    requires st.handlers[t].role == Publisher && !st.objects[st.handlers[t].obj].hasPub
    ensures PartiesOk(lim, Step(lim, st, Enter(t)))
  {
    var st', o := Step(lim, st, Enter(t)), st.handlers[t].obj;
    assert ObjectOk(lim, st, o);
    forall u ensures Publishes(st', u, o) <==> u == t {
      assert HandlerOk(st, u);
    }
    forall u | u != t && u in st.handlers && st.handlers[u].obj == o ensures HandlerOk(st', u) {
      assert HandlerOk(st, u);
    }
    assert st'.handlers - {t} == st.handlers - {t};
    assert Publishes(st', t, o);
    ObjectStepOk(lim, st, st', t, o);
  }

  lemma SubscribeOk(lim: Limits, st: State, t: nat)
    requires PartiesOk(lim, st) && t in st.handlers && st.handlers[t].Found? && st.handlers[t].obj < |st.objects|
    requires st.handlers[t].role == Subscriber && |st.objects[st.handlers[t].obj].subs| < lim.maxSubs
    ensures PartiesOk(lim, Step(lim, st, Enter(t)))
  {
    var st', o := Step(lim, st, Enter(t)), st.handlers[t].obj;
    assert ObjectOk(lim, st, o);
    assert forall u :: Publishes(st', u, o) == Publishes(st, u, o);
    forall u | u != t && u in st.handlers && st.handlers[u].obj == o ensures HandlerOk(st', u) {
      assert HandlerOk(st, u);
    }
    assert st'.handlers - {t} == st.handlers - {t};
    ObjectStepOk(lim, st, st', t, o);
  }

  lemma EnterOk(lim: Limits, st: State, ev: Event)
    requires Inv(lim, st) && ev.Enter?
    ensures Inv(lim, Step(lim, st, ev))
  {
    var st', t := Step(lim, st, ev), ev.tid;
    if st' != st {
      var ch := st.objects[st.handlers[t].obj];
      if st.handlers[t].role == Publisher && !ch.hasPub {
        ClaimOk(lim, st, t);
      } else if st.handlers[t].role == Subscriber && |ch.subs| < lim.maxSubs {
        SubscribeOk(lim, st, t);
      } else {
        RejectedOk(lim, st, t);
      }
    }
  }

  lemma RejectedOk(lim: Limits, st: State, t: nat)
    requires PartiesOk(lim, st) && t in st.handlers && st.handlers[t].Found?
    ensures PartiesOk(lim, st.(handlers := st.handlers - {t}))
  {
    assert (st.handlers - {t}) - {t} == st.handlers - {t};
    KeepsParties(lim, st, st.(handlers := st.handlers - {t}), t);
  }

  lemma ReleaseOk(lim: Limits, st: State, t: nat, o: nat)
    requires PartiesOk(lim, st) && Publishes(st, t, o) && o < |st.objects|
    ensures PartiesOk(lim, Step(lim, st, Leave(t)))
  {
    var st' := Step(lim, st, Leave(t));
    assert ObjectOk(lim, st, o);
    forall u ensures !Publishes(st', u, o) {
      assert u != t ==> Publishes(st', u, o) == Publishes(st, u, o);
    }
    forall u | u != t && u in st.handlers && st.handlers[u].obj == o ensures HandlerOk(st', u) {
      assert HandlerOk(st, u) && !Publishes(st, u, o);
    }
    assert st'.handlers - {t} == st.handlers - {t};
    ObjectStepOk(lim, st, st', t, o);
  }

  lemma UnsubscribeOk(lim: Limits, st: State, t: nat, o: nat)
    requires PartiesOk(lim, st) && t in st.handlers && st.handlers[t] == Joined(Subscriber, o) && o < |st.objects|
    ensures PartiesOk(lim, Step(lim, st, Leave(t)))
  {
    var st' := Step(lim, st, Leave(t));
    assert ObjectOk(lim, st, o);
    SubsetSize(st'.objects[o].subs, st.objects[o].subs);
    assert forall u :: Publishes(st', u, o) == Publishes(st, u, o);
    forall u | u != t && u in st.handlers && st.handlers[u].obj == o ensures HandlerOk(st', u) {
      assert HandlerOk(st, u);
    }
    assert st'.handlers - {t} == st.handlers - {t};
    ObjectStepOk(lim, st, st', t, o);
  }

  lemma LeaveOk(lim: Limits, st: State, ev: Event)
    requires Inv(lim, st) && ev.Leave?
    ensures Inv(lim, Step(lim, st, ev))
  {
    var t := ev.tid;
    if t in st.handlers && st.handlers[t].Joined? {
      assert HandlerOk(st, t);
      match st.handlers[t].role
      case Publisher => ReleaseOk(lim, st, t, st.handlers[t].obj);
      case Subscriber => UnsubscribeOk(lim, st, t, st.handlers[t].obj);
    }
  }

  lemma SamePartiesOk(lim: Limits, st: State, st': State)
    requires PartiesOk(lim, st) && st'.handlers == st.handlers && st'.objects == st.objects
    ensures PartiesOk(lim, st')
  {
    assert forall t, o :: Publishes(st', t, o) == Publishes(st, t, o);
    forall t ensures HandlerOk(st', t) {
      assert HandlerOk(st, t);
    }
    forall o | 0 <= o < |st'.objects| ensures ObjectOk(lim, st', o) {
      assert ObjectOk(lim, st, o);
    }
  }

  lemma StepOk(lim: Limits, st: State, ev: Event)
    requires Inv(lim, st)
    ensures Inv(lim, Step(lim, st, ev))
  {
    match ev
    case Lookup(_, _, _) => LookupOk(lim, st, ev);
    case Enter(_) => EnterOk(lim, st, ev);
    case Leave(_) => LeaveOk(lim, st, ev);
    case _ => ReaperOk(lim, st, ev);
  }

  lemma ReaperOk(lim: Limits, st: State, ev: Event)
    requires Inv(lim, st) && !ev.Lookup? && !ev.Enter? && !ev.Leave?
    ensures Inv(lim, Step(lim, st, ev))
  {
    ReaperKeepsDirectory(lim, st, ev);
    SamePartiesOk(lim, st, Step(lim, st, ev));
  }

  lemma ReaperKeepsDirectory(lim: Limits, st: State, ev: Event)
    requires DirectoryOk(lim, st) && !ev.Lookup? && !ev.Enter? && !ev.Leave?
    ensures DirectoryOk(lim, Step(lim, st, ev))
    ensures Step(lim, st, ev).handlers == st.handlers && Step(lim, st, ev).objects == st.objects
  {
    if ev.ReapDelete? && st.reaper.Condemned? {
      SizeAfterRemove(st.channels, st.reaper.id);
    }
  }

  lemma {:induction false} RunOk(lim: Limits, evs: seq<Event>)
    ensures Inv(lim, Exec(lim, Init(), evs))
    decreases |evs|
  {
    if evs != [] {
      RunOk(lim, evs[..|evs| - 1]);
      StepOk(lim, Exec(lim, Init(), evs[..|evs| - 1]), evs[|evs| - 1]);
    }
  }

  /**
   In every run, sweeps included: a channel object has at most one publisher, its slot is taken
   exactly while one holds it, its subscribers are exactly the joined ones and within the cap,
   and the directory is within its cap and lists every object under its own id.
   */
  lemma EveryObjectIsSound(lim: Limits, evs: seq<Event>, o: nat, t: nat, u: nat)
    requires o < |Exec(lim, Init(), evs).objects|
    ensures
      var st := Exec(lim, Init(), evs);
      && |st.channels| <= lim.maxChannels && |st.objects[o].subs| <= lim.maxSubs
      && (forall id :: id in st.channels && st.channels[id] == o ==> st.objects[o].id == id)
      && (Publishes(st, t, o) && Publishes(st, u, o) ==> t == u)
      && (st.objects[o].hasPub <==> exists p :: Publishes(st, p, o))
      && (t in st.objects[o].subs <==> t in st.handlers && st.handlers[t] == Joined(Subscriber, o))
  {
    RunOk(lim, evs);
    var st := Exec(lim, Init(), evs);
    assert ObjectOk(lim, st, o);
    if p :| Publishes(st, p, o) {
      assert HandlerOk(st, p);
    }
    if t in st.handlers {
      assert HandlerOk(st, t);
    }
  }

  // ---- what holds per channel id ----

  /** Every handler works on the object its channel id is registered under. */
  ghost predicate AllRegistered(st: State) {
    forall t :: t in st.handlers ==> OnRegistered(st, t)
  }

  /** This event deletes a channel that some handler still refers to. */
  ghost predicate OrphansSomeone(st: State, ev: Event) {
    && ev.ReapDelete? && st.reaper.Condemned? && st.reaper.id in st.channels
    && exists t :: t in st.handlers && st.handlers[t].obj == st.channels[st.reaper.id]
  }

  ghost predicate NeverOrphans(lim: Limits, evs: seq<Event>) {
    forall i :: 0 <= i < |evs| ==> !OrphansSomeone(Exec(lim, Init(), evs[..i]), evs[i])
  }

  ghost predicate AlwaysRegistered(lim: Limits, evs: seq<Event>) {
    forall i :: 0 <= i <= |evs| ==> AllRegistered(Exec(lim, Init(), evs[..i]))
  }

  ghost predicate OnRegistered(st: State, t: nat)
    requires t in st.handlers
  {
    var o := st.handlers[t].obj;
    o < |st.objects| && st.objects[o].id in st.channels && st.channels[st.objects[o].id] == o
  }

  lemma StepRegistered(lim: Limits, st: State, ev: Event)
    requires Inv(lim, st) && AllRegistered(st)
    ensures AllRegistered(Step(lim, st, ev)) <==> !OrphansSomeone(st, ev)
  {
    var st' := Step(lim, st, ev);
    if OrphansSomeone(st, ev) {
      var t :| t in st.handlers && st.handlers[t].obj == st.channels[st.reaper.id];
      assert OnRegistered(st, t);
      assert !OnRegistered(st', t);
    } else if ev.ReapDelete? {
      forall t | t in st'.handlers ensures OnRegistered(st', t) {
        assert OnRegistered(st, t);
      }
    } else {
      DirectoryOnlyGrows(lim, st, ev);
      forall t | t in st'.handlers ensures OnRegistered(st', t) {
        if t in st.handlers {
          assert OnRegistered(st, t);
        }
      }
    }
  }

  /** Apart from a deletion, steps keep the directory entries, the objects' ids and what each handler refers to. */
  ghost predicate Grows(st: State, st': State) {
    && |st.objects| <= |st'.objects|
    && (forall o :: 0 <= o < |st.objects| ==> st'.objects[o].id == st.objects[o].id)
    && (forall id :: id in st.channels ==> id in st'.channels && st'.channels[id] == st.channels[id])
    && (forall t :: t in st'.handlers ==>
          if t in st.handlers then
            st'.handlers[t].obj == st.handlers[t].obj && st'.handlers[t].role == st.handlers[t].role
          else
            OnRegistered(st', t))
  }

  lemma LookupGrows(lim: Limits, st: State, ev: Event)
    requires DirectoryOk(lim, st) && ev.Lookup?
    ensures Grows(st, Step(lim, st, ev))
  {
    var st' := Step(lim, st, ev);
    if st' != st {
      assert OnRegistered(st', ev.tid);
    }
  }

  lemma HandlerStepGrows(lim: Limits, st: State, ev: Event)
    requires ev.Enter? || ev.Leave?
    ensures Grows(st, Step(lim, st, ev))
  {
  }

  lemma DirectoryOnlyGrows(lim: Limits, st: State, ev: Event)
    requires DirectoryOk(lim, st) && !ev.ReapDelete?
    ensures Grows(st, Step(lim, st, ev))
  {
    match ev
    case Lookup(_, _, _) => LookupGrows(lim, st, ev);
    case Enter(_) => HandlerStepGrows(lim, st, ev);
    case Leave(_) => HandlerStepGrows(lim, st, ev);
    case _ => ReaperKeepsDirectory(lim, st, ev);
  }

  lemma ExecPrefix(lim: Limits, evs: seq<Event>, i: nat)
    requires i < |evs|
    ensures Exec(lim, Init(), evs[..i + 1]) == Step(lim, Exec(lim, Init(), evs[..i]), evs[i])
  {
    assert evs[..i + 1][..i] == evs[..i];
  }

  /**
   Every handler is on the registered object of its id throughout a run exactly when no sweep of
   the run deletes a channel some handler has looked up.
   */
  lemma RegisteredIffNeverOrphans(lim: Limits, evs: seq<Event>)
    ensures AlwaysRegistered(lim, evs) <==> NeverOrphans(lim, evs)
  {
    if AlwaysRegistered(lim, evs) {
      forall i | 0 <= i < |evs| ensures !OrphansSomeone(Exec(lim, Init(), evs[..i]), evs[i]) {
        RunOk(lim, evs[..i]);
        ExecPrefix(lim, evs, i);
        assert AllRegistered(Exec(lim, Init(), evs[..i])) && AllRegistered(Exec(lim, Init(), evs[..i + 1]));
        StepRegistered(lim, Exec(lim, Init(), evs[..i]), evs[i]);
      }
    }
    if NeverOrphans(lim, evs) {
      forall i | 0 <= i <= |evs| ensures AllRegistered(Exec(lim, Init(), evs[..i])) {
        RegisteredUpTo(lim, evs, i);
      }
    }
  }

  lemma {:induction false} RegisteredUpTo(lim: Limits, evs: seq<Event>, i: nat)
    requires i <= |evs| && NeverOrphans(lim, evs)
    ensures AllRegistered(Exec(lim, Init(), evs[..i]))
    decreases i
  {
    if i > 0 {
      RegisteredUpTo(lim, evs, i - 1);
      RunOk(lim, evs[..i - 1]);
      ExecPrefix(lim, evs, i - 1);
      StepRegistered(lim, Exec(lim, Init(), evs[..i - 1]), evs[i - 1]);
    }
  }

  // ---- a condition on the sweeps alone ----

  /** No sweep starts while some handler is between its lookup and its claim. */
  ghost predicate QuietSweeps(lim: Limits, evs: seq<Event>) {
    forall i :: 0 <= i < |evs| && evs[i].ReapBegin? ==> NoneFound(Exec(lim, Init(), evs[..i]))
  }

  ghost predicate NoneFound(st: State) {
    forall t :: t in st.handlers ==> st.handlers[t].Joined?
  }

  ghost predicate SweepOk(st: State) {
    && (!st.reaper.Idle? ==> NoneFound(st))
    && (st.reaper.Condemned? && st.reaper.id in st.channels && st.channels[st.reaper.id] < |st.objects| ==>
          var ch := st.objects[st.channels[st.reaper.id]];
          !ch.hasPub && ch.subs == {})
  }

  lemma SweepStepOk(lim: Limits, st: State, ev: Event)
    requires DirectoryOk(lim, st) && SweepOk(st) && (ev.ReapBegin? ==> NoneFound(st))
    ensures SweepOk(Step(lim, st, ev))
  {
  }

  lemma {:induction false} SweepsStayOk(lim: Limits, evs: seq<Event>, i: nat)
    requires i <= |evs| && QuietSweeps(lim, evs)
    ensures SweepOk(Exec(lim, Init(), evs[..i]))
    decreases i
  {
    if i > 0 {
      SweepsStayOk(lim, evs, i - 1);
      RunOk(lim, evs[..i - 1]);
      ExecPrefix(lim, evs, i - 1);
      SweepStepOk(lim, Exec(lim, Init(), evs[..i - 1]), evs[i - 1]);
    }
  }

  /** In a quiet sweep the condemned channel stays idle until it is deleted. */
  lemma QuietDeleteIsSafe(lim: Limits, st: State, ev: Event)
    requires Inv(lim, st) && SweepOk(st)
    ensures !OrphansSomeone(st, ev)
  {
    forall t | t in st.handlers && st.handlers[t].Joined?
      ensures st.handlers[t].obj < |st.objects| && Busy(st.objects[st.handlers[t].obj])
    {
      assert HandlerOk(st, t);
    }
  }

  predicate Busy(ch: Channel) {
    ch.hasPub || ch.subs != {}
  }

  /** So no sweep deletes a channel under a handler if none overlaps a lookup-to-claim window. */
  lemma QuietSweepsNeverOrphan(lim: Limits, evs: seq<Event>)
    requires QuietSweeps(lim, evs)
    ensures NeverOrphans(lim, evs)
  {
    forall i | 0 <= i < |evs| ensures !OrphansSomeone(Exec(lim, Init(), evs[..i]), evs[i]) {
      SweepsStayOk(lim, evs, i);
      RunOk(lim, evs[..i]);
      QuietDeleteIsSafe(lim, Exec(lim, Init(), evs[..i]), evs[i]);
    }
  }

  // ---- publishers of one id ----

  /**
   As long as no sweep deletes a looked-up channel, each channel id has at most one publisher, and
   it and every subscriber of the id are on the one registered object of that id.
   */
  lemma OnePublisherPerId(lim: Limits, evs: seq<Event>, t: nat, u: nat)
    requires NeverOrphans(lim, evs)
    requires t in Exec(lim, Init(), evs).handlers && u in Exec(lim, Init(), evs).handlers
    ensures
      var st := Exec(lim, Init(), evs);
      var h, k := st.handlers[t], st.handlers[u];
      && h.obj < |st.objects| && k.obj < |st.objects|
      && var id := st.objects[h.obj].id;
         && id in st.channels && st.channels[id] == h.obj
         && (st.objects[k.obj].id == id ==>
               && k.obj == h.obj
               && (h == Joined(Publisher, h.obj) && k == Joined(Publisher, k.obj) ==> t == u))
  {
    RegisteredUpTo(lim, evs, |evs|);
    assert evs[..|evs|] == evs;
    RunOk(lim, evs);
    var st := Exec(lim, Init(), evs);
    assert OnRegistered(st, t) && OnRegistered(st, u);
    if Publishes(st, t, st.handlers[t].obj) && Publishes(st, u, st.handlers[t].obj) {
      assert ObjectOk(lim, st, st.handlers[t].obj);
    }
  }

  /** A publisher's handler, before its claim or after, whose channel of this id has been deleted. */
  ghost predicate Stray(st: State, t: nat, id: ChannelId) {
    && t in st.handlers && st.handlers[t].role == Publisher
    && st.handlers[t].obj < |st.objects| && st.objects[st.handlers[t].obj].id == id
    && !OnRegistered(st, t)
  }

  ghost predicate PublishesId(st: State, t: nat, id: ChannelId) {
    t in st.handlers && st.handlers[t].obj < |st.objects| && Publishes(st, t, st.handlers[t].obj)
    && st.objects[st.handlers[t].obj].id == id
  }

  ghost predicate TwoPublish(st: State, id: ChannelId) {
    exists t, u :: t != u && PublishesId(st, t, id) && PublishesId(st, u, id)
  }

  /** Events without a deletion lead from one state to the other. */
  ghost predicate Leads(lim: Limits, st: State, st': State) {
    exists more :: NoDeletion(more) && Exec(lim, st, more) == st'
  }

  ghost predicate NoDeletion(evs: seq<Event>) {
    ReapDelete !in evs
  }

  lemma LeadsOn(lim: Limits, st: State, mid: State, ev: Event)
    requires Leads(lim, st, mid) && ev != ReapDelete
    ensures Leads(lim, st, Step(lim, mid, ev))
  {
    var more :| NoDeletion(more) && Exec(lim, st, more) == mid;
    assert (more + [ev])[..|more|] == more;
    assert NoDeletion(more + [ev]) && Exec(lim, st, more + [ev]) == Step(lim, mid, ev);
  }

  /** Nobody goes astray without a deletion. */
  lemma {:induction false} NoneStray(lim: Limits, st: State, more: seq<Event>, id: ChannelId)
    requires Inv(lim, st) && NoDeletion(more) && forall t :: !Stray(st, t, id)
    ensures Inv(lim, Exec(lim, st, more)) && forall t :: !Stray(Exec(lim, st, more), t, id)
    decreases |more|
  {
    if more != [] {
      var before, ev := more[..|more| - 1], more[|more| - 1];
      assert ev in more && forall e :: e in before ==> e in more;
      NoneStray(lim, st, before, id);
      var mid := Exec(lim, st, before);
      StepOk(lim, mid, ev);
      DirectoryOnlyGrows(lim, mid, ev);
      forall t ensures !Stray(Step(lim, mid, ev), t, id) {
        assert !Stray(mid, t, id) && HandlerOk(mid, t);
      }
    }
  }

  lemma NoStrayNoTwo(lim: Limits, st: State, id: ChannelId)
    requires Inv(lim, st) && forall t :: !Stray(st, t, id)
    ensures !TwoPublish(st, id)
  {
    forall t, u | PublishesId(st, t, id) && PublishesId(st, u, id) ensures t == u {
      assert !Stray(st, t, id) && !Stray(st, u, id);
      assert ObjectOk(lim, st, st.handlers[t].obj);
    }
  }

  lemma {:induction false} FreshTid(used: set<nat>) returns (u: nat)
    ensures forall t :: t in used ==> t < u
  {
    if used == {} {
      u := 0;
    } else {
      var t :| t in used;
      var v := FreshTid(used - {t});
      u := if v > t then v else t + 1;
      assert forall x :: x in used ==> x == t || x in used - {t};
    }
  }

  /** Somebody holds the slot of this object, or its handler can take it. */
  lemma SlotTaken(lim: Limits, st: State, mid: State, t: nat, id: ChannelId) returns (next: State, p: nat)
    requires Leads(lim, st, mid) && Inv(lim, mid) && t in mid.handlers && mid.handlers[t].role == Publisher
    requires mid.handlers[t].obj < |mid.objects| && mid.objects[mid.handlers[t].obj].id == id
    ensures Leads(lim, st, next) && Inv(lim, next) && next.channels == mid.channels && next.reaper == mid.reaper
    ensures PublishesId(next, p, id) && next.handlers[p].obj == mid.handlers[t].obj
    ensures forall u :: PublishesId(mid, u, id) ==> PublishesId(next, u, id) && next.handlers[u] == mid.handlers[u]
  {
    assert HandlerOk(mid, t);
    var o := mid.handlers[t].obj;
    assert ObjectOk(lim, mid, o);
    if mid.objects[o].hasPub {
      next := mid;
      p :| Publishes(mid, p, o);
    } else {
      next, p := Step(lim, mid, Enter(t)), t;
      LeadsOn(lim, st, mid, Enter(t));
      StepOk(lim, mid, Enter(t));
    }
  }

  /** Another publisher looks the id up, and finds another channel than a stray one's. */
  lemma AnotherFinds(lim: Limits, st: State, mid: State, p: nat, id: ChannelId) returns (found: State, u: nat)
    requires Leads(lim, st, mid) && Inv(lim, mid) && mid.reaper.Idle? && ValidId(id)
    requires id in mid.channels || |mid.channels| < lim.maxChannels
    requires PublishesId(mid, p, id) && Stray(mid, p, id)
    ensures Leads(lim, st, found) && Inv(lim, found) && PublishesId(found, p, id)
    ensures u in found.handlers && found.handlers[u].role == Publisher && found.handlers[u].obj < |found.objects|
    ensures found.objects[found.handlers[u].obj].id == id && found.handlers[u].obj != found.handlers[p].obj
  {
    u := FreshTid(mid.handlers.Keys);
    assert u !in mid.handlers;
    found := Step(lim, mid, Lookup(u, id, Publisher));
    LeadsOn(lim, st, mid, Lookup(u, id, Publisher));
    StepOk(lim, mid, Lookup(u, id, Publisher));
  }

  /** A stray publisher takes the deleted channel's slot, and another one the slot of the id's new channel. */
  lemma StrayLeadsToTwo(lim: Limits, st: State, t: nat, id: ChannelId)
    requires Inv(lim, st) && Stray(st, t, id) && st.reaper.Idle? && ValidId(id)
    requires id in st.channels || |st.channels| < lim.maxChannels
    ensures exists more :: NoDeletion(more) && TwoPublish(Exec(lim, st, more), id)
  {
    assert NoDeletion([]) && Exec(lim, st, []) == st;
    var held, p := SlotTaken(lim, st, st, t, id);
    var found, u := AnotherFinds(lim, st, held, p, id);
    var last, q := SlotTaken(lim, st, found, u, id);
    assert PublishesId(last, p, id) && PublishesId(last, q, id);
    var more :| NoDeletion(more) && Exec(lim, st, more) == last;
    assert TwoPublish(Exec(lim, st, more), id);
  }

  /**
   From any reachable state between sweeps, and unless a new channel of the id would be refused:
   without a further deletion two publishers can come to hold the same id exactly if a publisher
   whose channel was deleted under it is still there.
   */
  lemma TwoPublishersIff(lim: Limits, evs: seq<Event>, id: ChannelId)
    requires ValidId(id) && Exec(lim, Init(), evs).reaper.Idle?
    requires id in Exec(lim, Init(), evs).channels || |Exec(lim, Init(), evs).channels| < lim.maxChannels
    ensures
      var st := Exec(lim, Init(), evs);
      (exists more :: NoDeletion(more) && TwoPublish(Exec(lim, st, more), id)) <==> exists t :: Stray(st, t, id)
  {
    var st := Exec(lim, Init(), evs);
    RunOk(lim, evs);
    if t :| Stray(st, t, id) {
      StrayLeadsToTwo(lim, st, t, id);
    } else {
      forall more | NoDeletion(more) ensures !TwoPublish(Exec(lim, st, more), id) {
        NoneStray(lim, st, more, id);
        NoStrayNoTwo(lim, Exec(lim, st, more), id);
      }
    }
  }

  lemma ExecTwo(lim: Limits, st: State, e1: Event, e2: Event)
    ensures Exec(lim, st, [e1, e2]) == Step(lim, Step(lim, st, e1), e2)
  {
    assert [e1, e2][..1] == [e1] && [e1][..0] == [];
    assert Exec(lim, st, [e1]) == Step(lim, st, e1);
  }

  lemma ExecConcat(lim: Limits, st: State, a: seq<Event>, b: seq<Event>)
    ensures Exec(lim, st, a + b) == Exec(lim, Exec(lim, st, a), b)
    decreases |b|
  {
    if b == [] {
      assert a + b == a;
    } else {
      assert (a + b)[..|a + b| - 1] == a + b[..|b| - 1];
      ExecConcat(lim, st, a, b[..|b| - 1]);
    }
  }

  /** A handler finds its channel, and the sweep condemns and deletes it. */
  lemma SweepTakesTheFoundChannel(id: ChannelId, lim: Limits)
    requires ValidId(id) && lim.maxChannels >= 1
    ensures
      Exec(lim, Exec(lim, Init(), [Lookup(1, id, Publisher), ReapBegin]), [ReapCheck(id), ReapDelete])
      == State(map[], [Channel(id, false, {})], map[1 := Found(Publisher, 0)], Sweeping({}))
  {
    var s2 := State(map[id := 0], [Channel(id, false, {})], map[1 := Found(Publisher, 0)], Sweeping({id}));
    ExecTwo(lim, Init(), Lookup(1, id, Publisher), ReapBegin);
    FirstFinds(id, lim);
    ExecTwo(lim, s2, ReapCheck(id), ReapDelete);
    SweepDeletes(id, lim);
  }

  lemma FirstFinds(id: ChannelId, lim: Limits)
    requires ValidId(id) && lim.maxChannels >= 1
    ensures Step(lim, Step(lim, Init(), Lookup(1, id, Publisher)), ReapBegin)
         == State(map[id := 0], [Channel(id, false, {})], map[1 := Found(Publisher, 0)], Sweeping({id}))
  {
    assert map[id := 0].Keys == {id};
  }

  lemma SweepDeletes(id: ChannelId, lim: Limits)
    ensures
      var st := State(map[id := 0], [Channel(id, false, {})], map[1 := Found(Publisher, 0)], Sweeping({id}));
      Step(lim, Step(lim, st, ReapCheck(id)), ReapDelete)
      == State(map[], [Channel(id, false, {})], map[1 := Found(Publisher, 0)], Sweeping({}))
  {
    assert map[id := 0] - {id} == map[] && {id} - {id} == {};
  }

  /** The first publisher enters the deleted object, the second a new one under the same id. */
  lemma BothPublishersEnter(id: ChannelId, lim: Limits, st: State)
    requires ValidId(id) && lim.maxChannels >= 1
    requires st == State(map[], [Channel(id, false, {})], map[1 := Found(Publisher, 0)], Sweeping({}))
    ensures
      Exec(lim, Exec(lim, st, [ReapEnd, Enter(1)]), [Lookup(2, id, Publisher), Enter(2)])
      == State(map[id := 1], [Channel(id, true, {}), Channel(id, true, {})],
               map[1 := Joined(Publisher, 0), 2 := Joined(Publisher, 1)], Idle)
  {
    var s6 := State(map[], [Channel(id, true, {})], map[1 := Joined(Publisher, 0)], Idle);
    ExecTwo(lim, st, ReapEnd, Enter(1));
    FirstEnters(id, lim);
    ExecTwo(lim, s6, Lookup(2, id, Publisher), Enter(2));
    SecondEnters(id, lim);
  }

  lemma FirstEnters(id: ChannelId, lim: Limits)
    ensures
      var st := State(map[], [Channel(id, false, {})], map[1 := Found(Publisher, 0)], Sweeping({}));
      Step(lim, Step(lim, st, ReapEnd), Enter(1)) ==
          State(map[], [Channel(id, true, {})], map[1 := Joined(Publisher, 0)], Idle)
  {
    assert [Channel(id, false, {})][0 := Channel(id, true, {})] == [Channel(id, true, {})];
    assert map[1 := Found(Publisher, 0)][1 := Joined(Publisher, 0)] == map[1 := Joined(Publisher, 0)];
  }

  lemma SecondFinds(id: ChannelId, lim: Limits)
    requires ValidId(id) && lim.maxChannels >= 1
    ensures
      var st := State(map[], [Channel(id, true, {})], map[1 := Joined(Publisher, 0)], Idle);
      Step(lim, st, Lookup(2, id, Publisher))
      == State(map[id := 1], [Channel(id, true, {}), Channel(id, false, {})],
               map[1 := Joined(Publisher, 0), 2 := Found(Publisher, 1)], Idle)
  {
    assert [Channel(id, true, {})] + [Channel(id, false, {})] == [Channel(id, true, {}), Channel(id, false, {})];
  }

  lemma SecondEnters(id: ChannelId, lim: Limits)
    requires ValidId(id) && lim.maxChannels >= 1
    ensures
      var st := State(map[], [Channel(id, true, {})], map[1 := Joined(Publisher, 0)], Idle);
      Step(lim, Step(lim, st, Lookup(2, id, Publisher)), Enter(2))
      == State(map[id := 1], [Channel(id, true, {}), Channel(id, true, {})],
               map[1 := Joined(Publisher, 0), 2 := Joined(Publisher, 1)], Idle)
  {
    SecondFinds(id, lim);
    var objects := [Channel(id, true, {}), Channel(id, false, {})];
    var handlers := map[1 := Joined(Publisher, 0), 2 := Found(Publisher, 1)];
    assert objects[1 := Channel(id, true, {})] == [Channel(id, true, {}), Channel(id, true, {})];
    assert handlers[2 := Joined(Publisher, 1)] == map[1 := Joined(Publisher, 0), 2 := Joined(Publisher, 1)];
  }

  /** Without the condition it fails: a sweep between lookup and claim lets a second publisher onto the same id. */
  lemma SweepInTheWindowAllowsTwoPublishers(id: ChannelId, lim: Limits)
    requires ValidId(id) && lim.maxChannels >= 1
    ensures
      var evs := [Lookup(1, id, Publisher), ReapBegin] + [ReapCheck(id), ReapDelete]
                 + [ReapEnd, Enter(1)] + [Lookup(2, id, Publisher), Enter(2)];
      var st := Exec(lim, Init(), evs);
      && Publishes(st, 1, 0) && Publishes(st, 2, 1)
      && |st.objects| == 2 && st.objects[0].id == id && st.objects[1].id == id
  {
    var a, b := [Lookup(1, id, Publisher), ReapBegin], [ReapCheck(id), ReapDelete];
    var c, d := [ReapEnd, Enter(1)], [Lookup(2, id, Publisher), Enter(2)];
    ExecConcat(lim, Init(), a, b);
    ExecConcat(lim, Init(), a + b, c);
    ExecConcat(lim, Init(), a + b + c, d);
    SweepTakesTheFoundChannel(id, lim);
    BothPublishersEnter(id, lim, Exec(lim, Init(), a + b));
  }

  // ---- a visit and a sweep with nobody else running ----

  /** 1 to 64 small letters, digits and underscores. */
  predicate IsName(name: string) {
    1 <= |name| <= 64
    && forall i :: 0 <= i < |name| ==> 'a' <= name[i] <= 'z' || '0' <= name[i] <= '9' || name[i] == '_'
  }

  lemma ValidAfter(p: string, id: string)
    requires p <= id
    ensures IsName(id[|p|..]) <==> 1 <= |id| - |p| <= 64 && forall i :: |p| <= i < |id| ==> IsNameChar(id[i])
  {
    var name := id[|p|..];
    assert forall i :: 0 <= i < |name| ==> name[i] == id[|p| + i];
    assert forall i :: |p| <= i < |id| ==> id[i] == name[i - |p|];
  }

  lemma ValidIdIff(id: string)
    ensures ValidId(id) <==> ("twitch:" <= id && IsName(id[7..])) || ("kick:" <= id && IsName(id[5..]))
  {
    var twitch, kick := "twitch:", "kick:";
    assert |twitch| == 7 && |kick| == 5 && twitch in ["twitch:", "kick:"] && kick in ["twitch:", "kick:"];
    if twitch <= id {
      ValidAfter(twitch, id);
    }
    if kick <= id {
      ValidAfter(kick, id);
    }
  }

  /** Whether a channel takes another party in this role. */
  predicate Admits(lim: Limits, ch: Channel, role: Role) {
    if role.Publisher? then !ch.hasPub else |ch.subs| < lim.maxSubs
  }

  /**
   A handler that looks an id up gets the registered channel, a new one if there was none; it joins
   exactly if the slot is free or the cap not reached, and when it leaves nothing is left of it.
   */
  lemma VisitLeavesNoTrace(lim: Limits, st: State, t: nat, id: ChannelId, role: Role)
    requires Inv(lim, st) && st.reaper.Idle? && t !in st.handlers && ValidId(id)
    requires id in st.channels || |st.channels| < lim.maxChannels
    ensures
      var found := Step(lim, st, Lookup(t, id, role));
      var joined := Step(lim, found, Enter(t));
      && id in found.channels && found.channels[id] < |found.objects|
      && var o := found.channels[id];
         && (if id in st.channels then found == st.(handlers := st.handlers[t := Found(role, o)])
             else found == State(st.channels[id := |st.objects|], st.objects + [Channel(id, false, {})],
                                 st.handlers[t := Found(role, o)], Idle))
         && (if Admits(lim, found.objects[o], role)
             then t in joined.handlers && joined.handlers[t] == Joined(role, o)
                  && Step(lim, joined, Leave(t)) == found.(handlers := st.handlers)
             else joined == found.(handlers := st.handlers))
  {
    var found := Step(lim, st, Lookup(t, id, role));
    var o := found.channels[id];
    LookupOk(lim, st, Lookup(t, id, role));
    assert found.handlers == st.handlers[t := Found(role, o)];
    EnterThenLeave(lim, found, st.handlers, t, role, o);
  }

  lemma EnterThenLeave(lim: Limits, found: State, others: map<nat, Handler>, t: nat, role: Role, o: nat)
    requires PartiesOk(lim, found) && t !in others && found.handlers == others[t := Found(role, o)]
    requires o < |found.objects|
    ensures
      var joined := Step(lim, found, Enter(t));
      if Admits(lim, found.objects[o], role)
      then t in joined.handlers && joined.handlers[t] == Joined(role, o)
           && Step(lim, joined, Leave(t)) == found.(handlers := others)
      else joined == found.(handlers := others)
  {
    assert others[t := Found(role, o)] - {t} == others && others[t := Joined(role, o)] - {t} == others;
    assert ObjectOk(lim, found, o);
    var ch := found.objects[o];
    if Admits(lim, ch, role) {
      var ch' := if role.Publisher? then ch.(hasPub := true) else ch.(subs := ch.subs + {t});
      assert t !in ch.subs;
      assert ch.subs + {t} - {t} == ch.subs;
      assert found.objects[o := ch'][o := ch] == found.objects;
      assert Step(lim, found, Enter(t)) ==
             found.(objects := found.objects[o := ch'], handlers := others[t := Joined(role, o)]) by {
        assert others[t := Found(role, o)][t := Joined(role, o)] == others[t := Joined(role, o)];
      }
    }
  }

  /** The channels that are left when those of the given ids have been swept. */
  function Swept(st: State, visited: set<ChannelId>): map<ChannelId, nat>
    requires forall id :: id in st.channels ==> st.channels[id] < |st.objects|
  {
    map id | id in st.channels && (id !in visited || Busy(st.objects[st.channels[id]])) :: st.channels[id]
  }

  function Visits(order: seq<ChannelId>): seq<Event> {
    if order == [] then [] else Visits(order[..|order| - 1]) + [ReapCheck(order[|order| - 1]), ReapDelete]
  }

  lemma SweepOne(lim: Limits, st: State, visited: set<ChannelId>, id: ChannelId)
    requires DirectoryOk(lim, st) && id in st.channels && id !in visited
    ensures
      var mid := st.(channels := Swept(st, visited), reaper := Sweeping(st.channels.Keys - visited));
      Step(lim, Step(lim, mid, ReapCheck(id)), ReapDelete) ==
      st.(channels := Swept(st, visited + {id}), reaper := Sweeping(st.channels.Keys - (visited + {id})))
  {
    assert st.channels.Keys - visited - {id} == st.channels.Keys - (visited + {id});
    if Busy(st.objects[st.channels[id]]) {
      assert Swept(st, visited + {id}) == Swept(st, visited);
    } else {
      assert Swept(st, visited + {id}) == Swept(st, visited) - {id};
    }
  }

  function Members(order: seq<ChannelId>): set<ChannelId> {
    set id | id in order
  }

  /** The state of a sweep that has visited these. */
  function Midway(st: State, visited: set<ChannelId>): State
    requires forall id :: id in st.channels ==> st.channels[id] < |st.objects|
  {
    st.(channels := Swept(st, visited), reaper := Sweeping(st.channels.Keys - visited))
  }

  lemma {:induction false} SweepSome(lim: Limits, st: State, order: seq<ChannelId>)
    requires DirectoryOk(lim, st) && (forall id :: id in order ==> id in st.channels)
    requires forall i, j :: 0 <= i < j < |order| ==> order[i] != order[j]
    ensures Exec(lim, Midway(st, {}), Visits(order)) == Midway(st, Members(order))
    decreases |order|
  {
    if order == [] {
      assert Members(order) == {};
    } else {
      var before, id := order[..|order| - 1], order[|order| - 1];
      assert order == before + [id];
      SweepSome(lim, st, before);
      ExecConcat(lim, Midway(st, {}), Visits(before), [ReapCheck(id), ReapDelete]);
      ExecTwo(lim, Midway(st, Members(before)), ReapCheck(id), ReapDelete);
      SweepOne(lim, st, Members(before), id);
      assert Members(before) + {id} == Members(order);
    }
  }

  lemma SweepBegins(lim: Limits, st: State)
    requires DirectoryOk(lim, st) && st.reaper.Idle?
    ensures Exec(lim, st, [ReapBegin]) == Midway(st, {})
  {
    ExecOne(lim, st, ReapBegin);
    NoneSwept(st);
    assert Step(lim, st, ReapBegin) == st.(reaper := Sweeping(st.channels.Keys));
  }

  lemma NoneSwept(st: State)
    requires forall id :: id in st.channels ==> st.channels[id] < |st.objects|
    ensures Swept(st, {}) == st.channels && st.channels.Keys - {} == st.channels.Keys
  {
  }

  lemma SweepEnds(lim: Limits, st: State)
    requires DirectoryOk(lim, st) && st.reaper.Idle?
    ensures Exec(lim, Midway(st, st.channels.Keys), [ReapEnd]) == st.(channels := Swept(st, st.channels.Keys))
  {
    ExecOne(lim, Midway(st, st.channels.Keys), ReapEnd);
  }

  /** A sweep that nobody interferes with removes exactly the channels without publisher and subscriber. */
  lemma QuietSweepIsReap(lim: Limits, st: State, order: seq<ChannelId>)
    requires DirectoryOk(lim, st) && st.reaper.Idle? && Members(order) == st.channels.Keys
    requires forall i, j :: 0 <= i < j < |order| ==> order[i] != order[j]
    ensures
      var st' := Exec(lim, st, [ReapBegin] + Visits(order) + [ReapEnd]);
      && st' == st.(channels := st'.channels)
      && forall id ::
           if id in st.channels && (st.objects[st.channels[id]].hasPub || st.objects[st.channels[id]].subs != {})
           then id in st'.channels && st'.channels[id] == st.channels[id]
           else id !in st'.channels
  {
    assert forall id :: id in order ==> id in Members(order);
    ExecConcat(lim, st, [ReapBegin] + Visits(order), [ReapEnd]);
    ExecConcat(lim, st, [ReapBegin], Visits(order));
    SweepBegins(lim, st);
    SweepSome(lim, st, order);
    SweepEnds(lim, st);
  }

  lemma ExecOne(lim: Limits, st: State, ev: Event)
    ensures Exec(lim, st, [ev]) == Step(lim, st, ev)
  {
    assert [ev][..0] == [];
    assert Exec(lim, st, []) == st;
  }
}
