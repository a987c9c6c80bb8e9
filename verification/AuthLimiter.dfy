/**
 The failed-auth limiter: per IP a counter anchored at the first failure of a window, and a
 ban once the counter reaches the threshold. Times are milliseconds of a clock that does not go back.
 */
module AuthLimiter {
  import opened Wrappers

  datatype Policy = Policy(threshold: int, window: nat, cooldown: nat)

  /** bannedUntil == 0 means no ban. */
  datatype Entry = Entry(count: int, firstFail: int, bannedUntil: int)

  // ---- the three operations on the entry of one IP ----

  function AllowedResult(e: Option<Entry>, now: int): bool {
    e.None? || e.value.bannedUntil == 0 || now >= e.value.bannedUntil
  }

  /** An expired ban is forgotten the next time it is looked at. */
  function AfterAllowed(e: Option<Entry>, now: int): Option<Entry> {
    if e.Some? && e.value.bannedUntil != 0 && now >= e.value.bannedUntil then None else e
  }

  function AfterFailure(p: Policy, e: Option<Entry>, now: int): Entry {
    match e
    case None => Entry(1, now, 0)
    case Some(x) =>
      if now - x.firstFail > p.window then Entry(1, now, 0)
      else Entry(x.count + 1, x.firstFail, if x.count + 1 >= p.threshold then now + p.cooldown else x.bannedUntil)
  }

  class FailedAuthLimiter {
    const policy: Policy
    var entries: map<string, Entry>

    constructor (policy: Policy)
      ensures entries == map[] && this.policy == policy
    {
      this.policy := policy;
      entries := map[];
    }

    function EntryOf(ip: string): Option<Entry>
      reads this
    {
      if ip in entries then Some(entries[ip]) else None
    }

    method Allowed(ip: string, now: int) returns (ok: bool)
      modifies this`entries
      ensures ok == AllowedResult(old(EntryOf(ip)), now)
      ensures EntryOf(ip) == AfterAllowed(old(EntryOf(ip)), now)
      ensures entries - {ip} == old(entries) - {ip}
    {
      if ip !in entries {
        return true;
      }
      var e := entries[ip];
      if e.bannedUntil != 0 && now < e.bannedUntil {
        return false;
      }
      if e.bannedUntil != 0 && now >= e.bannedUntil {
        entries := entries - {ip};
        return true;
      }
      return true;
    }

    method RecordFailure(ip: string, now: int)
      modifies this`entries
      ensures EntryOf(ip) == Some(AfterFailure(policy, old(EntryOf(ip)), now))
      ensures entries - {ip} == old(entries) - {ip}
    {
      if ip !in entries {
        entries := entries[ip := Entry(1, now, 0)];
        return;
      }
      var e := entries[ip];
      if now - e.firstFail > policy.window {
        entries := entries[ip := Entry(1, now, 0)];
        return;
      }
      e := e.(count := e.count + 1);
      if e.count >= policy.threshold {
        e := e.(bannedUntil := now + policy.cooldown);
      }
      entries := entries[ip := e];
    }

    method RecordSuccess(ip: string)
      modifies this`entries
      ensures EntryOf(ip) == None && entries - {ip} == old(entries) - {ip}
    {
      entries := entries - {ip};
    }
  }

  // ---- runs of one IP ----

  /**
   The clock moves on; a look at the limiter, with a time that was read earlier, before its lock was
   taken; a request that was let in reads the clock, and later takes the lock to record its failure
   with the time it read; or it leaves with neither, for a malformed channel id, or succeeds.
   */
  datatype Event = Tick(now: int) | Check(stamp: int) | Read | Fail(index: nat) | Leave | Success

  /** For every failure so far the time it was recorded with, the start of its window and its place in the window. */
  datatype Failure = Failure(time: int, start: int, place: int)

  /** Requests that were let in are approved until they read the clock; then their stamp is on its way. */
  datatype Log = Log(clock: int, entry: Option<Entry>, approved: nat, stamps: seq<int>, failures: seq<Failure>)

  const START := Log(0, None, 0, [], [])

  function InFlight(log: Log): nat {
    log.approved + |log.stamps|
  }

  function Without(s: seq<int>, i: nat): seq<int>
    requires i < |s|
  {
    s[..i] + s[i + 1..]
  }

  function Step(p: Policy, log: Log, ev: Event): Log {
    match ev
    case Tick(now) => if now >= log.clock then log.(clock := now) else log
    case Check(s) =>
      if 0 <= s <= log.clock then
        var admitted := if AllowedResult(log.entry, s) then 1 else 0;
        log.(entry := AfterAllowed(log.entry, s), approved := log.approved + admitted)
      else log
    case Read =>
      if log.approved > 0 then log.(approved := log.approved - 1, stamps := log.stamps + [log.clock]) else log
    case Fail(i) =>
      if i < |log.stamps| then
        var e := AfterFailure(p, log.entry, log.stamps[i]);
        log.(entry := Some(e), stamps := Without(log.stamps, i),
             failures := log.failures + [Failure(log.stamps[i], e.firstFail, e.count)])
      else log
    case Leave => if log.approved > 0 then log.(approved := log.approved - 1) else log
    case Success => if log.approved > 0 then log.(approved := log.approved - 1, entry := None) else log
  }

  function Exec(p: Policy, evs: seq<Event>): Log {
    if evs == [] then START else Step(p, Exec(p, evs[..|evs| - 1]), evs[|evs| - 1])
  }

  /** At most c requests that were let in are on their way at any time. With c = 1 requests are serialised. */
  ghost predicate Legal(p: Policy, c: nat, evs: seq<Event>) {
    evs != [] ==> Legal(p, c, evs[..|evs| - 1]) && InFlight(Exec(p, evs)) <= c
  }

  /** Without a success of the address. */
  ghost predicate Failing(p: Policy, c: nat, evs: seq<Event>) {
    Legal(p, c, evs) && Success !in evs
  }

  ghost predicate Sensible(p: Policy) {
    p.threshold >= 2 && p.cooldown > p.window
  }

  lemma ExecAppend(p: Policy, evs: seq<Event>, ev: Event)
    ensures Exec(p, evs + [ev]) == Step(p, Exec(p, evs), ev)
  {
    assert (evs + [ev])[..|evs|] == evs;
  }

  lemma LegalAppend(p: Policy, c: nat, evs: seq<Event>, ev: Event)
    requires Legal(p, c, evs) && InFlight(Step(p, Exec(p, evs), ev)) <= c
    ensures Legal(p, c, evs + [ev]) && Exec(p, evs + [ev]) == Step(p, Exec(p, evs), ev)
  {
    assert (evs + [ev])[..|evs|] == evs;
  }

  // ---- what holds in every run ----

  /** Times are from the past, only a full count is a ban, and during a ban one place in flight is free. */
  ghost predicate Sane(p: Policy, c: nat, log: Log) {
    && log.clock >= 0 && InFlight(log) <= c
    && (forall i :: 0 <= i < |log.stamps| ==> 0 <= log.stamps[i] <= log.clock)
    && (forall i :: 0 <= i < |log.failures| ==> 0 <= log.failures[i].time <= log.clock)
    && (log.entry.Some? ==>
          var e := log.entry.value;
          && e.count >= 1 && 0 <= e.firstFail <= log.clock
          && (e.count < p.threshold ==> e.bannedUntil == 0)
          && (e.count >= p.threshold ==> e.bannedUntil >= p.cooldown && InFlight(log) < c))
  }

  lemma {:induction false} RunOk(p: Policy, c: nat, evs: seq<Event>)
    requires Sensible(p) && Legal(p, c, evs)
    ensures Sane(p, c, Exec(p, evs))
    decreases |evs|
  {
    if evs != [] {
      RunOk(p, c, evs[..|evs| - 1]);
      StepOk(p, c, Exec(p, evs[..|evs| - 1]), evs[|evs| - 1]);
    }
  }

  lemma StepOk(p: Policy, c: nat, log: Log, ev: Event)
    requires Sensible(p) && Sane(p, c, log) && InFlight(Step(p, log, ev)) <= c
    ensures Sane(p, c, Step(p, log, ev))
  {
  }

  /**
   A request is turned away exactly during a ban; one that comes when the ban is over finds it
   forgotten; and one that leaves without an outcome has changed nothing else.
   */
  lemma LetInIff(p: Policy, c: nat, log: Log, s: int)
    requires Sensible(p) && Sane(p, c, log) && 0 <= s <= log.clock
    ensures
      var log' := Step(p, log, Check(s));
      var banned := log.entry.Some? && log.entry.value.count >= p.threshold;
      && (banned && s < log.entry.value.bannedUntil ==> log' == log)
      && (banned && s >= log.entry.value.bannedUntil ==>
            log' == log.(entry := None, approved := log.approved + 1) && Step(p, log', Leave) == log.(entry := None))
      && (!banned ==> log' == log.(approved := log.approved + 1) && Step(p, log', Leave) == log)
  {
  }

  // ---- counting ----

  /** How many failures fall into the closed interval. */
  function CountIn(fs: seq<Failure>, lo: int, hi: int): nat {
    if fs == [] then 0 else
      CountIn(fs[..|fs| - 1], lo, hi) + if lo <= fs[|fs| - 1].time <= hi then 1 else 0
  }

  lemma CountAppend(fs: seq<Failure>, f: Failure, lo: int, hi: int)
    ensures CountIn(fs + [f], lo, hi) == CountIn(fs, lo, hi) + if lo <= f.time <= hi then 1 else 0
  {
    assert (fs + [f])[..|fs|] == fs;
  }

  /** The failures in the closed interval from lo that is as long as the window. */
  function FailuresFrom(p: Policy, evs: seq<Event>, lo: int): nat {
    CountIn(Exec(p, evs).failures, lo, lo + p.window)
  }

  /** How many stamps fall into the interval from lo up to but not including hi. */
  function StampsIn(s: seq<int>, lo: int, hi: int): (n: nat)
    ensures n <= |s|
  {
    if s == [] then 0 else (if lo <= s[0] < hi then 1 else 0) + StampsIn(s[1..], lo, hi)
  }

  lemma {:induction false} StampsConcat(a: seq<int>, b: seq<int>, lo: int, hi: int)
    ensures StampsIn(a + b, lo, hi) == StampsIn(a, lo, hi) + StampsIn(b, lo, hi)
  {
    if a == [] {
      assert a + b == b;
    } else {
      assert (a + b)[1..] == a[1..] + b;
      StampsConcat(a[1..], b, lo, hi);
    }
  }

  lemma StampsWithout(s: seq<int>, i: nat, lo: int, hi: int)
    requires i < |s|
    ensures StampsIn(Without(s, i), lo, hi) == StampsIn(s, lo, hi) - if lo <= s[i] < hi then 1 else 0
  {
    assert s == s[..i] + ([s[i]] + s[i + 1..]);
    StampsConcat(s[..i], [s[i]] + s[i + 1..], lo, hi);
    StampsConcat([s[i]], s[i + 1..], lo, hi);
    StampsConcat(s[..i], s[i + 1..], lo, hi);
    assert StampsIn([s[i]], lo, hi) == if lo <= s[i] < hi then 1 else 0;
  }

  lemma {:induction false} StampsSplit(s: seq<int>, lo: int, mid: int, hi: int)
    requires lo <= mid <= hi
    ensures StampsIn(s, lo, hi) == StampsIn(s, lo, mid) + StampsIn(s, mid, hi)
  {
    if s != [] {
      StampsSplit(s[1..], lo, mid, hi);
    }
  }

  lemma {:induction false} AllStampsIn(s: seq<int>, lo: int, hi: int)
    ensures (forall i :: 0 <= i < |s| ==> lo <= s[i] < hi) ==> StampsIn(s, lo, hi) == |s|
    ensures (forall i :: 0 <= i < |s| ==> !(lo <= s[i] < hi)) ==> StampsIn(s, lo, hi) == 0
  {
    if s != [] {
      AllStampsIn(s[1..], lo, hi);
    }
  }

  // ---- the bound ----

  /**
   The most failures of the interval that can come after its beginning with a fresh counter, when q
   requests still carry stamps from before it: a window up to the threshold with all free places
   in flight; then an old stamp shortens the ban, and a place more is free for the next window.
   */
  function Rounds(p: Policy, c: nat, q: int): int
    decreases q + 1
  {
    if q < 0 then 0 else Rounds(p, c, q - 1) + p.threshold + c - q - 1
  }

  /** The most failures that fit into a closed interval as long as the window, with c requests in flight. */
  function MostFailures(p: Policy, c: nat): int {
    Rounds(p, c, c - 1) + if p.window == 0 then 0 else p.threshold - 2
  }

  /** What can still come within the interval, by the entry, q stamps from before it and g other requests in flight. */
  function Room(p: Policy, c: nat, entry: Option<Entry>, q: int, g: int, lo: int): int {
    match entry
    case None => Rounds(p, c, q)
    case Some(e) =>
      if e.count < p.threshold then
        if e.firstFail >= lo then Rounds(p, c, q) - e.count
        else Rounds(p, c, q) + if p.window == 0 then 0 else p.threshold - 1 - e.count + c - q - 1
      else if e.firstFail >= lo then
        if e.bannedUntil <= lo + p.window then Rounds(p, c, q) else g + Rounds(p, c, q - 1)
      else
        Rounds(p, c, q) + if p.window == 0 || (e.bannedUntil <= lo + p.window && g == 0) then 0 else g - 1
  }

  /** With stamps from before the interval in all places nothing has come yet. */
  function RoomNow(p: Policy, c: nat, entry: Option<Entry>, q: int, g: int, lo: int): int {
    if q >= c then MostFailures(p, c) else Room(p, c, entry, q, g, lo)
  }

  /** The same for a log: nothing is known before the interval, and after it only stamps on their way count. */
  function Potential(p: Policy, c: nat, log: Log, lo: int): int {
    var q := StampsIn(log.stamps, 0, lo);
    if log.clock < lo then MostFailures(p, c)
    else if log.clock > lo + p.window then StampsIn(log.stamps, lo, lo + p.window + 1)
    else RoomNow(p, c, log.entry, q, InFlight(log) - q, lo)
  }

  lemma RoundsRise(p: Policy, c: nat, q: int)
    requires Sensible(p) && q < c
    ensures 0 <= q ==> Rounds(p, c, q) == Rounds(p, c, q - 1) + p.threshold + c - q - 1
    ensures Rounds(p, c, q) >= Rounds(p, c, q - 1) >= 0
    decreases q + 1
  {
    if q >= 0 {
      RoundsRise(p, c, q - 1);
    }
  }

  /** More old stamps leave more room, by more than the places they take. */
  lemma {:induction false} RoundsAdd(p: Policy, c: nat, q: int, r: int)
    requires Sensible(p) && 0 <= q <= r < c
    ensures Rounds(p, c, q) + (r - q) * 2 <= Rounds(p, c, r)
    decreases r - q
  {
    if q < r {
      RoundsAdd(p, c, q, r - 1);
    }
  }

  ghost predicate EntryOk(p: Policy, entry: Option<Entry>) {
    entry.Some? ==>
      && entry.value.count >= 1
      && (entry.value.count < p.threshold ==> entry.value.bannedUntil == 0)
      && (entry.value.count >= p.threshold ==> entry.value.bannedUntil > 0)
  }

  /** A failure with a stamp from before the interval. */
  lemma OldFailure(p: Policy, c: nat, entry: Option<Entry>, q: int, g: int, lo: int, s: int)
    requires Sensible(p) && EntryOk(p, entry) && 1 <= q && 0 <= g && q + g <= c && 0 <= s < lo
    requires entry.Some? && entry.value.count >= p.threshold ==> q + g < c
    ensures RoomNow(p, c, Some(AfterFailure(p, entry, s)), q - 1, g, lo) <= RoomNow(p, c, entry, q, g, lo)
  {
    RoundsRise(p, c, q - 1);
    if q < c {
      RoundsRise(p, c, q);
    }
    if q >= 2 {
      RoundsRise(p, c, q - 2);
    }
  }

  /** A failure with a stamp from the interval. */
  lemma NewFailure(p: Policy, c: nat, entry: Option<Entry>, q: int, g: int, lo: int, s: int)
    requires Sensible(p) && EntryOk(p, entry) && 0 <= q < c && 1 <= g && q + g <= c && lo <= s <= lo + p.window
    requires entry.Some? && entry.value.count >= p.threshold ==> q + g < c
    ensures Room(p, c, Some(AfterFailure(p, entry, s)), q, g - 1, lo) + 1 <= Room(p, c, entry, q, g, lo)
  {
    RoundsRise(p, c, q);
  }

  /** Whoever is in flight has room. */
  lemma RoomForAll(p: Policy, c: nat, entry: Option<Entry>, q: int, g: int, lo: int)
    requires Sensible(p) && EntryOk(p, entry) && 0 <= q < c && 0 <= g && q + g <= c
    ensures Room(p, c, entry, q, g, lo) >= g
  {
    RoundsRise(p, c, q);
  }

  /** At the beginning of the interval there is no more room than the bound. */
  lemma RoomAtStart(p: Policy, c: nat, entry: Option<Entry>, q: int, g: int, lo: int)
    requires Sensible(p) && EntryOk(p, entry) && 0 <= q < c && 0 <= g && q + g <= c
    requires entry.Some? ==> entry.value.firstFail < lo
    requires entry.Some? && entry.value.count >= p.threshold ==> q + g < c
    ensures Room(p, c, entry, q, g, lo) <= MostFailures(p, c)
  {
    RoundsAdd(p, c, q, c - 1);
  }

  lemma MostIsPositive(p: Policy, c: nat)
    requires Sensible(p) && c >= 1
    ensures MostFailures(p, c) >= 0
  {
    RoundsRise(p, c, c - 1);
  }

  /** The requests in flight are the old stamps, those of the interval, and others. */
  lemma FlightParts(p: Policy, c: nat, log: Log, lo: int)
    requires Sane(p, c, log) && lo >= 0 && lo <= log.clock <= lo + p.window
    ensures
      var old', new' := StampsIn(log.stamps, 0, lo), StampsIn(log.stamps, lo, lo + p.window + 1);
      old' + new' == |log.stamps|
  {
    AllStampsIn(log.stamps, 0, lo + p.window + 1);
    StampsSplit(log.stamps, 0, lo, lo + p.window + 1);
  }

  lemma TickStep(p: Policy, c: nat, log: Log, now: int, lo: int)
    requires Sensible(p) && c >= 1 && Sane(p, c, log) && lo >= 0
    ensures Potential(p, c, Step(p, log, Tick(now)), lo) <= Potential(p, c, log, lo)
  {
    var q := StampsIn(log.stamps, 0, lo);
    MostIsPositive(p, c);
    if log.clock < lo {
      AllStampsIn(log.stamps, 0, lo);
      AllStampsIn(log.stamps, lo, lo + p.window + 1);
      if q < c {
        RoomAtStart(p, c, log.entry, q, InFlight(log) - q, lo);
      }
    } else if log.clock <= lo + p.window {
      FlightParts(p, c, log, lo);
      if q < c {
        RoomForAll(p, c, log.entry, q, InFlight(log) - q, lo);
      }
    }
  }

  lemma CheckStep(p: Policy, c: nat, log: Log, s: int, lo: int)
    requires Sensible(p) && c >= 1 && Sane(p, c, log) && InFlight(Step(p, log, Check(s))) <= c
    ensures Potential(p, c, Step(p, log, Check(s)), lo) <= Potential(p, c, log, lo)
  {
  }

  lemma ReadStep(p: Policy, c: nat, log: Log, lo: int)
    requires Sane(p, c, log) && lo >= 0
    ensures Potential(p, c, Step(p, log, Read), lo) <= Potential(p, c, log, lo)
  {
    if log.approved > 0 {
      StampsConcat(log.stamps, [log.clock], 0, lo);
      StampsConcat(log.stamps, [log.clock], lo, lo + p.window + 1);
      assert [log.clock][1..] == [];
    }
  }

  lemma LeaveStep(p: Policy, c: nat, log: Log, lo: int)
    requires Sane(p, c, log)
    ensures Potential(p, c, Step(p, log, Leave), lo) <= Potential(p, c, log, lo)
  {
  }

  lemma FailStep(p: Policy, c: nat, log: Log, i: nat, lo: int)
    requires Sensible(p) && c >= 1 && Sane(p, c, log) && lo >= 0 && i < |log.stamps|
    ensures Potential(p, c, Step(p, log, Fail(i)), lo) + (if lo <= log.stamps[i] <= lo + p.window then 1 else 0)
            <= Potential(p, c, log, lo)
  {
    if lo <= log.clock <= lo + p.window {
      FailWithin(p, c, log, i, lo);
    } else {
      StampsWithout(log.stamps, i, lo, lo + p.window + 1);
    }
  }

  lemma FailWithin(p: Policy, c: nat, log: Log, i: nat, lo: int)
    requires Sensible(p) && c >= 1 && Sane(p, c, log) && lo >= 0 && i < |log.stamps|
    requires lo <= log.clock <= lo + p.window
    ensures Potential(p, c, Step(p, log, Fail(i)), lo) + (if lo <= log.stamps[i] <= lo + p.window then 1 else 0)
            <= Potential(p, c, log, lo)
  {
    StampsWithout(log.stamps, i, 0, lo);
    if log.stamps[i] < lo {
      OldWithin(p, c, log, i, lo);
    } else {
      NewWithin(p, c, log, i, lo);
    }
  }

  lemma OldWithin(p: Policy, c: nat, log: Log, i: nat, lo: int)
    requires Sensible(p) && c >= 1 && Sane(p, c, log) && i < |log.stamps|
    requires lo <= log.clock <= lo + p.window && log.stamps[i] < lo
    requires StampsIn(Without(log.stamps, i), 0, lo) == StampsIn(log.stamps, 0, lo) - 1
    ensures Potential(p, c, Step(p, log, Fail(i)), lo) <= Potential(p, c, log, lo)
  {
    var q := StampsIn(log.stamps, 0, lo);
    OldFailure(p, c, log.entry, q, InFlight(log) - q, lo, log.stamps[i]);
  }

  lemma NewWithin(p: Policy, c: nat, log: Log, i: nat, lo: int)
    requires Sensible(p) && c >= 1 && Sane(p, c, log) && lo >= 0 && i < |log.stamps|
    requires lo <= log.clock <= lo + p.window && lo <= log.stamps[i]
    requires StampsIn(Without(log.stamps, i), 0, lo) == StampsIn(log.stamps, 0, lo)
    ensures Potential(p, c, Step(p, log, Fail(i)), lo) + 1 <= Potential(p, c, log, lo)
  {
    var q := StampsIn(log.stamps, 0, lo);
    FlightParts(p, c, log, lo);
    StampsWithout(log.stamps, i, lo, lo + p.window + 1);
    NewFailure(p, c, log.entry, q, InFlight(log) - q, lo, log.stamps[i]);
  }

  /** Counted failures and room together never grow. */
  lemma PotentialStep(p: Policy, c: nat, log: Log, ev: Event, lo: int)
    requires Sensible(p) && c >= 1 && Sane(p, c, log) && lo >= 0 && ev != Success && InFlight(Step(p, log, ev)) <= c
    ensures
      var log' := Step(p, log, ev);
      CountIn(log'.failures, lo, lo + p.window) + Potential(p, c, log', lo)
      <= CountIn(log.failures, lo, lo + p.window) + Potential(p, c, log, lo)
  {
    match ev
    case Tick(now) => TickStep(p, c, log, now, lo);
    case Check(s) => CheckStep(p, c, log, s, lo);
    case Read => ReadStep(p, c, log, lo);
    case Leave => LeaveStep(p, c, log, lo);
    case Fail(i) =>
      if i < |log.stamps| {
        FailStep(p, c, log, i, lo);
        var e := AfterFailure(p, log.entry, log.stamps[i]);
        CountAppend(log.failures, Failure(log.stamps[i], e.firstFail, e.count), lo, lo + p.window);
      }
  }

  lemma {:induction false} CountAndRoom(p: Policy, c: nat, evs: seq<Event>, lo: int)
    requires Sensible(p) && c >= 1 && Failing(p, c, evs) && lo >= 0
    ensures FailuresFrom(p, evs, lo) + Potential(p, c, Exec(p, evs), lo) <= MostFailures(p, c)
    decreases |evs|
  {
    if evs == [] {
      RoomAtStart(p, c, None, 0, 0, lo);
    } else {
      var before, ev := evs[..|evs| - 1], evs[|evs| - 1];
      assert ev in evs && forall e :: e in before ==> e in evs;
      CountAndRoom(p, c, before, lo);
      RunOk(p, c, before);
      PotentialStep(p, c, Exec(p, before), ev, lo);
    }
  }

  /** Any closed interval as long as the window holds at most MostFailures recorded failures. */
  lemma FailureBound(p: Policy, c: nat, evs: seq<Event>, lo: int)
    requires Sensible(p) && c >= 1 && Failing(p, c, evs)
    ensures FailuresFrom(p, evs, lo) <= MostFailures(p, c)
  {
    RunOk(p, c, evs);
    var from := if lo < 0 then 0 else lo;
    CountAndRoom(p, c, evs, from);
    PotentialIsPositive(p, c, Exec(p, evs), from);
    CountWider(Exec(p, evs).failures, lo, lo + p.window, from, from + p.window);
  }

  lemma {:induction false} CountWider(fs: seq<Failure>, lo: int, hi: int, from: int, to: int)
    requires forall i :: 0 <= i < |fs| ==> lo <= fs[i].time <= hi ==> from <= fs[i].time <= to
    ensures CountIn(fs, lo, hi) <= CountIn(fs, from, to)
  {
    if fs != [] {
      CountWider(fs[..|fs| - 1], lo, hi, from, to);
    }
  }

  lemma PotentialIsPositive(p: Policy, c: nat, log: Log, lo: int)
    requires Sensible(p) && c >= 1 && Sane(p, c, log)
    ensures Potential(p, c, log, lo) >= 0
  {
    MostIsPositive(p, c);
    var q := StampsIn(log.stamps, 0, lo);
    if q < c {
      RoomForAll(p, c, log.entry, q, InFlight(log) - q, lo);
    }
  }

  // ---- the bound is attained ----

  function Zeros(q: nat): (s: seq<int>)
    ensures |s| == q && forall i :: 0 <= i < q ==> s[i] == 0
  {
    seq(q, _ => 0)
  }

  /** Some run with at most c requests in flight comes to this. */
  ghost predicate Reached(p: Policy, c: nat, log: Log) {
    exists evs :: Failing(p, c, evs) && Exec(p, evs) == log
  }

  lemma Extended(p: Policy, c: nat, log: Log, ev: Event)
    requires Reached(p, c, log) && ev != Success && InFlight(Step(p, log, ev)) <= c
    ensures Reached(p, c, Step(p, log, ev))
  {
    var evs :| Failing(p, c, evs) && Exec(p, evs) == log;
    LegalAppend(p, c, evs, ev);
    assert Failing(p, c, evs + [ev]);
  }

  /** It is t, q stamps of time 0 are on their way, and a more requests have been let in. */
  ghost predicate At(log: Log, t: int, q: nat, a: nat) {
    log.clock == t && log.approved == a && log.stamps == Zeros(q)
  }

  /** n more failures, all at time t. */
  ghost predicate Adds(p: Policy, log: Log, log': Log, n: int, t: int, lo: int) {
    CountIn(log'.failures, lo, lo + p.window) ==
      CountIn(log.failures, lo, lo + p.window) + if lo <= t <= lo + p.window then n else 0
  }

  lemma Later(p: Policy, c: nat, log: Log, t: int)
    requires Reached(p, c, log) && log.clock <= t && InFlight(log) <= c
    ensures Reached(p, c, log.(clock := t))
  {
    Extended(p, c, log, Tick(t));
  }

  /** Requests that come in together are all let in while there is no ban. */
  lemma {:induction false} Checks(p: Policy, c: nat, log: Log, n: nat)
    requires Reached(p, c, log) && log.clock >= 0 && InFlight(log) + n <= c
    requires log.entry.Some? ==> log.entry.value.bannedUntil == 0
    ensures Reached(p, c, log.(approved := log.approved + n))
    decreases n
  {
    if n > 0 {
      Checks(p, c, log, n - 1);
      Extended(p, c, log.(approved := log.approved + n - 1), Check(log.clock));
    }
  }

  /** One that was let in reads the clock and records its failure at once. */
  lemma FailOne(p: Policy, c: nat, log: Log, t: int, q: nat, a: nat, lo: int) returns (log': Log)
    requires Reached(p, c, log) && At(log, t, q, a) && a >= 1 && q + a <= c
    ensures Reached(p, c, log') && At(log', t, q, a - 1) && Adds(p, log, log', 1, t, lo)
    ensures log'.entry == Some(AfterFailure(p, log.entry, t))
  {
    Extended(p, c, log, Read);
    assert Without(Zeros(q) + [t], q) == Zeros(q);
    var mid := Step(p, log, Read);
    Extended(p, c, mid, Fail(q));
    log' := Step(p, mid, Fail(q));
    var e := AfterFailure(p, log.entry, t);
    CountAppend(log.failures, Failure(t, e.firstFail, e.count), lo, lo + p.window);
  }

  /** Failures of requests that came in together, past the threshold as well. */
  lemma {:induction false} Fails(p: Policy, c: nat, log: Log, t: int, q: nat, a: nat, n: nat, k: int, s: int, lo: int)
    returns (log': Log)
    requires Reached(p, c, log) && At(log, t, q, a) && q + a <= c && n <= a && s <= t <= s + p.window
    requires log.entry == Some(Entry(k, s, 0)) && k < p.threshold
    ensures Reached(p, c, log') && At(log', t, q, a - n) && Adds(p, log, log', n, t, lo)
    ensures log'.entry == Some(Entry(k + n, s, if k + n >= p.threshold then t + p.cooldown else 0))
    decreases n
  {
    if n == 0 {
      log' := log;
    } else {
      var mid := Fails(p, c, log, t, q, a, n - 1, k, s, lo);
      log' := FailOne(p, c, mid, t, q, a - (n - 1), lo);
    }
  }

  /** One request that is let in and fails. */
  lemma Attempt(p: Policy, c: nat, log: Log, t: int, q: nat, lo: int) returns (log': Log)
    requires Reached(p, c, log) && At(log, t, q, 0) && q < c && t >= 0 && AllowedResult(log.entry, t)
    ensures Reached(p, c, log') && At(log', t, q, 0) && Adds(p, log, log', 1, t, lo)
    ensures log'.entry == Some(AfterFailure(p, AfterAllowed(log.entry, t), t))
  {
    Extended(p, c, log, Check(t));
    log' := FailOne(p, c, Step(p, log, Check(t)), t, q, 1, lo);
  }

  /** One after the other, short of the threshold. */
  lemma {:induction false} Attempts(p: Policy, c: nat, log: Log, t: int, q: nat, n: nat, k: int, s: int, lo: int)
    returns (log': Log)
    requires Reached(p, c, log) && At(log, t, q, 0) && q < c && 0 <= t && s <= t <= s + p.window
    requires log.entry == Some(Entry(k, s, 0)) && k + n < p.threshold
    ensures Reached(p, c, log') && At(log', t, q, 0) && Adds(p, log, log', n, t, lo)
    ensures log'.entry == Some(Entry(k + n, s, 0))
    decreases n
  {
    if n == 0 {
      log' := log;
    } else {
      var mid := Attempts(p, c, log, t, q, n - 1, k, s, lo);
      log' := Attempt(p, c, mid, t, q, lo);
    }
  }

  /** A request at time t opens a new window. */
  ghost predicate Opens(p: Policy, log: Log, t: int) {
    AllowedResult(log.entry, t) && AfterFailure(p, AfterAllowed(log.entry, t), t) == Entry(1, t, 0)
  }

  /** One failure short of the threshold. */
  lemma ShortOfTheBan(p: Policy, c: nat, log: Log, t: int, q: nat, lo: int) returns (log': Log)
    requires Sensible(p) && Reached(p, c, log) && At(log, t, q, 0) && q < c && t >= 0 && Opens(p, log, t)
    ensures Reached(p, c, log') && At(log', t, q, 0) && Adds(p, log, log', p.threshold - 1, t, lo)
    ensures log'.entry == Some(Entry(p.threshold - 1, t, 0))
  {
    var first := Attempt(p, c, log, t, q, lo);
    log' := Attempts(p, c, first, t, q, p.threshold - 2, 1, t, lo);
  }

  /** All free places are taken then, and n of the requests fail. */
  lemma Together(p: Policy, c: nat, log: Log, t: int, q: nat, n: nat, s: int, lo: int) returns (log': Log)
    requires Reached(p, c, log) && At(log, t, q, 0) && 1 <= n <= c - q && t >= 0 && s <= t <= s + p.window
    requires log.entry == Some(Entry(p.threshold - 1, s, 0))
    ensures Reached(p, c, log') && At(log', t, q, c - q - n) && Adds(p, log, log', n, t, lo)
    ensures log'.entry == Some(Entry(p.threshold - 1 + n, s, t + p.cooldown))
  {
    Checks(p, c, log, c - q);
    log' := Fails(p, c, log.(approved := c - q), t, q, c - q, n, p.threshold - 1, s, lo);
  }

  /** A whole window at one time: up to the threshold, with all free places in flight at the ban. */
  lemma FillWindow(p: Policy, c: nat, log: Log, t: int, q: nat, lo: int) returns (log': Log)
    requires Sensible(p) && Reached(p, c, log) && At(log, t, q, 0) && q < c && t >= 0 && Opens(p, log, t)
    ensures Reached(p, c, log') && At(log', t, q, 0) && Adds(p, log, log', p.threshold + c - q - 1, t, lo)
    ensures log'.entry == Some(Entry(p.threshold - 1 + c - q, t, t + p.cooldown))
  {
    var tried := ShortOfTheBan(p, c, log, t, q, lo);
    log' := Together(p, c, tried, t, q, c - q, t, lo);
  }

  /** The failure of an old stamp shortens a ban, which is over then. */
  lemma OldStampShortensTheBan(p: Policy, c: nat, log: Log, t: int, q: nat, k: int, lo: int) returns (log': Log)
    requires Sensible(p) && Reached(p, c, log) && At(log, t, q, 0) && 1 <= q < c && t >= p.cooldown && lo > 0
    requires log.entry == Some(Entry(k, t, t + p.cooldown)) && k >= p.threshold
    ensures Reached(p, c, log') && At(log', t, q - 1, 0) && Opens(p, log', t)
    ensures CountIn(log'.failures, lo, lo + p.window) == CountIn(log.failures, lo, lo + p.window)
  {
    assert Without(Zeros(q), 0) == Zeros(q - 1);
    Extended(p, c, log, Fail(0));
    log' := Step(p, log, Fail(0));
    CountAppend(log.failures, Failure(0, t, k + 1), lo, lo + p.window);
  }

  /** Window after window, each with a place more. */
  lemma {:induction false} FillWindows(p: Policy, c: nat, log: Log, t: int, q: nat, lo: int) returns (log': Log)
    requires Sensible(p) && Reached(p, c, log) && At(log, t, q, 0) && q < c && t >= p.cooldown && lo > 0
    requires Opens(p, log, t)
    ensures Reached(p, c, log') && Adds(p, log, log', Rounds(p, c, q), t, lo)
    decreases q
  {
    assert Rounds(p, c, q) == Rounds(p, c, q - 1) + p.threshold + c - q - 1;
    var filled := FillWindow(p, c, log, t, q, lo);
    if q == 0 {
      log' := filled;
    } else {
      var next := OldStampShortensTheBan(p, c, filled, t, q, p.threshold - 1 + c - q, lo);
      log' := FillWindows(p, c, next, t, q - 1, lo);
    }
  }

  /** c − 1 requests that read the clock at 0 and then wait. */
  lemma {:induction false} SlowRequests(p: Policy, c: nat, q: nat)
    requires q <= c
    ensures Reached(p, c, Log(0, None, 0, Zeros(q), []))
    decreases q
  {
    if q == 0 {
      assert Failing(p, c, []) && Exec(p, []) == START && Zeros(0) == [];
    } else {
      SlowRequests(p, c, q - 1);
      var log := Log(0, None, 0, Zeros(q - 1), []);
      Extended(p, c, log, Check(0));
      Extended(p, c, log.(approved := 1), Read);
      assert Zeros(q - 1) + [0] == Zeros(q);
    }
  }

  /** A window that began before the interval, one failure short of the threshold within it. */
  lemma OldWindow(p: Policy, c: nat) returns (log: Log)
    requires Sensible(p) && c >= 1 && p.window >= 1
    ensures Reached(p, c, log) && At(log, p.cooldown, c - 1, 0)
    ensures log.entry == Some(Entry(p.threshold - 1, p.cooldown - 1, 0))
    ensures CountIn(log.failures, p.cooldown, p.cooldown + p.window) == p.threshold - 2
  {
    var lo := p.cooldown;
    var first := OldFirst(p, c);
    log := Attempts(p, c, first, lo, c - 1, p.threshold - 2, 1, lo - 1, lo);
  }

  lemma OldFirst(p: Policy, c: nat) returns (log: Log)
    requires Sensible(p) && c >= 1
    ensures Reached(p, c, log) && At(log, p.cooldown, c - 1, 0) && log.entry == Some(Entry(1, p.cooldown - 1, 0))
    ensures CountIn(log.failures, p.cooldown, p.cooldown + p.window) == 0
  {
    var lo := p.cooldown;
    SlowRequests(p, c, c - 1);
    Later(p, c, Log(0, None, 0, Zeros(c - 1), []), lo - 1);
    var first := Attempt(p, c, Log(lo - 1, None, 0, Zeros(c - 1), []), lo - 1, c - 1, lo);
    Later(p, c, first, lo);
    log := first.(clock := lo);
  }

  lemma WorstLog(p: Policy, c: nat) returns (log: Log)
    requires Sensible(p) && c >= 1
    ensures Reached(p, c, log) && CountIn(log.failures, p.cooldown, p.cooldown + p.window) == MostFailures(p, c)
  {
    var lo := p.cooldown;
    if p.window == 0 {
      SlowRequests(p, c, c - 1);
      Later(p, c, Log(0, None, 0, Zeros(c - 1), []), lo);
      log := FillWindows(p, c, Log(lo, None, 0, Zeros(c - 1), []), lo, c - 1, lo);
    } else {
      var old' := OldWindow(p, c);
      Later(p, c, old', lo + p.window);
      log := FillWindows(p, c, old'.(clock := lo + p.window), lo + p.window, c - 1, lo);
    }
  }

  /** For every policy and number of requests in flight a run attains the bound. */
  lemma BoundIsTight(p: Policy, c: nat)
    requires Sensible(p) && c >= 1
    ensures exists evs :: Failing(p, c, evs) && FailuresFrom(p, evs, p.cooldown) == MostFailures(p, c)
  {
    var log := WorstLog(p, c);
    var evs :| Failing(p, c, evs) && Exec(p, evs) == log;
    assert FailuresFrom(p, evs, p.cooldown) == MostFailures(p, c);
  }

  // ---- when the limiter keeps to a given number ----

  /** The bound in closed form. */
  lemma {:induction false} RoundsClosed(p: Policy, c: nat, q: int)
    requires -1 <= q < c
    ensures 2 * Rounds(p, c, q) == (q + 1) * (2 * (p.threshold + c - 1) - q)
    decreases q + 1
  {
    if q >= 0 {
      RoundsClosed(p, c, q - 1);
      var b := 2 * (p.threshold + c - 1);
      assert (q + 1) * (b - q) == q * (b - (q - 1)) + b - 2 * q;
    }
  }

  lemma MostFailuresIs(p: Policy, c: nat)
    requires c >= 1
    ensures 2 * MostFailures(p, c) ==
              c * (2 * p.threshold + c - 1) + if p.window == 0 then 0 else 2 * (p.threshold - 2)
  {
    RoundsClosed(p, c, c - 1);
    assert 2 * (p.threshold + c - 1) - (c - 1) == 2 * p.threshold + c - 1;
  }

  /** No run with at most c requests in flight has more than n failures in an interval as long as the window. */
  ghost predicate NeverMoreThan(p: Policy, c: nat, n: int) {
    forall evs, lo :: Failing(p, c, evs) ==> FailuresFrom(p, evs, lo) <= n
  }

  lemma NeverMoreThanIff(p: Policy, c: nat, n: int)
    requires Sensible(p) && c >= 1
    ensures NeverMoreThan(p, c, n) <==> MostFailures(p, c) <= n
  {
    BoundIsTight(p, c);
    var worst :| Failing(p, c, worst) && FailuresFrom(p, worst, p.cooldown) == MostFailures(p, c);
    if MostFailures(p, c) <= n {
      forall evs, lo | Failing(p, c, evs) ensures FailuresFrom(p, evs, lo) <= n {
        FailureBound(p, c, evs, lo);
      }
    }
  }

  lemma MostWhenSerial(p: Policy)
    requires Sensible(p)
    ensures MostFailures(p, 1) == p.threshold + if p.window == 0 then 0 else p.threshold - 2
  {
    assert Rounds(p, 1, -1) == 0;
  }

  lemma {:induction false} MoreInFlightMore(p: Policy, c: nat)
    requires Sensible(p) && c >= 2
    ensures MostFailures(p, c) > MostFailures(p, 1) + p.threshold
  {
    MostWhenSerial(p);
    RoundsRise(p, c, c - 1);
    RoundsRise(p, c, c - 2);
    RoundsRise(p, c, c - 3);
  }

  /** Whenever two requests may be in flight, a run exceeds what serialised requests can reach. */
  lemma OverlappingRequestsExceedTheBound(p: Policy, c: nat)
    requires Sensible(p) && c >= 2
    ensures exists evs :: Failing(p, c, evs) && FailuresFrom(p, evs, p.cooldown) > MostFailures(p, 1) + p.threshold
  {
    MoreInFlightMore(p, c);
    BoundIsTight(p, c);
  }

  /** The bound of serialised requests holds exactly when they are serialised. */
  lemma SerialBoundIff(p: Policy, c: nat)
    requires Sensible(p) && c >= 1
    ensures NeverMoreThan(p, c, MostFailures(p, 1)) <==> c == 1
    ensures MostFailures(p, 1) == if p.window == 0 then p.threshold else 2 * p.threshold - 2
  {
    MostWhenSerial(p);
    NeverMoreThanIff(p, c, MostFailures(p, 1));
    if c >= 2 {
      MoreInFlightMore(p, c);
    }
  }

  /**
   "Threshold within Window" is what it says only for serialised requests and a threshold of two,
   or an empty window.
   */
  lemma ThresholdIff(p: Policy, c: nat)
    requires Sensible(p) && c >= 1
    ensures NeverMoreThan(p, c, p.threshold) <==> c == 1 && (p.threshold == 2 || p.window == 0)
  {
    MostWhenSerial(p);
    NeverMoreThanIff(p, c, p.threshold);
    if c >= 2 {
      MoreInFlightMore(p, c);
    }
  }

  /** A failure and then a success, with nobody else in flight, leave nothing but the failure. */
  lemma FailureThenSuccess(p: Policy, c: nat, evs: seq<Event>) returns (evs': seq<Event>)
    requires Sensible(p) && c >= 1 && Legal(p, c, evs)
    requires Exec(p, evs) == START.(failures := Exec(p, evs).failures)
    ensures Legal(p, c, evs')
    ensures Exec(p, evs') == START.(failures := Exec(p, evs).failures + [Failure(0, 0, 1)])
  {
    LegalAppend(p, c, evs, Check(0));
    LegalAppend(p, c, evs + [Check(0)], Read);
    var failing := evs + [Check(0)] + [Read];
    LegalAppend(p, c, failing, Fail(0));
    LegalAppend(p, c, failing + [Fail(0)], Check(0));
    evs' := failing + [Fail(0)] + [Check(0)] + [Success];
    LegalAppend(p, c, failing + [Fail(0)] + [Check(0)], Success);
  }

  /** Successes of the same address in between remove the bound altogether. */
  lemma {:induction false} NoBoundWithSuccesses(p: Policy, c: nat, n: nat)
    requires Sensible(p) && c >= 1
    ensures exists evs :: Legal(p, c, evs) && FailuresFrom(p, evs, 0) == n
                          && Exec(p, evs) == START.(failures := Exec(p, evs).failures)
  {
    if n == 0 {
      assert Legal(p, c, []) && FailuresFrom(p, [], 0) == 0;
    } else {
      NoBoundWithSuccesses(p, c, n - 1);
      var evs :| Legal(p, c, evs) && FailuresFrom(p, evs, 0) == n - 1
                 && Exec(p, evs) == START.(failures := Exec(p, evs).failures);
      var evs' := FailureThenSuccess(p, c, evs);
      CountAppend(Exec(p, evs).failures, Failure(0, 0, 1), 0, p.window);
      assert FailuresFrom(p, evs', 0) == n;
    }
  }

  // ---- the windows of serialised requests ----

  /** How a failure continues the one before it. */
  predicate Follows(p: Policy, f: Failure, g: Failure) {
    && f.time <= g.time
    && if g.start == f.start then g.place == f.place + 1
       else g.start == g.time && g.place == 1 && g.start > f.start + p.window
            && (f.place == p.threshold ==> g.time >= f.time + p.cooldown)
  }

  predicate InWindow(p: Policy, f: Failure) {
    && f.start <= f.time <= f.start + p.window && 1 <= f.place <= p.threshold
    && (f.place == 1 ==> f.time == f.start)
  }

  ghost predicate WellLogged(p: Policy, fs: seq<Failure>) {
    && (forall i :: 0 <= i < |fs| ==> InWindow(p, fs[i]))
    && (forall i, j :: 0 <= i && j == i + 1 && j < |fs| ==> Follows(p, fs[i], fs[j]))
  }

  /** The entry that the last failure left, unless a check has since forgotten it; and a stamp on its way is later. */
  ghost predicate EntryMatches(p: Policy, log: Log) {
    if log.failures == [] then log.entry == None
    else
      var f := log.failures[|log.failures| - 1];
      && (forall i :: 0 <= i < |log.stamps| ==> log.stamps[i] >= f.time)
      && match log.entry
         case None =>
           f.place == p.threshold && log.clock >= f.time + p.cooldown
           && forall i :: 0 <= i < |log.stamps| ==> log.stamps[i] >= f.time + p.cooldown
         case Some(e) =>
           e == Entry(f.place, f.start, if f.place == p.threshold then f.time + p.cooldown else 0)
  }

  ghost predicate SerialOk(p: Policy, log: Log) {
    Sane(p, 1, log) && EntryMatches(p, log) && WellLogged(p, log.failures)
  }

  lemma SerialFailOk(p: Policy, log: Log)
    requires Sensible(p) && SerialOk(p, log) && |log.stamps| == 1
    ensures
      var log' := Step(p, log, Fail(0));
      && EntryMatches(p, log') && WellLogged(p, log'.failures)
  {
    var log' := Step(p, log, Fail(0));
    var n := |log.failures|;
    var g := log'.failures[n];
    if n > 0 {
      assert InWindow(p, log.failures[n - 1]);
      assert Follows(p, log.failures[n - 1], g);
    }
    assert InWindow(p, g);
    forall i, j | 0 <= i && j == i + 1 && j < |log'.failures| ensures Follows(p, log'.failures[i], log'.failures[j]) {
      if j < n {
        assert Follows(p, log.failures[i], log.failures[j]);
      }
    }
  }

  lemma SerialOtherOk(p: Policy, log: Log, ev: Event)
    requires Sensible(p) && SerialOk(p, log) && !ev.Fail? && ev != Success && InFlight(Step(p, log, ev)) <= 1
    ensures EntryMatches(p, Step(p, log, ev)) && Step(p, log, ev).failures == log.failures
  {
    if log.failures != [] {
      assert InWindow(p, log.failures[|log.failures| - 1]);
    }
  }

  lemma {:induction false} SerialRunOk(p: Policy, evs: seq<Event>)
    requires Sensible(p) && Failing(p, 1, evs)
    ensures SerialOk(p, Exec(p, evs))
    decreases |evs|
  {
    RunOk(p, 1, evs);
    if evs != [] {
      var before, ev := evs[..|evs| - 1], evs[|evs| - 1];
      assert ev in evs && forall e :: e in before ==> e in evs;
      SerialRunOk(p, before);
      var log := Exec(p, before);
      if ev.Fail? {
        if ev.index < |log.stamps| {
          SerialFailOk(p, log);
        }
      } else {
        SerialOtherOk(p, log, ev);
      }
    }
  }

  /** Failures of one window are numbered without a gap. */
  lemma {:induction false} SameWindow(p: Policy, fs: seq<Failure>, a: nat, b: nat)
    requires a <= b < |fs| && WellLogged(p, fs)
    ensures fs[a].time <= fs[b].time && fs[a].start <= fs[b].start
    ensures fs[a].start == fs[b].start ==> fs[b].place == fs[a].place + (b - a)
    ensures fs[a].start != fs[b].start ==> fs[b].start > fs[a].start + p.window
    decreases b - a
  {
    if a < b {
      SameWindow(p, fs, a, b - 1);
      assert Follows(p, fs[b - 1], fs[b]);
    }
  }

  /** The first failure of the window that fs[b] belongs to, if that window starts after fs[a]. */
  lemma {:induction false} WindowStart(p: Policy, fs: seq<Failure>, a: nat, b: nat) returns (m: nat)
    requires a < b < |fs| && WellLogged(p, fs) && fs[a].start != fs[b].start
    ensures a < m <= b && fs[m].start == fs[b].start && fs[m].place == 1 && fs[m].time == fs[m].start
    ensures fs[m - 1].start != fs[m].start
    decreases b - a
  {
    assert Follows(p, fs[b - 1], fs[b]);
    if fs[b - 1].start != fs[b].start {
      m := b;
    } else {
      m := WindowStart(p, fs, a, b - 1);
    }
  }

  /**
   Failures a to b within a window length of each other belong to one window, or to the end of one
   and the beginning of the next; either way their places say how many they are.
   */
  lemma PlacesCount(p: Policy, fs: seq<Failure>, a: nat, b: nat) returns (m: nat)
    requires WellLogged(p, fs) && a <= b < |fs| && fs[b].time - fs[a].time <= p.window
    ensures fs[a].start == fs[b].start ==> b - a + 1 == fs[b].place - fs[a].place + 1
    ensures fs[a].start != fs[b].start ==>
              && a < m <= b && fs[m - 1].start == fs[a].start && fs[m].start == fs[b].start
              && fs[a].place >= 2 && fs[m].place == 1
              && b - a + 1 == (fs[m - 1].place - fs[a].place + 1) + fs[b].place
  {
    m := b;
    SameWindow(p, fs, a, b);
    if fs[a].start != fs[b].start {
      m := WindowStart(p, fs, a, b);
      SameWindow(p, fs, a, m - 1);
      SameWindow(p, fs, m - 1, m);
      SameWindow(p, fs, m, b);
      assert InWindow(p, fs[a]) && InWindow(p, fs[b]);
    }
  }

  /**
   Windows of serialised requests start more than the window length apart, their failures come in
   order, and after one that completes the threshold the next comes no sooner than the cooldown.
   */
  lemma FailuresInAWindow(p: Policy, evs: seq<Event>, a: nat, b: nat)
    requires Sensible(p) && Failing(p, 1, evs) && a <= b < |Exec(p, evs).failures|
    ensures
      var fs := Exec(p, evs).failures;
      && fs[a].time <= fs[b].time
      && (if fs[a].start == fs[b].start then fs[b].place == fs[a].place + (b - a) <= p.threshold
          else fs[b].start - fs[a].start > p.window)
      && (a < b && fs[a].place == p.threshold ==> fs[b].time >= fs[a].time + p.cooldown)
  {
    SerialRunOk(p, evs);
    if a < b && Exec(p, evs).failures[a].place == p.threshold {
      AfterTheThreshold(p, Exec(p, evs).failures, a, b);
    }
    SameWindow(p, Exec(p, evs).failures, a, b);
    assert InWindow(p, Exec(p, evs).failures[b]);
  }

  lemma AfterTheThreshold(p: Policy, fs: seq<Failure>, a: nat, b: nat)
    requires WellLogged(p, fs) && a < b < |fs| && fs[a].place == p.threshold
    ensures fs[b].time >= fs[a].time + p.cooldown
  {
    assert Follows(p, fs[a], fs[a + 1]) && InWindow(p, fs[a + 1]);
    SameWindow(p, fs, a + 1, b);
  }

  /**
   In a given run, failures a to b within a window length of each other are at most the threshold
   exactly if their places say so: one window never has more, and the end of one and the
   beginning of the next together may.
   */
  lemma ThresholdKeptIff(p: Policy, evs: seq<Event>, a: nat, b: nat) returns (m: nat)
    requires Sensible(p) && Failing(p, 1, evs) && a <= b < |Exec(p, evs).failures|
    requires Exec(p, evs).failures[b].time - Exec(p, evs).failures[a].time <= p.window
    ensures
      var fs := Exec(p, evs).failures;
      if fs[a].start == fs[b].start then b - a + 1 <= p.threshold
      else
        && a < m <= b && fs[m].place == 1
        && (b - a + 1 <= p.threshold <==> fs[b].place + fs[m - 1].place - fs[a].place < p.threshold)
  {
    SerialRunOk(p, evs);
    var fs := Exec(p, evs).failures;
    m := PlacesCount(p, fs, a, b);
    assert InWindow(p, fs[a]) && InWindow(p, fs[b]);
  }

  // ---- the ban ----

  function Run(p: Policy, log: Log, since: seq<Event>): Log {
    if since == [] then log else Step(p, Run(p, log, since[..|since| - 1]), since[|since| - 1])
  }

  ghost predicate LegalFrom(p: Policy, c: nat, log: Log, since: seq<Event>) {
    since != [] ==> LegalFrom(p, c, log, since[..|since| - 1]) && InFlight(Run(p, log, since)) <= c
  }

  /** The continuations of a run are those of its log. */
  lemma {:induction false} RunContinues(p: Policy, c: nat, evs: seq<Event>, since: seq<Event>)
    requires Legal(p, c, evs)
    ensures Exec(p, evs + since) == Run(p, Exec(p, evs), since)
    ensures Legal(p, c, evs + since) <==> LegalFrom(p, c, Exec(p, evs), since)
    decreases |since|
  {
    if since == [] {
      assert evs + since == evs;
    } else {
      assert (evs + since)[..|evs + since| - 1] == evs + since[..|since| - 1];
      RunContinues(p, c, evs, since[..|since| - 1]);
    }
  }

  ghost predicate Banned(p: Policy, log: Log) {
    log.entry.Some? && log.entry.value.count >= p.threshold
  }

  /** Any request with a time from now until the given one would be turned away. */
  ghost predicate TurnsAway(log: Log, until: int) {
    forall t :: log.clock <= t < until ==> !AllowedResult(log.entry, t)
  }

  /** Now and after every event since. */
  ghost predicate TurnsAwayThroughout(p: Policy, log: Log, since: seq<Event>, until: int) {
    && (since == [] || TurnsAwayThroughout(p, log, since[..|since| - 1], until))
    && TurnsAway(Run(p, log, since), until)
  }

  /** No success, and failures only with times from the ban to the end of the window. */
  predicate Keeps(p: Policy, log: Log, ev: Event, ban: int, end: int) {
    && (ev.Success? ==> log.approved == 0)
    && (ev.Fail? && ev.index < |log.stamps| ==> ban <= log.stamps[ev.index] <= end)
  }

  ghost predicate Undisturbed(p: Policy, log: Log, since: seq<Event>, ban: int, end: int) {
    since == [] ||
    (&& Undisturbed(p, log, since[..|since| - 1], ban, end)
     && Keeps(p, Run(p, log, since[..|since| - 1]), since[|since| - 1], ban, end))
  }

  lemma {:induction false} ClockRises(p: Policy, log: Log, since: seq<Event>)
    ensures log.clock <= Run(p, log, since).clock
    decreases |since|
  {
    if since != [] {
      ClockRises(p, log, since[..|since| - 1]);
    }
  }

  /** The entry of a ban that was for the same window and lasts as long, and nobody was let in. */
  ghost predicate Stands(p: Policy, log: Log, log': Log) {
    && log.entry.Some? && log'.entry.Some? && log'.entry.value.firstFail == log.entry.value.firstFail
    && log'.entry.value.count >= p.threshold && log'.entry.value.bannedUntil >= log.entry.value.bannedUntil
    && InFlight(log') <= InFlight(log)
  }

  lemma StandsStep(p: Policy, log: Log, log': Log, ev: Event)
    requires Sensible(p) && Banned(p, log) && Stands(p, log, log') && log.entry.value.bannedUntil > 0
    requires Step(p, log', ev).clock < log.entry.value.bannedUntil
    requires Keeps(p, log', ev, log.entry.value.bannedUntil - p.cooldown, log.entry.value.firstFail + p.window)
    ensures Stands(p, log, Step(p, log', ev)) && InFlight(Step(p, log', ev)) <= InFlight(log')
  {
  }

  /** As long as it is undisturbed a ban stands, and nobody is let in. */
  lemma {:induction false} BanStands(p: Policy, c: nat, log: Log, since: seq<Event>)
    requires Sensible(p) && Sane(p, c, log) && Banned(p, log)
    requires Run(p, log, since).clock < log.entry.value.bannedUntil
    requires Undisturbed(p, log, since, log.entry.value.bannedUntil - p.cooldown, log.entry.value.firstFail + p.window)
    ensures Stands(p, log, Run(p, log, since))
    decreases |since|
  {
    if since != [] {
      ClockRises(p, Run(p, log, since[..|since| - 1]), [since[|since| - 1]]);
      OneStep(p, Run(p, log, since[..|since| - 1]), since[|since| - 1]);
      BanStands(p, c, log, since[..|since| - 1]);
      StandsStep(p, log, Run(p, log, since[..|since| - 1]), since[|since| - 1]);
    }
  }

  lemma OneStep(p: Policy, log: Log, ev: Event)
    ensures Run(p, log, [ev]) == Step(p, log, ev)
  {
    assert [ev][..0] == [];
    assert Run(p, log, []) == log;
  }

  /** What disturbs a ban lets a request in before its time. */
  lemma DisturbedStep(p: Policy, log: Log, log': Log, ev: Event)
    requires Sensible(p) && Banned(p, log) && Stands(p, log, log') && log.entry.value.bannedUntil > 0
    requires Step(p, log', ev).clock < log.entry.value.bannedUntil
    requires !Keeps(p, log', ev, log.entry.value.bannedUntil - p.cooldown, log.entry.value.firstFail + p.window)
    ensures !TurnsAway(Step(p, log', ev), log.entry.value.bannedUntil)
  {
    var after, until := Step(p, log', ev), log.entry.value.bannedUntil;
    assert AllowedResult(after.entry, until - 1) && after.clock <= until - 1;
  }

  /**
   "Further requests are denied for Cooldown" holds of a ban exactly as long as no request of the
   address succeeds and no failure is recorded with a time before the ban or after the window.
   */
  lemma {:induction false} BanHoldsIff(p: Policy, c: nat, log: Log, since: seq<Event>)
    requires Sensible(p) && Sane(p, c, log) && Banned(p, log)
    requires Run(p, log, since).clock < log.entry.value.bannedUntil
    ensures
      var until := log.entry.value.bannedUntil;
      TurnsAwayThroughout(p, log, since, until)
      <==> Undisturbed(p, log, since, until - p.cooldown, log.entry.value.firstFail + p.window)
    decreases |since|
  {
    var until, end := log.entry.value.bannedUntil, log.entry.value.firstFail + p.window;
    if since != [] {
      var before, ev := since[..|since| - 1], since[|since| - 1];
      ClockRises(p, Run(p, log, before), [ev]);
      OneStep(p, Run(p, log, before), ev);
      BanHoldsIff(p, c, log, before);
      if Undisturbed(p, log, before, until - p.cooldown, end) {
        BanStands(p, c, log, before);
        if Undisturbed(p, log, since, until - p.cooldown, end) {
          BanStands(p, c, log, since);
        } else {
          DisturbedStep(p, log, Run(p, log, before), ev);
        }
      }
    }
  }

  /** Whoever is in flight while a ban stands was so when it began, and not all places were taken then. */
  lemma InFlightAtTheBan(p: Policy, c: nat, log: Log, since: seq<Event>, ev: Event)
    requires Sensible(p) && Sane(p, c, log) && Banned(p, log)
    requires Run(p, log, since + [ev]).clock < log.entry.value.bannedUntil
    requires Undisturbed(p, log, since + [ev], log.entry.value.bannedUntil - p.cooldown,
                         log.entry.value.firstFail + p.window)
    ensures InFlight(Run(p, log, since + [ev])) <= InFlight(Run(p, log, since)) <= InFlight(log) < c
  {
    assert (since + [ev])[..|since|] == since;
    ClockRises(p, Run(p, log, since), [ev]);
    OneStep(p, Run(p, log, since), ev);
    BanStands(p, c, log, since);
    StandsStep(p, log, Run(p, log, since), ev);
  }

  /** Serialised requests are turned away until the ban is over. */
  lemma {:induction false} SerialBanHolds(p: Policy, log: Log, since: seq<Event>)
    requires Sensible(p) && Sane(p, 1, log) && Banned(p, log) && LegalFrom(p, 1, log, since)
    requires Run(p, log, since).clock < log.entry.value.bannedUntil
    ensures Undisturbed(p, log, since, log.entry.value.bannedUntil - p.cooldown, log.entry.value.firstFail + p.window)
    ensures TurnsAwayThroughout(p, log, since, log.entry.value.bannedUntil)
    decreases |since|
  {
    if since != [] {
      var before, ev := since[..|since| - 1], since[|since| - 1];
      ClockRises(p, Run(p, log, before), [ev]);
      OneStep(p, Run(p, log, before), ev);
      SerialBanHolds(p, log, before);
      BanStands(p, 1, log, before);
    }
    BanHoldsIff(p, 1, log, since);
  }

  /** Every ban of every run with at most c requests in flight turns requests away until it is over. */
  ghost predicate BansHold(p: Policy, c: nat) {
    forall evs, since ::
      Legal(p, c, evs) && Banned(p, Exec(p, evs)) && LegalFrom(p, c, Exec(p, evs), since)
      && Run(p, Exec(p, evs), since).clock < Exec(p, evs).entry.value.bannedUntil ==>
        TurnsAwayThroughout(p, Exec(p, evs), since, Exec(p, evs).entry.value.bannedUntil)
  }

  /** A run comes to a ban in force that this event ends before its time. */
  ghost predicate Lifts(p: Policy, c: nat, log: Log, ev: Event) {
    && Reached(p, c, log) && Banned(p, log) && InFlight(Step(p, log, ev)) <= c
    && Step(p, log, ev).clock < log.entry.value.bannedUntil
    && !TurnsAway(Step(p, log, ev), log.entry.value.bannedUntil)
  }

  lemma ReachedIsSane(p: Policy, c: nat, log: Log)
    requires Sensible(p) && Reached(p, c, log)
    ensures Sane(p, c, log)
  {
    var evs :| Failing(p, c, evs) && Exec(p, evs) == log;
    RunOk(p, c, evs);
  }

  /** A ban at time t for a window from s, with q old stamps on their way and one request less let in than fit. */
  lemma BanAt(p: Policy, c: nat, log: Log, s: int, t: int, q: nat) returns (log': Log)
    requires Sensible(p) && Reached(p, c, log) && At(log, s, q, 0) && q < c && log.entry == None
    requires 0 <= s <= t <= s + p.window
    ensures Reached(p, c, log') && At(log', t, q, c - q - 1)
    ensures log'.entry == Some(Entry(p.threshold, s, t + p.cooldown))
  {
    var tried := ShortOfTheBan(p, c, log, s, q, 0);
    Later(p, c, tried, t);
    log' := Together(p, c, tried.(clock := t), t, q, 1, s, 0);
  }

  /** The failure of a request that read the clock a millisecond before the ban shortens it. */
  lemma StaleFailureShortensTheBan(p: Policy, c: nat) returns (log: Log)
    requires Sensible(p) && c >= 2
    ensures Lifts(p, c, log, Fail(0))
    ensures log.stamps != [] && log.stamps[0] == log.entry.value.bannedUntil - p.cooldown - 1
  {
    SlowRequests(p, c, 1);
    Later(p, c, Log(0, None, 0, Zeros(1), []), 1);
    log := BanAt(p, c, Log(1, None, 0, Zeros(1), []), 1, 1, 1);
    ReachedIsSane(p, c, log);
    DisturbedStep(p, log, log, Fail(0));
  }

  /** The success of a request that was in flight lifts it. */
  lemma SuccessLiftsTheBan(p: Policy, c: nat) returns (log: Log)
    requires Sensible(p) && c >= 2
    ensures Lifts(p, c, log, Success)
  {
    SlowRequests(p, c, 0);
    log := BanAt(p, c, Log(0, None, 0, Zeros(0), []), 0, 0, 0);
    ReachedIsSane(p, c, log);
    DisturbedStep(p, log, log, Success);
  }

  /** And so does the failure of one that reads the clock a millisecond after the window. */
  lemma LateFailureLiftsTheBan(p: Policy, c: nat) returns (log: Log)
    requires Sensible(p) && c >= 2 && p.cooldown >= 2
    ensures Lifts(p, c, log, Fail(0))
    ensures log.stamps != [] && log.stamps[0] == log.entry.value.firstFail + p.window + 1
  {
    SlowRequests(p, c, 0);
    var ban := BanAt(p, c, Log(0, None, 0, Zeros(0), []), 0, p.window, 0);
    Later(p, c, ban, p.window + 1);
    var late := ban.(clock := p.window + 1);
    Extended(p, c, late, Read);
    log := Step(p, late, Read);
    ReachedIsSane(p, c, log);
    DisturbedStep(p, log, log, Fail(0));
  }

  /** So bans hold exactly if requests are serialised. */
  lemma BansHoldIff(p: Policy, c: nat)
    requires Sensible(p) && c >= 1
    ensures BansHold(p, c) <==> c == 1
  {
    if c == 1 {
      forall evs, since |
        Legal(p, c, evs) && Banned(p, Exec(p, evs)) && LegalFrom(p, c, Exec(p, evs), since)
        && Run(p, Exec(p, evs), since).clock < Exec(p, evs).entry.value.bannedUntil
        ensures TurnsAwayThroughout(p, Exec(p, evs), since, Exec(p, evs).entry.value.bannedUntil)
      {
        RunOk(p, 1, evs);
        SerialBanHolds(p, Exec(p, evs), since);
      }
    } else {
      var log := StaleFailureShortensTheBan(p, c);
      OneStep(p, log, Fail(0));
      var evs :| Failing(p, c, evs) && Exec(p, evs) == log;
      assert Legal(p, c, evs);
    }
  }
}
