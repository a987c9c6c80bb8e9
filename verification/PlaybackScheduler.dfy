/**
 The playback scheduler of one track: every decoded 20 ms buffer starts one frame after the
 previous one, or one frame from now if that is later. Times are reals, in seconds.
 */
module PlaybackScheduler {
  const FRAME: real := 0.02

  /** The cursor after the arrivals so far; it starts at 0. */
  function Cursor(arrivals: seq<real>): real {
    if arrivals == [] then 0.0 else StartTime(arrivals) + FRAME
  }

  /** When the buffer that arrived last is started. */
  function StartTime(arrivals: seq<real>): real
    requires arrivals != []
    decreases arrivals, 0
  {
    var cursor := Cursor(arrivals[..|arrivals| - 1]);
    var soonest := arrivals[|arrivals| - 1] + FRAME;
    if cursor < soonest then soonest else cursor
  }

  /** Where arrival j alone would put the start of arrival k. */
  function Pushed(arrivals: seq<real>, j: nat, k: nat): real
    requires j <= k < |arrivals|
  {
    arrivals[j] + (k - j + 1) as real * FRAME
  }

  /** The k-th start, as a function of all arrivals. */
  function Start(arrivals: seq<real>, k: nat): real
    requires k < |arrivals|
  {
    StartTime(arrivals[..k + 1])
  }

  lemma StartRecurrence(arrivals: seq<real>, k: nat)
    requires k < |arrivals|
    ensures Start(arrivals, k) ==
            var soonest := arrivals[k] + FRAME;
            var cursor := if k == 0 then 0.0 else Start(arrivals, k - 1) + FRAME;
            if cursor < soonest then soonest else cursor
  {
    assert arrivals[..k + 1][..k] == arrivals[..k];
    if k > 0 {
      assert Cursor(arrivals[..k]) == Start(arrivals, k - 1) + FRAME;
    }
  }

  /** Closed form: the k-th start is the greatest of now_j + (k−j+1)·F over the arrivals j up to k. */
  lemma {:induction false} StartIsMaximum(arrivals: seq<real>, k: nat) returns (tight: nat)
    requires k < |arrivals| && arrivals[0] >= 0.0
    ensures forall j :: 0 <= j <= k ==> Pushed(arrivals, j, k) <= Start(arrivals, k)
    ensures tight <= k && Start(arrivals, k) == Pushed(arrivals, tight, k)
  {
    StartRecurrence(arrivals, k);
    if k == 0 {
      tight := 0;
    } else {
      tight := StartIsMaximum(arrivals, k - 1);
      forall j | 0 <= j <= k ensures Pushed(arrivals, j, k) <= Start(arrivals, k) {
        if j < k {
          assert Pushed(arrivals, j, k) == Pushed(arrivals, j, k - 1) + FRAME;
        }
      }
      if Start(arrivals, k - 1) + FRAME < arrivals[k] + FRAME {
        tight := k;
      }
    }
  }

  /** Starts lead the clock by at least a frame and never overlap the previous buffer. */
  lemma LeadAndSpacing(arrivals: seq<real>, k: nat)
    requires k < |arrivals|
    ensures Start(arrivals, k) >= arrivals[k] + FRAME
    ensures k > 0 ==> Start(arrivals, k) >= Start(arrivals, k - 1) + FRAME
  {
    StartRecurrence(arrivals, k);
  }

  /** No schedule that leads by a frame and does not overlap starts any buffer earlier. */
  lemma {:induction false} StartsAreLeast(arrivals: seq<real>, other: seq<real>, k: nat)
    requires |other| == |arrivals| && k < |arrivals| && arrivals[0] >= 0.0
    requires forall i :: 0 <= i < |arrivals| ==> other[i] >= arrivals[i] + FRAME
    requires forall i, j :: 0 <= i && j == i + 1 && j < |arrivals| ==> other[j] >= other[i] + FRAME
    ensures Start(arrivals, k) <= other[k]
  {
    StartRecurrence(arrivals, k);
    if k > 0 {
      StartsAreLeast(arrivals, other, k - 1);
      assert other[k] >= other[k - 1] + FRAME;
    }
  }

  /** Arrivals have bunched up by at most `backlog` frames, seen from arrival k. */
  ghost predicate Bunched(arrivals: seq<real>, k: nat, backlog: real)
    requires k < |arrivals|
  {
    forall j :: 0 <= j <= k ==> (k - j) as real * FRAME <= arrivals[k] - arrivals[j] + backlog * FRAME
  }

  /**
   The added latency of buffer k stays within backlog + 1 frames exactly if the arrivals up to it
   have bunched up by at most that backlog.
   */
  lemma LatencyIffBunched(arrivals: seq<real>, k: nat, backlog: real)
    requires k < |arrivals| && arrivals[0] >= 0.0
    ensures Start(arrivals, k) - arrivals[k] <= (backlog + 1.0) * FRAME <==> Bunched(arrivals, k, backlog)
  {
    var w := StartIsMaximum(arrivals, k);
    assert (backlog + 1.0) * FRAME == backlog * FRAME + FRAME;
    forall j | 0 <= j <= k
      ensures Pushed(arrivals, j, k) - arrivals[k] <= backlog * FRAME + FRAME
              <==> (k - j) as real * FRAME <= arrivals[k] - arrivals[j] + backlog * FRAME
    {
      assert (k - j + 1) as real == (k - j) as real + 1.0;
    }
    if Bunched(arrivals, k, backlog) {
      assert (k - w) as real * FRAME <= arrivals[k] - arrivals[w] + backlog * FRAME;
    }
  }

  datatype Source = Source(id: nat, start: real)

  /** The sources among the first n that have not ended, in the order of their start. */
  ghost function Live(arrivals: seq<real>, ended: set<nat>, n: nat): seq<Source>
    requires n <= |arrivals|
  {
    if n == 0 then [] else
      Live(arrivals, ended, n - 1) + if n - 1 in ended then [] else [Source(n - 1, Start(arrivals, n - 1))]
  }

  lemma {:induction false} LiveAfterArrival(arrivals: seq<real>, now: real, ended: set<nat>, n: nat)
    requires n <= |arrivals|
    ensures Live(arrivals + [now], ended, n) == Live(arrivals, ended, n)
  {
    if n > 0 {
      LiveAfterArrival(arrivals, now, ended, n - 1);
      assert (arrivals + [now])[..n] == arrivals[..n];
    }
  }

  lemma {:induction false} LiveIds(arrivals: seq<real>, ended: set<nat>, n: nat)
    requires n <= |arrivals|
    ensures forall s :: s in Live(arrivals, ended, n)
              <==> s.id < n && s.id !in ended && s == Source(s.id, Start(arrivals, s.id))
  {
    if n > 0 {
      LiveIds(arrivals, ended, n - 1);
    }
  }

  /** Taking one source off the list is what its ending asks for. */
  lemma {:induction false} LiveAfterEnd(arrivals: seq<real>, ended: set<nat>, n: nat, idx: nat)
    requires n <= |arrivals| && idx < |Live(arrivals, ended, n)|
    ensures
      var live := Live(arrivals, ended, n);
      Live(arrivals, ended + {live[idx].id}, n) == live[..idx] + live[idx + 1..]
    decreases n
  {
    var live, before := Live(arrivals, ended, n), Live(arrivals, ended, n - 1);
    var last := if n - 1 in ended then [] else [Source(n - 1, Start(arrivals, n - 1))];
    var id := live[idx].id;
    if idx < |before| {
      LiveIds(arrivals, ended, n - 1);
      assert before[idx] in before && live[idx] == before[idx];
      LiveAfterEnd(arrivals, ended, n - 1, idx);
      assert Live(arrivals, ended + {id}, n) == before[..idx] + before[idx + 1..] + last;
      RemoveFromFront(before, last, idx);
    } else {
      assert live[idx] == last[0] && live[..idx] == before && live[idx + 1..] == [];
      LiveWithout(arrivals, ended, n - 1, id);
    }
  }

  lemma RemoveFromFront(a: seq<Source>, b: seq<Source>, idx: nat)
    requires idx < |a|
    ensures (a + b)[..idx] + (a + b)[idx + 1..] == a[..idx] + a[idx + 1..] + b
  {
  }

  lemma {:induction false} LiveWithout(arrivals: seq<real>, ended: set<nat>, n: nat, id: nat)
    requires n <= |arrivals| && (id >= n || id in ended)
    ensures Live(arrivals, ended + {id}, n) == Live(arrivals, ended, n)
  {
    if n > 0 {
      LiveWithout(arrivals, ended, n - 1, id);
    }
  }

  class ScheduledLane {
    var playCursor: real
    var liveSources: seq<Source>
    /** The identity of the next source node. */
    var nextId: nat
    ghost var arrivals: seq<real>
    ghost var ended: set<nat>

    ghost predicate Valid()
      reads this
    {
      && playCursor == Cursor(arrivals) && nextId == |arrivals|
      && (forall id :: id in ended ==> id < |arrivals|)
      && liveSources == Live(arrivals, ended, |arrivals|)
    }

    constructor ()
      ensures Valid() && arrivals == [] && ended == {}
    {
      playCursor, liveSources, nextId, arrivals, ended := 0.0, [], 0, [], {};
    }

    method Enqueue(now: real) returns (src: Source)
      requires Valid()
      modifies this
      ensures Valid() && arrivals == old(arrivals) + [now] && ended == old(ended)
      ensures src == Source(|old(arrivals)|, StartTime(arrivals))
    {
      LiveAfterArrival(arrivals, now, ended, |arrivals|);
      assert (arrivals + [now])[..|arrivals|] == arrivals;
      assert (arrivals + [now])[..|arrivals| + 1] == arrivals + [now];
      arrivals := arrivals + [now];
      if playCursor < now + FRAME {
        playCursor := now + FRAME;
      }
      src := Source(nextId, playCursor);
      nextId := nextId + 1;
      liveSources := liveSources + [src];
      playCursor := playCursor + FRAME;
    }

    /** A source has played to its end: it is taken off the list, wherever it is. */
    method OnEnded(src: Source)
      requires Valid() && src.id < |arrivals|
      modifies this`liveSources, this`ended
      ensures Valid() && ended == old(ended) + {src.id}
    {
      var idx := 0;
      while idx < |liveSources| && liveSources[idx].id != src.id
        invariant 0 <= idx <= |liveSources|
        invariant forall i :: 0 <= i < idx ==> liveSources[i].id != src.id
      {
        idx := idx + 1;
      }
      LiveIds(arrivals, ended, |arrivals|);
      if idx < |liveSources| {
        LiveAfterEnd(arrivals, ended, |arrivals|, idx);
        liveSources := liveSources[..idx] + liveSources[idx + 1..];
      } else {
        assert Source(src.id, Start(arrivals, src.id)) !in liveSources;
        LiveWithout(arrivals, ended, |arrivals|, src.id);
      }
      ended := ended + {src.id};
    }

    /** Closing the lane stops exactly the sources that are still playing or waiting, each once. */
    method Close() returns (stopped: seq<Source>)
      requires Valid()
      modifies this`liveSources, this`ended
      ensures Valid() && liveSources == []
      ensures stopped == Live(arrivals, old(ended), |arrivals|)
    {
      stopped := [];
      while |stopped| < |liveSources|
        invariant |stopped| <= |liveSources| && stopped == liveSources[..|stopped|]
        invariant liveSources == old(liveSources)
        invariant Live(arrivals, ended, |arrivals|) == liveSources[|stopped|..]
        invariant forall id :: id in ended ==> id < |arrivals|
      {
        LiveIds(arrivals, ended, |arrivals|);
        assert liveSources[|stopped|] in Live(arrivals, ended, |arrivals|);
        LiveAfterEnd(arrivals, ended, |arrivals|, 0);
        ended := ended + {liveSources[|stopped|].id};
        stopped := stopped + [liveSources[|stopped|]];
      }
      liveSources := [];
    }
  }
}
