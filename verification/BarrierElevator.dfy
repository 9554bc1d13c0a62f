/** The order sorted dispatch gives a queue: one sweep of the elevator from the last boundary, between
    what may not be passed. */
module BarrierElevator {
  import opened Collections
  import opened Barrier
  import opened BarrierInvariant

  /** In a sweep upwards from the boundary and then round to the start, a is met no later than b. */
  predicate Before(boundary: nat, a: nat, b: nat) {
    if boundary <= a then b < boundary || a <= b else b < boundary && a <= b
  }

  lemma BeforeIsOrder(boundary: nat, a: nat, b: nat, c: nat)
    ensures Before(boundary, a, a) && (Before(boundary, a, b) || Before(boundary, b, a))
    ensures Before(boundary, a, b) && Before(boundary, b, c) ==> Before(boundary, a, c)
    ensures Before(boundary, a, b) && Before(boundary, b, a) ==> a == b
  {
  }

  /** Two requests that sorted dispatch may reorder: neither is fenced, and both go the same way. */
  predicate Comparable(a: Request, b: Request) {
    && !a.soft && !a.hard && !a.started && !b.soft && !b.hard && !b.started
    && a.write == b.write
  }

  /** Neighbours that may be reordered stand in the order of the sweep. */
  predicate Sweeps(boundary: nat, q: seq<Request>) {
    forall k | 0 < k < |q| && Comparable(q[k - 1], q[k]) :: Before(boundary, q[k - 1].sector, q[k].sector)
  }

  function Requests(s: State): (q: seq<Request>)
    ensures |q| == |s.queue| && forall k | 0 <= k < |q| :: q[k] == Get(s, s.queue[k])
  {
    seq(|s.queue|, k requires 0 <= k < |s.queue| => Get(s, s.queue[k]))
  }

  predicate InSweep(s: State) {
    Sweeps(s.endSector, Requests(s))
  }

  lemma InsertSweeps(boundary: nat, q: seq<Request>, i: nat, rq: Request, t: seq<Request>)
    requires Sweeps(boundary, q) && i <= |q| && t == q[..i] + [rq] + q[i..]
    requires i < |q| ==> Before(boundary, rq.sector, q[i].sector)
    requires i > 0 && Comparable(q[i - 1], rq) ==> Before(boundary, q[i - 1].sector, rq.sector)
    ensures Sweeps(boundary, t)
  {
    hide Before, Comparable;
    forall k | 0 < k < |t| && Comparable(t[k - 1], t[k]) ensures Before(boundary, t[k - 1].sector, t[k].sector) {
      if k < i {
        assert t[k - 1] == q[k - 1] && t[k] == q[k];
      } else if k > i + 1 {
        assert t[k - 1] == q[k - 2] && t[k] == q[k - 1];
      }
    }
  }

  /** Hence so do all requests with nothing fenced and nothing of the other direction between them. */
  lemma {:induction false} SweepBetween(s: State, a: nat, b: nat)
    requires InSweep(s) && a <= b < |s.queue|
    requires forall k | a < k <= b :: Comparable(Get(s, s.queue[k - 1]), Get(s, s.queue[k]))
    ensures Before(s.endSector, Get(s, s.queue[a]).sector, Get(s, s.queue[b]).sector)
    decreases b - a
  {
    if a < b {
      SweepBetween(s, a, b - 1);
      assert Comparable(Get(s, s.queue[b - 1]), Get(s, s.queue[b]));
      BeforeIsOrder(s.endSector, Get(s, s.queue[a]).sector, Get(s, s.queue[b - 1]).sector, Get(s, s.queue[b]).sector);
    }
  }

  /** Where a sorted request goes: everything behind it may be reordered with it and comes later in the
      sweep; what is right before it may not be reordered with it, or comes no later. */
  lemma SortedPlace(s: State, r: Ref)
    requires !Get(s, r).soft && !Get(s, r).hard && !Get(s, r).started
    ensures var rq, i := Get(s, r), SortIndex(s, Get(s, r), |s.queue|);
            && (forall k | i <= k < |s.queue| ::
                  Comparable(rq, Get(s, s.queue[k])) && !Before(s.endSector, Get(s, s.queue[k]).sector, rq.sector))
            && (i > 0 && Comparable(Get(s, s.queue[i - 1]), rq) ==>
                  Before(s.endSector, Get(s, s.queue[i - 1]).sector, rq.sector))
  {
    var rq, i := Get(s, r), SortIndex(s, Get(s, r), |s.queue|);
    forall k | i <= k < |s.queue|
      ensures Comparable(rq, Get(s, s.queue[k])) && !Before(s.endSector, Get(s, s.queue[k]).sector, rq.sector)
    {
      assert MayPass(rq, Get(s, s.queue[k]), s.endSector);
    }
  }

  /** Sorted dispatch keeps the sweep. */
  lemma DispatchKeepsSweep(s: State, r: Ref)
    requires InSweep(s) && !Get(s, r).soft && !Get(s, r).hard && !Get(s, r).started
    ensures InSweep(Dispatch(s, r, false))
  {
    hide SortIndex, MayPass, Comparable, Before, Sweeps, InsertAt, Requests;
    var i, t := SortIndex(s, Get(s, r), |s.queue|), Dispatch(s, r, false);
    SortedNeighbours(s, r, i);
    InsertedRequests(s, t, i, r);
    InsertSweeps(s.endSector, Requests(s), i, Get(s, r), Requests(t));
  }

  lemma SortedNeighbours(s: State, r: Ref, i: nat)
    requires !Get(s, r).soft && !Get(s, r).hard && !Get(s, r).started && i == SortIndex(s, Get(s, r), |s.queue|)
    ensures var q, rq := Requests(s), Get(s, r);
            && (i < |q| ==> Before(s.endSector, rq.sector, q[i].sector))
            && (i > 0 && Comparable(q[i - 1], rq) ==> Before(s.endSector, q[i - 1].sector, rq.sector))
  {
    SortedPlace(s, r);
    hide SortIndex, MayPass, Comparable;
  }

  lemma InsertedRequests(s: State, t: State, i: nat, r: Ref)
    requires t.rqs == s.rqs && i <= |s.queue| && t.queue == InsertAt(s.queue, i, r)
    ensures Requests(t) == Requests(s)[..i] + [Get(s, r)] + Requests(s)[i..]
  {
    var q, u := Requests(s), Requests(t);
    forall k | 0 <= k < |u| ensures u[k] == (q[..i] + [Get(s, r)] + q[i..])[k] {
      assert t.queue[k] == if k < i then s.queue[k] else if k == i then r else s.queue[k - 1];
    }
  }

  /** So does a whole drain of the scheduler, in whatever order it gives its requests up. */
  lemma {:induction false} DrainKeepsSweep(s: State, cs: seq<Choice>)
    requires Inv(s) && InSweep(s) && Drains(cs, s.sorted) && forall c | c in cs :: !c.toTail
    ensures InSweep(DrainElevator(s, cs))
    decreases |cs|
  {
    hide InSweep, Dispatch;
    if cs != [] {
      var r := cs[0].r;
      assert cs[0] in cs;
      HeldIsPlain(s, r);
      DispatchKeepsSweep(s, r);
      DispatchKeepsInv(s, r, false);
      DispatchedHeld(s, r);
      hide Inv;
      DrainKeepsSweep(Dispatch(s, r, false), cs[1..]);
    }
  }

  lemma DispatchedHeld(s: State, r: Ref)
    ensures Dispatch(s, r, false).sorted == s.sorted - {r}
  {
  }

  /** What the scheduler holds is neither fenced nor started. */
  lemma HeldIsPlain(s: State, r: Ref)
    requires Inv(s) && r in s.sorted
    ensures r !in s.queue && !Get(s, r).hard && !Get(s, r).started
    ensures !Get(s, r).soft
  {
  }
}
