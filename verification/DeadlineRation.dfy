/** How the deadline scheduler rations reads against waiting writes: the counters of
    deadline_dispatch_requests in kernel/linux/block/deadline-iosched.c, 32 bits wide. */
module DeadlineRation {
  const UINT_MAX: nat := 0xffff_ffff
  const INT_MAX: nat := 0x7fff_ffff

  /** Unsigned 32-bit arithmetic. */
  function Wrap(a: nat): (b: nat)
    requires a <= 2 * UINT_MAX
    ensures b <= UINT_MAX && (b == a || b == a - UINT_MAX - 1)
  {
    if a <= UINT_MAX then a else a - UINT_MAX - 1
  }

  /** What is left of a up to b. */
  function Over(a: nat, b: nat): nat {
    if a > b then a - b else 0
  }

  datatype Counters = Counters(
    starved: nat,
    batching: nat,
    passed: nat)     // history: reads picked since a write was picked, or none was queued

  datatype Next = NoNext | NextRead | NextWrite

  /** What a dispatch finds: which directions have requests, the next request if there is one and
      whether it starts where the last one ended, and whether the search for the first request of
      a batch starts over (at an expired request, or at the lowest sector). */
  datatype Pick = Pick(haveReads: bool, haveWrites: bool, next: Next, sequential: bool, restart: bool)

  function Grown(c: Counters, p: Pick, f: nat): (b: nat)
    requires c.batching <= UINT_MAX && f <= INT_MAX
    ensures b <= UINT_MAX
  {
    if p.next.NoNext? || p.sequential then c.batching else Wrap(c.batching + f)
  }

  predicate Batches(c: Counters, p: Pick, f: nat)
    requires c.batching <= UINT_MAX && f <= INT_MAX
  {
    !p.next.NoNext? && Grown(c, p, f) < f
  }

  predicate PicksRead(c: Counters, p: Pick, w: nat, f: nat)
    requires c.batching <= UINT_MAX && f <= INT_MAX
  {
    if Batches(c, p, f) then p.next.NextRead?
    else p.haveReads && (!p.haveWrites || c.starved < w)
  }

  /** A dispatch that has something to pick: the next request is queued, and a search that does
      not start over goes on at the next request of its direction. */
  predicate Possible(c: Counters, p: Pick, w: nat, f: nat) {
    && c.starved <= w && c.batching <= UINT_MAX && f <= INT_MAX
    && (p.haveReads || p.haveWrites)
    && (p.next.NextRead? ==> p.haveReads) && (p.next.NextWrite? ==> p.haveWrites)
    && (Batches(c, p, f) || p.restart || p.next == if PicksRead(c, p, w, f) then NextRead else NextWrite)
  }

  /** The counters after deadline_dispatch_requests. */
  function Picked(c: Counters, p: Pick, w: nat, f: nat): Counters
    requires Possible(c, p, w, f)
  {
    var read := PicksRead(c, p, w, f);
    Counters(
      if Batches(c, p, f) then c.starved
      else if !read then 0 else if p.haveWrites then c.starved + 1 else c.starved,
      if !Batches(c, p, f) && p.restart then 1 else Wrap(Grown(c, p, f) + 1),
      if !read || !p.haveWrites then 0 else c.passed + 1)
  }

  /** Reads that may be picked while a write waits. */
  function Bound(w: nat, f: nat): nat {
    if f == 0 then w else (w + 1) * f
  }

  /** What is left once every batch that may still be started, and the current one, is used up. */
  function Slack(c: Counters, w: nat, f: nat): int {
    (w + 1) * f - c.passed - Over(w, c.starved) * f - Over(f, c.batching)
  }

  /** The settings for which 32 bits are enough. */
  predicate Fair(w: nat, f: nat) {
    && (f == 1 ==> w < INT_MAX)
    && (3 * f == UINT_MAX ==> w == 0)
  }

  /** What every dispatch keeps. A counter that has run on past the batch has left slack behind,
      enough to pay for the batch it lets through when it wraps around. */
  predicate Ration(c: Counters, w: nat, f: nat) {
    && c.starved <= w && c.batching <= UINT_MAX && f <= INT_MAX
    && (Fair(w, f) ==>
          if f == 0 then c.passed + Over(w, c.starved) <= w
          else if f == 1 then 0 <= Slack(c, w, f) && (1 <= Slack(c, w, f) || c.batching <= 1 + 2 * c.starved)
          else && 0 <= Slack(c, w, f)
               && (c.batching > f ==> f - 1 <= Slack(c, w, f))
               && (c.batching > UINT_MAX - f ==> UINT_MAX + 1 - c.batching <= Slack(c, w, f)))
  }

  // Every dispatch keeps the ration.

  lemma FreshRation(c: Counters, w: nat, f: nat)
    requires c.starved <= w && c.batching <= UINT_MAX && f <= INT_MAX && c.passed == 0
    ensures Ration(c, w, f)
  {
    assert Over(w, c.starved) * f == w * f - c.starved * f;
    assert (w + 1) * f == w * f + f;
    assert c.starved * f >= 0;
  }

  /** What a find does to the slack. */
  lemma FoundSlack(c: Counters, b: nat, w: nat, f: nat)
    requires c.starved < w
    ensures Slack(Counters(c.starved + 1, b, c.passed + 1), w, f)
            == Slack(c, w, f) + f - 1 + Over(f, c.batching) - Over(f, b)
  {
    assert Over(w, c.starved) * f == Over(w, c.starved + 1) * f + f;
  }

  lemma BatchSlack(c: Counters, b: nat, w: nat, f: nat)
    ensures Slack(Counters(c.starved, b, c.passed + 1), w, f)
            == Slack(c, w, f) - 1 + Over(f, c.batching) - Over(f, b)
  {
  }

  lemma PassedKeepsRation(c: Counters, p: Pick, w: nat, f: nat)
    requires Possible(c, p, w, f) && Ration(c, w, f) && PicksRead(c, p, w, f) && p.haveWrites
    ensures Ration(Picked(c, p, w, f), w, f)
  {
    var d := Picked(c, p, w, f);
    if Batches(c, p, f) { BatchSlack(c, d.batching, w, f); } else { FoundSlack(c, d.batching, w, f); }
    hide Slack;
  }

  lemma PickKeepsRation(c: Counters, p: Pick, w: nat, f: nat)
    requires Possible(c, p, w, f) && Ration(c, w, f)
    ensures Ration(Picked(c, p, w, f), w, f)
  {
    if PicksRead(c, p, w, f) && p.haveWrites {
      PassedKeepsRation(c, p, w, f);
    } else {
      FreshRation(Picked(c, p, w, f), w, f);
    }
  }

  lemma RationBounds(c: Counters, w: nat, f: nat)
    requires Ration(c, w, f) && Fair(w, f)
    ensures c.passed <= Bound(w, f)
  {
    assert Over(w, c.starved) * f >= 0;
  }

  lemma RationRange(c: Counters, w: nat, f: nat)
    requires Ration(c, w, f)
    ensures c.starved <= w && c.batching <= UINT_MAX && f <= INT_MAX
  {
  }

  // The bound over whole runs, and exactly when it holds.

  ghost predicate Run(ps: seq<Pick>, w: nat, f: nat)
    decreases |ps|, 0
  {
    ps == [] ||
    var n := |ps| - 1;
    Run(ps[..n], w, f) && Possible(After(ps[..n], w, f), ps[n], w, f)
  }

  ghost function After(ps: seq<Pick>, w: nat, f: nat): Counters
    requires Run(ps, w, f)
    decreases |ps|, 1
  {
    if ps == [] then Counters(0, 0, 0)
    else Picked(After(ps[..|ps| - 1], w, f), ps[|ps| - 1], w, f)
  }

  ghost predicate Reachable(c: Counters, w: nat, f: nat) {
    exists ps :: Run(ps, w, f) && After(ps, w, f) == c
  }

  lemma Reach(c: Counters, p: Pick, w: nat, f: nat)
    requires Reachable(c, w, f) && Possible(c, p, w, f)
    ensures Reachable(Picked(c, p, w, f), w, f)
  {
    var ps :| Run(ps, w, f) && After(ps, w, f) == c;
    assert (ps + [p])[..|ps|] == ps;
    assert Run(ps + [p], w, f);
  }

  lemma {:induction false} RunKeepsRation(ps: seq<Pick>, w: nat, f: nat)
    requires Run(ps, w, f) && f <= INT_MAX
    ensures Ration(After(ps, w, f), w, f)
    decreases |ps|
  {
    if ps == [] {
      FreshRation(Counters(0, 0, 0), w, f);
    } else {
      var n := |ps| - 1;
      RunKeepsRation(ps[..n], w, f);
      PickKeepsRation(After(ps[..n], w, f), ps[n], w, f);
    }
  }

  // Which direction a batch is started in.

  /** How many batches of reads were started while a write waited, since one of writes was. */
  ghost function PassedOver(ps: seq<Pick>, w: nat, f: nat): nat
    requires Run(ps, w, f) && f <= INT_MAX
    decreases |ps|
  {
    if ps == [] then 0
    else
      RunKeepsRation(ps[..|ps| - 1], w, f);
      var c, p := After(ps[..|ps| - 1], w, f), ps[|ps| - 1];
      if Batches(c, p, f) || (!p.haveWrites && p.haveReads) then PassedOver(ps[..|ps| - 1], w, f)
      else if PicksRead(c, p, w, f) then PassedOver(ps[..|ps| - 1], w, f) + 1
      else 0
  }

  lemma {:induction false} StarvedCounts(ps: seq<Pick>, w: nat, f: nat)
    requires Run(ps, w, f) && f <= INT_MAX
    ensures After(ps, w, f).starved == PassedOver(ps, w, f)
    decreases |ps|
  {
    if ps != [] {
      StarvedCounts(ps[..|ps| - 1], w, f);
      RunKeepsRation(ps[..|ps| - 1], w, f);
    }
  }

  /** Over every run: a new batch is one of reads exactly if a read is queued and, should a write be
      waiting too, fewer than writes_starved batches of reads have passed it over. */
  lemma ReadsPreferred(ps: seq<Pick>, p: Pick, w: nat, f: nat)
    requires Run(ps, w, f) && f <= INT_MAX && Possible(After(ps, w, f), p, w, f) && !Batches(After(ps, w, f), p, f)
    ensures PicksRead(After(ps, w, f), p, w, f) <==> p.haveReads && (!p.haveWrites || PassedOver(ps, w, f) < w)
  {
    StarvedCounts(ps, w, f);
  }

  /** n sequential reads of one batch. */
  lemma {:induction false} ReachBatch(c: Counters, n: nat, writes: bool, w: nat, f: nat)
    requires Reachable(c, w, f) && f <= INT_MAX && c.starved <= w
    requires c.batching + n <= f && (!writes ==> c.passed == 0)
    ensures Reachable(Counters(c.starved, c.batching + n, if writes then c.passed + n else 0), w, f)
    decreases n
  {
    if n != 0 {
      var p := Pick(true, writes, NextRead, true, false);
      Reach(c, p, w, f);
      ReachBatch(Picked(c, p, w, f), n - 1, writes, w, f);
    } else {
      assert c == Counters(c.starved, c.batching + n, if writes then c.passed + n else 0);
    }
  }

  /** n batches that start over, each used up. */
  lemma {:induction false} ReachRounds(c: Counters, n: nat, w: nat, f: nat)
    requires Reachable(c, w, f) && 1 <= f <= INT_MAX && c.batching == f && c.starved + n <= w
    ensures Reachable(Counters(c.starved + n, f, c.passed + n * f), w, f)
    decreases n
  {
    if n != 0 {
      var p := Pick(true, true, NextRead, true, true);
      Reach(c, p, w, f);
      var d := Counters(c.starved + 1, 1, c.passed + 1);
      assert Picked(c, p, w, f) == d;
      ReachBatch(d, f - 1, true, w, f);
      ReachRounds(Counters(c.starved + 1, f, c.passed + f), n - 1, w, f);
      assert c.passed + f + (n - 1) * f == c.passed + n * f;
    } else {
      assert c == Counters(c.starved + n, f, c.passed + n * f);
    }
  }

  /** n reads out of sequence with a batch size of one: each advances the counter by two. */
  lemma {:induction false} ReachSkips(c: Counters, n: nat, writes: bool, w: nat)
    requires Reachable(c, w, 1) && 1 <= c.batching && c.batching + 2 * n <= UINT_MAX && c.starved <= w
    requires if writes then c.starved + n <= w else c.passed == 0
    ensures Reachable(if writes then Counters(c.starved + n, c.batching + 2 * n, c.passed + n)
                      else Counters(c.starved, c.batching + 2 * n, 0), w, 1)
    decreases n
  {
    if n != 0 {
      var p := Pick(true, writes, NextRead, false, false);
      Reach(c, p, w, 1);
      var d := if writes then Counters(c.starved + 1, c.batching + 2, c.passed + 1)
               else Counters(c.starved, c.batching + 2, 0);
      assert Picked(c, p, w, 1) == d;
      ReachSkips(d, n - 1, writes, w);
    } else {
      assert c == if writes then Counters(c.starved + n, c.batching + 2 * n, c.passed + n)
                  else Counters(c.starved, c.batching + 2 * n, 0);
    }
  }

  /** The counter stands where one more read out of sequence wraps it to zero: a whole batch
      follows. */
  lemma ReachWrapped(c: Counters, w: nat, f: nat)
    requires Reachable(c, w, f) && 1 <= f <= INT_MAX && c.starved <= w && c.batching == UINT_MAX + 1 - f
    ensures Reachable(Counters(c.starved, f, c.passed + f), w, f)
  {
    var p := Pick(true, true, NextRead, false, false);
    Reach(c, p, w, f);
    var d := Counters(c.starved, 1, c.passed + 1);
    assert Picked(c, p, w, f) == d;
    ReachBatch(d, f - 1, true, w, f);
  }

  /** The first read of all. */
  lemma ReachFirst(w: nat, f: nat)
    requires f <= INT_MAX
    ensures Reachable(Counters(0, 1, 0), w, f)
  {
    var c, p := Counters(0, 0, 0), Pick(true, false, NoNext, false, true);
    assert Run([], w, f) && After([], w, f) == c;
    Reach(c, p, w, f);
  }

  /** A batch size of one, and enough finds to take the counter all the way round. */
  lemma SmallBatchOverruns(w: nat)
    requires INT_MAX <= w
    ensures Reachable(Counters(w, 1, w + 2), w, 1)
  {
    ReachFirst(w, 1);
    ReachSkips(Counters(0, 1, 0), INT_MAX, false, w);
    ReachWrapped(Counters(0, UINT_MAX, 0), w, 1);
    ReachSkips(Counters(0, 1, 1), INT_MAX, true, w);
    ReachWrapped(Counters(INT_MAX, UINT_MAX, INT_MAX + 1), w, 1);
    ReachRounds(Counters(INT_MAX, 1, INT_MAX + 2), w - INT_MAX, w, 1);
  }

  /** A batch size of a third of the counter's range: one read out of sequence takes a batch that
      is used up to where the next one wraps. */
  lemma LargeBatchOverruns(w: nat, f: nat)
    requires 1 <= w && 3 * f == UINT_MAX
    ensures Reachable(Counters(w, f, (w + 1) * f + 1), w, f)
  {
    ReachFirst(w, f);
    ReachBatch(Counters(0, 1, 0), f - 1, false, w, f);
    var c := Counters(0, f, 0);
    var p := Pick(true, false, NextRead, false, false);
    Reach(c, p, w, f);
    assert Picked(c, p, w, f) == Counters(0, 2 * f + 1, 0);
    ReachWrapped(Counters(0, 2 * f + 1, 0), w, f);
    var d := Counters(0, f, f);
    var q := Pick(true, true, NextRead, false, false);
    Reach(d, q, w, f);
    assert Picked(d, q, w, f) == Counters(1, 2 * f + 1, f + 1);
    ReachWrapped(Counters(1, 2 * f + 1, f + 1), w, f);
    ReachRounds(Counters(1, f, 2 * f + 1), w - 1, w, f);
    assert 2 * f + 1 + (w - 1) * f == (w + 1) * f + 1;
  }

  /** Over every run, the reads picked while a write waits stay within the bound, if and only if
      the settings are fair. */
  lemma BoundHoldsIff(w: nat, f: nat)
    requires f <= INT_MAX
    ensures (forall c | Reachable(c, w, f) :: c.passed <= Bound(w, f)) <==> Fair(w, f)
  {
    if Fair(w, f) {
      forall c | Reachable(c, w, f) ensures c.passed <= Bound(w, f) {
        var ps :| Run(ps, w, f) && After(ps, w, f) == c;
        RunKeepsRation(ps, w, f);
        RationBounds(c, w, f);
      }
    } else if f == 1 {
      SmallBatchOverruns(w);
    } else {
      LargeBatchOverruns(w, f);
    }
  }
}
