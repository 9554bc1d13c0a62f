/** What becomes of a barrier whose drain ended too early, over every continuation. */
module BarrierEarlyEnd {
  import opened Collections
  import opened OrderedPhases
  import opened Barrier
  import opened BarrierInvariant
  import opened BarrierOrdering

  /** The drain phase is marked complete and the barrier's own is not; nor has its proxy been
      handed out. */
  predicate BarPending(s: State) {
    && s.ordseq != IDLE && CurSeq(s.ordseq) > DRAIN && !Has(s.ordseq, BAR)
    && Bar !in s.driver && !Get(s, Bar).started
  }

  /** Submission i is still queued, not handed out, and has the colour of the barrier in progress,
      submission j, which came later. */
  predicate Waits(s: State, i: nat, j: nat) {
    && i < j < |s.log| && s.log[j] == s.orig
    && var x := s.log[i];
       && FsRq(s, x) && !Get(s, x).started && Get(s, x).color == Get(s, s.orig).color
       && x in s.queue && x !in s.driver && x !in s.sorted && x !in s.completed
  }

  predicate LeftBehind(s: State, i: nat, j: nat) {
    BarPending(s) && Waits(s, i, j)
  }

  /** The order is broken, or a WARN_ON says so. */
  ghost predicate Broken(s: State) {
    s.warned || !BarrierWaits(s)
  }

  predicate HandsOutBar(s: State, e: Event) {
    e.FetchHead? && s.queue != [] && Fetch(s).1 == Some(Bar)
  }

  // Steps.

  /** Steps that leave alone everything the property mentions. */
  lemma SameWaits(s: State, t: State, i: nat, j: nat)
    requires Waits(s, i, j) && s.log <= t.log && t.orig == s.orig
    requires Get(t, s.orig).color == Get(s, s.orig).color
    requires var x := s.log[i];
             && Get(t, x).fs && !Get(t, x).started && Get(t, x).color == Get(s, x).color
             && x in t.queue && x !in t.driver && x !in t.sorted && x !in t.completed
    ensures Waits(t, i, j)
  {
  }

  lemma EnterLeavesBehind(s: State, r: Ref, rq: Request, i: nat, j: nat)
    requires LeftBehind(s, i, j) && r.Rq? && r !in s.log
    ensures LeftBehind(Enter(s, r, rq), i, j) && r != s.log[i] && r != s.orig
  {
    SameWaits(s, Enter(s, r, rq), i, j);
    hide Waits;
  }

  lemma DispatchLeavesBehind(s: State, r: Ref, toTail: bool, i: nat, j: nat)
    requires LeftBehind(s, i, j)
    ensures LeftBehind(Dispatch(s, r, toTail), i, j)
  {
    hide MayPass, SortIndex;
    var t := Dispatch(s, r, toTail);
    InsertAtFacts(s.queue, SortIndex(s, Get(s, r), |s.queue|), r);
    assert s.log[i] in t.queue;
    SameWaits(s, t, i, j);
  }

  lemma {:induction false} DrainLeavesBehind(s: State, cs: seq<Choice>, i: nat, j: nat)
    requires LeftBehind(s, i, j)
    ensures LeftBehind(DrainElevator(s, cs), i, j)
    decreases |cs|
  {
    hide LeftBehind;
    if cs != [] {
      DispatchLeavesBehind(s, cs[0].r, cs[0].toTail, i, j);
      DrainLeavesBehind(Dispatch(s, cs[0].r, cs[0].toTail), cs[1..], i, j);
    }
  }

  lemma SoftenLeavesBehind(s: State, r: Ref, i: nat, j: nat)
    requires LeftBehind(s, i, j)
    ensures LeftBehind(Put(s, r, Get(s, r).(soft := true)), i, j)
  {
    SameWaits(s, Put(s, r, Get(s, r).(soft := true)), i, j);
  }

  lemma QueueLeavesBehind(s: State, q: seq<Ref>, r: Ref, i: nat, j: nat)
    requires LeftBehind(s, i, j) && (forall x | x in s.queue :: x in q) && r != s.log[i]
    ensures LeftBehind(s.(queue := q, sorted := s.sorted + {r}), i, j) && LeftBehind(s.(queue := q), i, j)
  {
  }

  lemma SubmitLeavesBehind(s: State, e: Event, i: nat, j: nat)
    requires LeftBehind(s, i, j) && Enabled(s, e) && (e.SubmitSorted? || e.SubmitFront?)
    ensures LeftBehind(Step(s, e), i, j)
  {
    var rq := if e.SubmitFront? then Request(false, false, 0, 0, false, true, false, false)
              else Request(true, e.write, e.sector, e.end, false, false, false, false);
    EnterLeavesBehind(s, e.r, rq, i, j);
    hide LeftBehind, Enter;
    var s1 := Enter(s, e.r, rq);
    LogGrows(s, e.r, rq, i);
    QueueLeavesBehind(s1, [e.r] + s1.queue, e.r, i, j);
    QueueLeavesBehind(s1, s1.queue, e.r, i, j);
  }

  lemma LogGrows(s: State, r: Ref, rq: Request, i: nat)
    requires i < |s.log|
    ensures Enter(s, r, rq).log == s.log + [r]
  {
  }

  lemma SubmitBackLeavesBehind(s: State, e: Event, i: nat, j: nat)
    requires LeftBehind(s, i, j) && Enabled(s, e) && e.SubmitBack?
    ensures LeftBehind(Step(s, e), i, j)
  {
    var rq := Request(e.fs, e.write, e.sector, e.end, e.barrier, false, false, false);
    hide LeftBehind, Enter;
    EnterLeavesBehind(s, e.r, rq, i, j);
    var s1 := Enter(s, e.r, rq);
    SoftenLeavesBehind(s1, e.r, i, j);
    var s2 := Put(s1, e.r, Get(s1, e.r).(soft := true));
    DrainLeavesBehind(s2, e.choices, i, j);
    var s3 := DrainElevator(s2, e.choices);
    AppendLeavesBehind(s3, e.r, i, j);
  }

  lemma AppendLeavesBehind(s: State, r: Ref, i: nat, j: nat)
    requires LeftBehind(s, i, j)
    ensures LeftBehind(s.(queue := s.queue + [r]), i, j)
  {
  }

  lemma StartedLeavesBehind(s: State, r: Ref, i: nat, j: nat)
    requires LeftBehind(s, i, j) && r != Bar && r != s.log[i]
    ensures LeftBehind(HandOut(s, r), i, j)
  {
    HandOutFrame(s, r);
    var t := HandOut(s, r);
    hide HandOut;
    assert BarPending(t);
    hide BarPending;
    SameWaits(s, t, i, j);
  }

  /** While the sequence runs, blk_do_ordered changes nothing but the warning, and it warns of
      a request of an earlier phase. */
  lemma DoOrderedWhileRunning(s: State)
    requires s.ordseq != IDLE && s.queue != []
    ensures var (t, got) := DoOrdered(s);
            && (got.Some? ==> got.value == s.queue[0]) && t == s.(warned := t.warned)
            && (Get(s, s.queue[0]).fs && ReqSeq(s, s.queue[0]) < CurSeq(s.ordseq) ==> t.warned)
  {
  }

  lemma HandOutKeepsWarning(s: State, r: Ref)
    ensures HandOut(s, r).warned == s.warned
    ensures HandOut(s, r).log == s.log && HandOut(s, r).orig == s.orig && HandOut(s, r).completed == s.completed
    ensures forall x :: Get(HandOut(s, r), x).fs == Get(s, x).fs
  {
    HandOutFrame(s, r);
    hide HandOut;
  }

  lemma WarningLeavesBehind(s: State, warned: bool, i: nat, j: nat)
    requires LeftBehind(s, i, j)
    ensures LeftBehind(s.(warned := warned), i, j)
  {
  }

  /** Either the submission is fetched, with a warning, or it stays behind. */
  lemma FetchLeavesBehind(s: State, i: nat, j: nat)
    requires LeftBehind(s, i, j) && s.queue != [] && Fetch(s).1 != Some(Bar)
    ensures Fetch(s).0.warned || LeftBehind(Fetch(s).0, i, j)
  {
    DoOrderedWhileRunning(s);
    hide DoOrdered, HandOut;
    var (t, got) := DoOrdered(s);
    HandOutKeepsWarning(t, s.queue[0]);
    WarningLeavesBehind(s, t.warned, i, j);
    if got.Some? && s.queue[0] != s.log[i] {
      StartedLeavesBehind(t, s.queue[0], i, j);
    }
  }

  /** Handing out the proxy now breaks the order. */
  lemma HandingOutBreaks(s: State, i: nat, j: nat)
    requires LeftBehind(s, i, j) && s.queue != [] && Fetch(s).1 == Some(Bar)
    ensures Broken(s)
  {
    DoOrderedWhileRunning(s);
    hide DoOrdered, HandOut;
    HandOutKeepsWarning(DoOrdered(s).0, Bar);
    var t := Fetch(s).0;
    assert t.log[j] == t.orig && FsRq(t, t.log[i]) && t.log[i] !in t.completed;
  }

  lemma OthersStay(q: seq<Ref>, r: Ref, x: Ref)
    requires x in q && x != r
    ensures x in Minus(q, r)
  {
    var i := IndexOf(q, r);
    var k :| 0 <= k < |q| && q[k] == x;
    assert Minus(q, r)[if k < i then k else if i < |q| then k - 1 else k] == x;
  }

  lemma DequeueLeavesBehind(s: State, r: Ref, i: nat, j: nat)
    requires LeftBehind(s, i, j) && r in s.queue && Get(s, r).started
    ensures LeftBehind(DequeueRq(s, r), i, j)
  {
    hide Minus, IndexOf;
    OthersStay(s.queue, r, s.log[i]);
    SameWaits(s, DequeueRq(s, r), i, j);
  }

  /** With the barrier's own bit open, no other phase ends the sequence. */
  lemma OtherPhaseDone(m: Mask, p: int)
    requires m != IDLE && CurSeq(m) > DRAIN && !Has(m, BAR) && (p == PREFLUSH || p == POSTFLUSH)
    ensures Set(m, p) != IDLE && DRAIN < CurSeq(Set(m, p)) < DONE && !Has(Set(m, p), BAR)
  {
  }

  lemma FinishLeavesBehind(s: State, r: Ref, error: int, i: nat, j: nat)
    requires LeftBehind(s, i, j) && r in s.driver
    ensures LeftBehind(End(s, r, error), i, j)
  {
    if !r.Rq? { OtherPhaseDone(s.ordseq, PhaseOf(r)); }
    EndWhilePending(s, r, error);
    SameWaits(s, End(s, r, error), i, j);
    hide Waits;
  }

  lemma EndWhilePending(s: State, r: Ref, error: int)
    requires BarPending(s) && r in s.driver
    requires !r.Rq? ==> CurSeq(Set(s.ordseq, PhaseOf(r))) != DONE
    ensures var t := End(s, r, error);
            && t.log == s.log && t.orig == s.orig && t.rqs == s.rqs && t.queue == s.queue
            && t.sorted == s.sorted && t.driver == s.driver - {r}
            && t.completed == (if r.Rq? then s.completed + {r} else s.completed)
            && (t.ordseq == s.ordseq || (!r.Rq? && t.ordseq == Set(s.ordseq, PhaseOf(r))))
  {
  }

  lemma RequeueLeavesBehind(s: State, r: Ref, i: nat, j: nat)
    requires LeftBehind(s, i, j) && r in s.driver
    ensures LeftBehind(Requeue(s, r), i, j)
  {
    hide RequeueIndex, ReqSeq;
    var t := Requeue(s, r);
    var s1 := Put(s, r, Get(s, r).(started := false, soft := true))
              .(inFlight := s.inFlight - Count(Accounted(s, r)), driver := s.driver - {r});
    var k := if s.ordseq == IDLE then 0 else RequeueIndex(s1, ReqSeq(s1, r), 0);
    InsertAtFacts(s1.queue, k, r);
    assert s.log[i] in t.queue;
    SameWaits(s, t, i, j);
  }

  lemma StepLeavesBehind(s: State, e: Event, i: nat, j: nat)
    requires LeftBehind(s, i, j) && Enabled(s, e) && !HandsOutBar(s, e)
    ensures Step(s, e).warned || LeftBehind(Step(s, e), i, j)
  {
    hide LeftBehind;
    match e
    case SubmitSorted(_, _, _, _) => SubmitLeavesBehind(s, e, i, j);
    case SubmitBack(_, _, _, _, _, _, _) => SubmitBackLeavesBehind(s, e, i, j);
    case SubmitFront(_) => SubmitLeavesBehind(s, e, i, j);
    case DispatchOne(r, toTail) => DispatchLeavesBehind(s, r, toTail, i, j);
    case FetchHead => FetchLeavesBehind(s, i, j);
    case Dequeue(r) => DequeueLeavesBehind(s, r, i, j);
    case Finish(r, error) => FinishLeavesBehind(s, r, error, i, j);
    case RequeueOne(r) => RequeueLeavesBehind(s, r, i, j);
    case SetFlush(preflush, postflush) => FlushLeavesBehind(s, preflush, postflush, i, j);
  }

  lemma FlushLeavesBehind(s: State, preflush: bool, postflush: bool, i: nat, j: nat)
    requires LeftBehind(s, i, j)
    ensures LeftBehind(s.(preflush := preflush, postflush := postflush), i, j)
  {
  }

  // Over a whole continuation.

  lemma {:induction false} RunPrefix(s: State, es: seq<Event>, n: nat)
    requires Run(s, es) && n <= |es|
    ensures Run(s, es[..n])
    decreases |es|
  {
    if n == |es| {
      assert es[..n] == es;
    } else {
      RunPrefix(s, es[..|es| - 1], n);
      assert es[..|es| - 1][..n] == es[..n];
    }
  }

  /** The run is broken after its first n steps. */
  ghost predicate BrokenAt(s: State, es: seq<Event>, n: int) {
    0 <= n <= |es| && Run(s, es[..n]) && Broken(After(s, es[..n]))
  }

  lemma {:induction false} StaysBehind(s: State, es: seq<Event>, i: nat, j: nat)
    requires Run(s, es) && LeftBehind(s, i, j)
    ensures LeftBehind(After(s, es), i, j) || exists n :: BrokenAt(s, es, n)
    decreases |es|
  {
    hide LeftBehind, Broken, HandsOutBar, Step, Enabled;
    if es != [] {
      var m := |es| - 1;
      StaysBehind(s, es[..m], i, j);
      if n :| BrokenAt(s, es[..m], n) {
        assert es[..m][..n] == es[..n];
        assert BrokenAt(s, es, n);
      } else {
        StillBehind(s, es, i, j);
      }
    }
  }

  lemma StillBehind(s: State, es: seq<Event>, i: nat, j: nat)
    requires es != [] && Run(s, es) && LeftBehind(After(s, es[..|es| - 1]), i, j)
    ensures LeftBehind(After(s, es), i, j) || BrokenAt(s, es, |es| - 1) || BrokenAt(s, es, |es|)
  {
    hide LeftBehind, BarrierWaits, Fetch, Step, Enabled;
    var m := |es| - 1;
    var t := After(s, es[..m]);
    assert es[..|es|] == es;
    if HandsOutBar(t, es[m]) {
      HandingOutBreaks(t, i, j);
    } else {
      StepLeavesBehind(t, es[m], i, j);
    }
  }

  /** The request that a drain ended too early leaves behind. */
  lemma EarlyEndHides(s: State, r: Ref, error: int) returns (i: nat, j: nat)
    requires Inv(s) && r in s.driver && r.Rq? && EndsTooEarly(Retired(s, r))
    requires !Get(s, s.queue[FirstKeyed(Retired(s, r), 0)]).started
    ensures LeftBehind(End(s, r, error), i, j)
  {
    hide Inv, LeftBehind;
    var t := Retired(s, r);
    RetiredKeepsInv(s, r);
    EndRetires(s, r, error);
    EarlyEndLeavesBehind(t);
    i, j := HiddenOne(t);
    MarkedBehind(t, i, j);
  }

  lemma MarkedBehind(s: State, i: nat, j: nat)
    requires DrainTest(s) && Waits(s, i, j) && Bar !in s.driver && !Get(s, Bar).started && !Has(s.ordseq, BAR)
    ensures LeftBehind(s.(ordseq := Set(s.ordseq, DRAIN)), i, j)
  {
  }

  lemma HiddenOne(s: State) returns (i: nat, j: nat)
    requires Inv(s) && EndsTooEarly(s) && !Get(s, s.queue[FirstKeyed(s, 0)]).started
    ensures Waits(s, i, j) && Bar !in s.driver && !Get(s, Bar).started && !Has(s.ordseq, BAR)
  {
    FirstWhileDraining(s);
    var h := FirstKeyed(s, 0);
    var x := s.queue[h];
    assert ReqSeq(s, x) == DRAIN;
    hide Places, History, Chain, QueueInOrder, Standing, Fences, Flight, Phases;
    BarNotStarted(s);
    EarlierQueued(s, x);
    i, j := LogOrder(s, x);
  }

  lemma EarlierQueued(s: State, x: Ref)
    requires Places(s) && History(s) && Chain(s) && s.ordseq != IDLE
    requires x in s.queue && FsRq(s, x) && Epoch(s, x) <= s.ended
    ensures x in s.log && s.orig in s.log && Key(s, x) < Key(s, s.orig)
    ensures x !in s.driver && x !in s.sorted && x !in s.completed
  {
    assert s.orig in s.log && x in s.log;
    assert x != s.orig;
  }

  lemma LogOrder(s: State, x: Ref) returns (i: nat, j: nat)
    requires History(s) && x in s.log && s.orig in s.log && Key(s, x) < Key(s, s.orig)
    ensures i < j < |s.log| && s.log[i] == x && s.log[j] == s.orig
  {
    i :| 0 <= i < |s.log| && s.log[i] == x;
    j :| 0 <= j < |s.log| && s.log[j] == s.orig;
  }

  lemma BarNotStarted(s: State)
    requires Standing(s) && Phases(s) && s.ordseq != IDLE && CurSeq(s.ordseq) == DRAIN
    ensures Bar !in s.driver && !Get(s, Bar).started && !Has(s.ordseq, BAR)
  {
    assert Live(s, Bar);
  }

  /** Once the drain has ended too early over a request that was not handed out, every
      continuation that hands out the barrier proxy has warned, or has broken the order, at some
      point up to then. */
  lemma EarlyEndBreaksOrder(s: State, r: Ref, error: int, es: seq<Event>)
    requires Inv(s) && r in s.driver && r.Rq? && EndsTooEarly(Retired(s, r))
    requires !Get(s, s.queue[FirstKeyed(Retired(s, r), 0)]).started
    requires Run(End(s, r, error), es) && HandsOutBar(After(End(s, r, error), es), FetchHead)
    ensures exists n :: BrokenAt(End(s, r, error), es, n)
  {
    hide Inv, EndsTooEarly, LeftBehind, Broken, End;
    var u := End(s, r, error);
    var i, j := EarlyEndHides(s, r, error);
    StaysBehind(u, es, i, j);
    if LeftBehind(After(u, es), i, j) {
      HandingOutBreaks(After(u, es), i, j);
      assert es[..|es|] == es;
      assert BrokenAt(u, es, |es|);
    }
  }
}
