/** What the barrier proxy transfers, and where the next sweep of sorted dispatch starts. */
module BarrierProxy {
  import opened Collections
  import opened OrderedPhases
  import opened Barrier
  import opened BarrierInvariant
  import opened BarrierOrdering

  /** While a sequence runs, its barrier proxy stands for the same sectors, in the same direction, as
      the barrier that was submitted. */
  predicate Mirrors(s: State) {
    s.ordseq != IDLE ==>
      var b, o := Get(s, Bar), Get(s, s.orig);
      b.fs && b.write == o.write && b.sector == o.sector && b.end == o.end
  }

  /** The sweep starts at the end of the request that was last made the boundary. */
  predicate BoundaryEnds(s: State) {
    s.boundary.Some? ==> s.boundary.value in s.log && s.endSector == Get(s, s.boundary.value).end
  }

  predicate Faithful(s: State) {
    Mirrors(s) && BoundaryEnds(s)
  }

  /** What a transfer is does not change. */
  predicate SameTransfer(a: Request, b: Request) {
    a.fs == b.fs && a.write == b.write && a.sector == b.sector && a.end == b.end
  }

  lemma SameFaithful(s: State, t: State)
    requires Faithful(s) && t.boundary == s.boundary && t.endSector == s.endSector && s.log <= t.log
    requires t.ordseq != IDLE ==> s.ordseq != IDLE && t.orig == s.orig
    requires s.ordseq != IDLE ==> SameTransfer(Get(s, Bar), Get(t, Bar)) && SameTransfer(Get(s, s.orig), Get(t, s.orig))
    requires s.boundary.Some? ==> Get(t, s.boundary.value).end == Get(s, s.boundary.value).end
    ensures Faithful(t)
  {
  }

  lemma Logged(s: State)
    requires Inv(s)
    ensures s.ordseq != IDLE ==> s.orig in s.log
    ensures forall r | r in s.log :: r.Rq?
    ensures forall r | r in s.sorted :: r in s.log
  {
  }

  lemma EnterFaithful(s: State, r: Ref, rq: Request)
    requires Inv(s) && Faithful(s) && r.Rq? && r !in s.log
    ensures Faithful(Enter(s, r, rq))
  {
    Logged(s);
    hide Inv;
  }

  lemma SoftFaithful(s: State, r: Ref, soft: bool, started: bool)
    requires Faithful(s)
    ensures Faithful(Put(s, r, Get(s, r).(soft := soft, started := started)))
  {
  }

  lemma QueuesFaithful(s: State, queue: seq<Ref>, sorted: set<Ref>)
    requires Faithful(s)
    ensures Faithful(s.(queue := queue, sorted := sorted))
  {
  }

  lemma DispatchFaithful(s: State, r: Ref, toTail: bool)
    requires Faithful(s) && r in s.log
    ensures Faithful(Dispatch(s, r, toTail))
  {
    hide SortIndex, InsertAt;
  }

  lemma DispatchHeld(s: State, r: Ref, toTail: bool)
    ensures Dispatch(s, r, toTail).sorted == s.sorted - {r} && Dispatch(s, r, toTail).log == s.log
  {
    hide SortIndex;
  }

  lemma {:induction false} DrainFaithful(s: State, cs: seq<Choice>)
    requires Faithful(s) && Drains(cs, s.sorted) && forall x | x in s.sorted :: x in s.log
    ensures Faithful(DrainElevator(s, cs))
    decreases |cs|
  {
    if cs != [] {
      hide Faithful, Dispatch;
      DispatchFaithful(s, cs[0].r, cs[0].toTail);
      DispatchHeld(s, cs[0].r, cs[0].toTail);
      DrainFaithful(Dispatch(s, cs[0].r, cs[0].toTail), cs[1..]);
    }
  }

  lemma SubmitFaithful(s: State, e: Event)
    requires Inv(s) && Faithful(s) && Enabled(s, e) && (e.SubmitSorted? || e.SubmitFront?)
    ensures Faithful(Step(s, e))
  {
    hide Inv, Faithful, Enter;
    var rq := if e.SubmitFront? then Request(false, false, 0, 0, false, true, false, false)
              else Request(true, e.write, e.sector, e.end, false, false, false, false);
    EnterFaithful(s, e.r, rq);
    var s1 := Enter(s, e.r, rq);
    if e.SubmitFront? {
      QueuesFaithful(s1, [e.r] + s1.queue, s1.sorted);
    } else {
      QueuesFaithful(s1, s1.queue, s1.sorted + {e.r});
    }
  }

  lemma SubmitBackFaithful(s: State, e: Event)
    requires Inv(s) && Faithful(s) && Enabled(s, e) && e.SubmitBack?
    ensures Faithful(Step(s, e))
  {
    hide Inv, Faithful;
    var rq := Request(e.fs, e.write, e.sector, e.end, e.barrier, false, false, false);
    Logged(s);
    EnterFaithful(s, e.r, rq);
    var s1 := Enter(s, e.r, rq);
    assert s1.sorted == s.sorted && s1.log == s.log + [e.r];
    BackFaithful(s1, e.r, e.choices);
  }

  lemma BackFaithful(s: State, r: Ref, cs: seq<Choice>)
    requires Faithful(s) && Drains(cs, s.sorted) && forall x | x in s.sorted :: x in s.log
    ensures var d := DrainElevator(Put(s, r, Get(s, r).(soft := true)), cs); Faithful(d.(queue := d.queue + [r]))
  {
    hide Faithful, DrainElevator;
    SoftFaithful(s, r, true, Get(s, r).started);
    var s2 := Put(s, r, Get(s, r).(soft := true));
    DrainFaithful(s2, cs);
    var d := DrainElevator(s2, cs);
    QueuesFaithful(d, d.queue + [r], d.sorted);
  }

  lemma StartFaithful(s: State)
    requires Inv(s) && Faithful(s) && BarrierAtHead(s)
    ensures Faithful(StartOrdered(s))
  {
    Logged(s);
    hide Inv;
  }

  lemma GateFaithful(s: State)
    requires Inv(s) && Faithful(s) && s.queue != []
    ensures Faithful(DoOrdered(s).0)
  {
    if s.ordseq == IDLE { IdleHead(s); }
    hide Inv, StartOrdered, Faithful;
    if BarrierAtHead(s) {
      StartFaithful(s);
    } else {
      WarnedFaithful(s, DoOrdered(s).0.warned);
    }
  }

  lemma WarnedFaithful(s: State, warned: bool)
    requires Faithful(s)
    ensures Faithful(s.(warned := warned))
  {
  }

  /** A request handed out when it is the boundary, or when there is none, is where the next sweep
      starts. */
  lemma HandOutFaithful(s: State, r: Ref)
    requires Faithful(s)
    ensures Faithful(HandOut(s, r))
    ensures s.boundary.None? || s.boundary == Some(r) ==> HandOut(s, r).boundary.None? && HandOut(s, r).endSector == Get(s, r).end
  {
    StartedFaithful(s, r);
    hide Faithful;
    var t := Started(s, r);
    if s.boundary.None? || s.boundary == Some(r) { NoBoundary(t, Get(s, r).end); }
  }

  lemma StartedFaithful(s: State, r: Ref)
    requires Faithful(s)
    ensures Faithful(Started(s, r)) && Get(Started(s, r), r).end == Get(s, r).end
  {
  }

  lemma NoBoundary(s: State, end: nat)
    requires Faithful(s)
    ensures Faithful(s.(endSector := end, boundary := None))
  {
  }

  lemma FetchFaithful(s: State)
    requires Inv(s) && Faithful(s) && s.queue != []
    ensures Faithful(Fetch(s).0)
  {
    hide Inv, Faithful, DoOrdered, HandOut;
    GateFaithful(s);
    var (u, got) := DoOrdered(s);
    if got.Some? { HandOutFaithful(u, got.value); }
  }

  /** The parts of the state that a completion leaves alone. */
  predicate SameRequests(s: State, t: State) {
    && t.rqs == s.rqs && t.boundary == s.boundary && t.endSector == s.endSector && t.log == s.log && t.orig == s.orig
    && (s.ordseq == IDLE ==> t.ordseq == IDLE)
  }

  lemma CompleteFrame(s: State, phase: int, error: int)
    requires s.ordseq != IDLE
    ensures SameRequests(s, CompleteSeq(s, phase, error))
  {
    hide Has, Set, CurSeq;
  }

  lemma FinishFaithful(s: State, r: Ref, error: int)
    requires Inv(s) && Faithful(s) && r in s.driver
    ensures Faithful(End(s, r, error))
  {
    hide Faithful, CompleteSeq;
    if r.Rq? {
      EndRetires(s, r, error);
      hide Inv, End;
      if DrainTest(Retired(s, r)) { CompleteFrame(Retired(s, r), DRAIN, 0); }
    } else {
      ProxyTurn(s, r);
      hide Inv;
      CompleteFrame(ProxyGone(s, r), PhaseOf(r), error);
    }
    assert SameRequests(s, End(s, r, error));
    hide End;
    SameFaithful(s, End(s, r, error));
  }

  lemma StepFaithful(s: State, e: Event)
    requires Inv(s) && Faithful(s) && Enabled(s, e)
    ensures Faithful(Step(s, e))
  {
    hide Inv, Faithful;
    match e
    case SubmitSorted(_, _, _, _) => SubmitFaithful(s, e);
    case SubmitBack(_, _, _, _, _, _, _) => SubmitBackFaithful(s, e);
    case SubmitFront(_) => SubmitFaithful(s, e);
    case DispatchOne(r, toTail) =>
      Logged(s);
      DispatchFaithful(s, r, toTail);
    case FetchHead => FetchFaithful(s);
    case Dequeue(r) => DequeueFaithful(s, r);
    case Finish(r, error) => FinishFaithful(s, r, error);
    case RequeueOne(r) => RequeueFaithful(s, r);
    case SetFlush(_, _) => SameFaithful(s, Step(s, e));
  }

  lemma DequeueFaithful(s: State, r: Ref)
    requires Faithful(s)
    ensures Faithful(DequeueRq(s, r))
  {
    hide Minus;
  }

  lemma RequeueFaithful(s: State, r: Ref)
    requires Faithful(s)
    ensures Faithful(Requeue(s, r))
  {
    hide RequeueIndex, ReqSeq, InsertAt;
  }

  /** Over every run, the barrier proxy transfers what the barrier asked for. */
  lemma {:induction false} ProxyMirrorsBarrier(preflush: bool, postflush: bool, es: seq<Event>)
    requires Run(Init(preflush, postflush), es) && NeverEarly(Init(preflush, postflush), es)
    ensures Faithful(After(Init(preflush, postflush), es))
    decreases |es|
  {
    hide Inv, Step, Enabled, EarlyEnd;
    if es != [] {
      var n := |es| - 1;
      ProxyMirrorsBarrier(preflush, postflush, es[..n]);
      RunKeepsInv(preflush, postflush, es[..n]);
      hide Faithful;
      StepFaithful(After(Init(preflush, postflush), es[..n]), es[n]);
    }
  }
}
