/** What barrier ordering promises over whole runs, when it fails, and exactly why. */
module BarrierOrdering {
  import opened Collections
  import opened OrderedPhases
  import opened Barrier
  import opened BarrierInvariant

  // Runs.

  ghost predicate Run(s: State, es: seq<Event>)
    decreases |es|, 0
  {
    es == [] ||
    var n := |es| - 1;
    Run(s, es[..n]) && Enabled(After(s, es[..n]), es[n])
  }

  ghost function After(s: State, es: seq<Event>): State
    requires Run(s, es)
    decreases |es|, 1
  {
    if es == [] then s
    else Step(After(s, es[..|es| - 1]), es[|es| - 1])
  }

  // What is promised.

  /** Every fs request submitted before the barrier in progress has completed. */
  ghost predicate EarlierDone(s: State) {
    forall i, j | 0 <= i < j < |s.log| && s.log[j] == s.orig && FsRq(s, s.log[i]) ::
      s.log[i] in s.completed
  }

  /** No fs request submitted after the barrier in progress has reached the driver. */
  ghost predicate LaterUntouched(s: State) {
    s.ordseq != IDLE ==>
      forall i, j | 0 <= j < i < |s.log| && s.log[j] == s.orig && FsRq(s, s.log[i]) ::
        !Get(s, s.log[i]).started && s.log[i] !in s.driver && s.log[i] !in s.completed
  }

  /** Fetching hands out the barrier proxy only once everything before it is complete. */
  ghost predicate BarrierWaits(s: State) {
    s.queue != [] && Fetch(s).1 == Some(Bar) ==> EarlierDone(Fetch(s).0)
  }

  ghost predicate Ordered(s: State) {
    LaterUntouched(s) && BarrierWaits(s) && !s.bug && !s.warned
  }

  // From the invariant to the promise.

  lemma DrainedMeansEarlierDone(s: State)
    requires Inv(s) && s.ordseq != IDLE && Has(s.ordseq, DRAIN)
    ensures EarlierDone(s)
  {
    forall i, j | 0 <= i < j < |s.log| && s.log[j] == s.orig && FsRq(s, s.log[i])
      ensures s.log[i] in s.completed
    {
      var r := s.log[i];
      assert r in s.log && s.log[j] in s.log;
      assert Key(s, r) <= Key(s, s.orig);
      assert r != s.orig;
      assert Placed(s, r);
    }
  }

  lemma InvLaterUntouched(s: State)
    requires Inv(s)
    ensures LaterUntouched(s)
  {
    if s.ordseq != IDLE {
      forall i, j | 0 <= j < i < |s.log| && s.log[j] == s.orig && FsRq(s, s.log[i])
        ensures !Get(s, s.log[i]).started && s.log[i] !in s.driver && s.log[i] !in s.completed
      {
        var r := s.log[i];
        assert r in s.log && s.log[j] in s.log;
        assert Key(s, s.orig) <= Key(s, r);
        assert r != s.orig;
        assert Placed(s, r);
        assert Epoch(s, r) > s.ended;
      }
    }
  }

  /** Only an open drain phase can hold the barrier proxy back, so handing it out means
      the drain phase is over. */
  lemma FetchedBarIsDrained(s: State)
    requires Inv(s) && s.queue != [] && Fetch(s).1 == Some(Bar)
    ensures Fetch(s).0.ordseq != IDLE && Has(Fetch(s).0.ordseq, DRAIN)
  {
    DoOrderedKeepsInv(s);
    var u := DoOrdered(s).0;
    assert MayStart(u, Bar);
    assert Fetch(s).0.ordseq == u.ordseq;
    assert Has(u.ordseq, DRAIN);
  }

  lemma InvOrdered(s: State)
    requires Inv(s)
    ensures Ordered(s)
  {
    InvLaterUntouched(s);
    if s.queue != [] && Fetch(s).1 == Some(Bar) {
      FetchedBarIsDrained(s);
      FetchKeepsInv(s);
      DrainedMeansEarlierDone(Fetch(s).0);
    }
  }

  // Who may insert at the head.

  /** The queue is waiting for requests before the barrier. */
  predicate Draining(s: State) {
    s.ordseq != IDLE && CurSeq(s.ordseq) == DRAIN
  }

  /** What a caller of ELEVATOR_INSERT_FRONT can check first: a request stamped now would
      not carry the colour of a later request while the queue is draining. */
  predicate FrontSafe(s: State) {
    Draining(s) ==> s.ordcolor == Get(s, s.orig).color
  }

  /** A special request with the colour of a later one. */
  predicate LateSpecial(s: State, r: Ref) {
    r.Rq? && !Get(s, r).fs && ReqSeq(s, r) == DONE
  }

  /** An fs request the barrier in progress waits for. */
  predicate Early(s: State, r: Ref) {
    FsRq(s, r) && Epoch(s, r) <= s.ended
  }

  ghost predicate NothingHidden(s: State) {
    Draining(s) ==>
      forall i, j | 0 <= i < j < |s.queue| && LateSpecial(s, s.queue[i]) :: !Early(s, s.queue[j])
  }

  lemma NothingHiddenEndsInTime(s: State)
    requires Inv(s) && NothingHidden(s)
    ensures !EndsTooEarly(s)
  {
    if DrainTest(s) {
      FirstWhileDraining(s);
      var h := FirstKeyed(s, 0);
      assert LateSpecial(s, s.queue[0]) || h == 0;
      assert h == 0 || !Early(s, s.queue[h]);
    }
  }

  ghost predicate SameKinds(s: State, t: State) {
    && t.orig == s.orig && t.ended == s.ended && Get(t, s.orig).color == Get(s, s.orig).color
    && forall r: Ref | r.Rq? ::
         && Get(t, r).fs == Get(s, r).fs && Get(t, r).color == Get(s, r).color
         && Epoch(t, r) == Epoch(s, r)
  }

  /** Inserting r keeps the property when r is neither late-special with an early request
      behind it nor early with a late special in front of it. */
  lemma InsertHidesNothing(s: State, t: State, i: nat, r: Ref)
    requires NothingHidden(s) && SameKinds(s, t) && (Draining(t) ==> Draining(s))
    requires i <= |s.queue| && t.queue == InsertAt(s.queue, i, r)
    requires Draining(s) && LateSpecial(s, r) ==>
               forall k | i <= k < |s.queue| :: !Early(s, s.queue[k])
    requires Draining(s) && Early(s, r) ==> i == 0
    ensures NothingHidden(t)
  {
    if Draining(t) {
      forall a, b | 0 <= a < b < |t.queue| && LateSpecial(t, t.queue[a])
        ensures !Early(t, t.queue[b])
      {
        var a', b' := if a < i then a else a - 1, if b < i then b else b - 1;
        if a != i { assert t.queue[a] == s.queue[a']; }
        if b != i { assert t.queue[b] == s.queue[b']; }
      }
    }
  }

  lemma RemoveHidesNothing(s: State, t: State, i: nat)
    requires NothingHidden(s) && SameKinds(s, t) && (Draining(t) ==> Draining(s))
    requires i < |s.queue| && t.queue == s.queue[..i] + s.queue[i + 1..]
    ensures NothingHidden(t)
  {
    if Draining(t) {
      forall a, b | 0 <= a < b < |t.queue| && LateSpecial(t, t.queue[a])
        ensures !Early(t, t.queue[b])
      {
        var a', b' := if a < i then a else a + 1, if b < i then b else b + 1;
        assert t.queue[a] == s.queue[a'] && t.queue[b] == s.queue[b'];
      }
    }
  }

  lemma SameQueueHidesNothing(s: State, t: State)
    requires NothingHidden(s) && SameKinds(s, t) && (Draining(t) ==> Draining(s))
    requires t.queue == s.queue
    ensures NothingHidden(t)
  {
  }

  lemma RequeuedHidesNothing(s: State, r: Ref, i: nat)
    requires NothingHidden(s) && i <= |s.queue|
    requires Draining(s) && LateSpecial(s, r) ==>
               forall k | i <= k < |s.queue| :: !Early(s, s.queue[k])
    requires Draining(s) && Early(s, r) ==> i == 0
    ensures NothingHidden(Requeued(s, r, InsertAt(s.queue, i, r)))
  {
    var t := Requeued(s, r, InsertAt(s.queue, i, r));
    assert SameKinds(s, t);
    InsertHidesNothing(s, t, i, r);
  }

  lemma RequeueHidesNothing(s: State, r: Ref)
    requires Inv(s) && NothingHidden(s) && r in s.driver
    ensures NothingHidden(Requeue(s, r))
  {
    var i := RequeueShape(s, r);
    if Draining(s) {
      if FsRq(s, r) {
        RequeueFitsFs(s, r, i);
      } else if LateSpecial(s, r) {
        LateSpecialBehind(s, r, i);
      }
    }
    RequeuedHidesNothing(s, r, i);
  }

  /** A late special request is requeued behind everything the barrier waits for. */
  lemma LateSpecialBehind(s: State, r: Ref, i: nat)
    requires Inv(s) && NothingHidden(s) && Draining(s) && LateSpecial(s, r)
    requires i <= |s.queue| && (i < |s.queue| ==> ReqSeq(s, r) <= ReqSeq(s, s.queue[i]))
    ensures forall k | i <= k < |s.queue| :: !Early(s, s.queue[k])
  {
    forall k | i <= k < |s.queue| ensures !Early(s, s.queue[k]) {
      var x := s.queue[i];
      assert x in s.queue && s.queue[k] in s.queue;
      if FsRq(s, s.queue[k]) { EarlyKey(s, s.queue[k]); }
      if Keyed(s, x) { LateKey(s, x); }
    }
  }

  /** What the scheduler holds came after the barrier in progress. */
  lemma HeldIsLate(s: State, r: Ref)
    requires Chain(s) && Standing(s) && r in s.sorted
    ensures !LateSpecial(s, r) && (Draining(s) ==> !Early(s, r))
  {
  }

  lemma DispatchHidesNothing(s: State, r: Ref, toTail: bool)
    requires Chain(s) && Standing(s) && NothingHidden(s) && r in s.sorted
    ensures NothingHidden(Dispatch(s, r, toTail))
  {
    HeldIsLate(s, r);
    hide Chain, Standing, NothingHidden, LateSpecial, Early, SortIndex, MayPass, Draining;
    var i := if toTail then |s.queue| else SortIndex(s, Get(s, r), |s.queue|);
    assert InsertAt(s.queue, |s.queue|, r) == s.queue + [r];
    DispatchedHidesNothing(s, Dispatch(s, r, toTail), r, i);
  }

  lemma DispatchedHidesNothing(s: State, t: State, r: Ref, i: nat)
    requires NothingHidden(s) && i <= |s.queue| && t.queue == InsertAt(s.queue, i, r)
    requires t.rqs == s.rqs && t.epoch == s.epoch && t.ordseq == s.ordseq
    requires t.orig == s.orig && t.ended == s.ended
    requires !LateSpecial(s, r) && (Draining(s) ==> !Early(s, r))
    ensures NothingHidden(t)
  {
    InsertHidesNothing(s, t, i, r);
  }

  lemma {:induction false} DrainHidesNothing(s: State, cs: seq<Choice>)
    requires Inv(s) && NothingHidden(s) && Drains(cs, s.sorted)
    ensures NothingHidden(DrainElevator(s, cs))
    decreases |cs|
  {
    if cs != [] {
      DispatchKeepsInv(s, cs[0].r, cs[0].toTail);
      DispatchHidesNothing(s, cs[0].r, cs[0].toTail);
      DrainHidesNothing(Dispatch(s, cs[0].r, cs[0].toTail), cs[1..]);
    }
  }

  /** An old queue entry is late-special or early in t exactly as it was in s. */
  lemma GrownSameKind(s: State, t: State, r: Ref, x: Ref)
    requires Grown(s, t, r) && s.orig != r && x != r
    ensures LateSpecial(t, x) == LateSpecial(s, x) && Early(t, x) == Early(s, x)
  {
  }

  /** A submission at either end hides nothing: at the back it has nothing behind it, at the
      front it is safe by the caller's check. */
  lemma GrownHidesNothing(s: State, t: State, r: Ref)
    requires Grown(s, t, r) && r !in s.queue && NothingHidden(s)
    requires Draining(s) ==> s.orig != r && s.ended < |s.barriers|
    requires || t.queue == s.queue
             || (t.queue == [r] + s.queue && !Get(t, r).fs && FrontSafe(s))
             || t.queue == s.queue + [r]
    ensures NothingHidden(t)
  {
    if Draining(t) {
      forall a, b | 0 <= a < b < |t.queue| && LateSpecial(t, t.queue[a])
        ensures !Early(t, t.queue[b])
      {
        var x, y := t.queue[a], t.queue[b];
        if t.queue == s.queue {
          assert s.queue[a] in s.queue && s.queue[b] in s.queue;
          GrownSameKind(s, t, r, x);
          GrownSameKind(s, t, r, y);
        } else if t.queue == [r] + s.queue && !Get(t, r).fs && FrontSafe(s) {
          assert y == s.queue[b - 1] && s.queue[b - 1] in s.queue;
          assert !LateSpecial(t, r);
          assert x == s.queue[a - 1] && s.queue[a - 1] in s.queue;
          GrownSameKind(s, t, r, x);
          GrownSameKind(s, t, r, y);
        } else {
          assert x == s.queue[a] && s.queue[a] in s.queue;
          GrownSameKind(s, t, r, x);
          if b < |s.queue| {
            assert y == s.queue[b] && s.queue[b] in s.queue;
            GrownSameKind(s, t, r, y);
          }
        }
      }
    }
  }

  lemma StartHidesNothing(s: State)
    requires Inv(s) && BarrierAtHead(s)
    ensures NothingHidden(StartOrdered(s))
  {
    StartSetting(s);
    var t := StartOrdered(s);
    var q := Proxies(s.preflush, s.postflush) + s.queue[1..];
    assert t.queue == q;
    forall j | 0 <= j < |q| ensures !Early(t, q[j]) {
      assert q[j] in q;
      assert q[j].Rq? ==> Get(t, q[j]) == Get(s, q[j]);
    }
  }

  lemma GateHidesNothing(s: State)
    requires NothingHidden(s) && s.queue != [] && !BarrierAtHead(s) && (s.ordseq == IDLE ==> s.queue[0].Rq?)
    ensures NothingHidden(DoOrdered(s).0)
  {
    hide NothingHidden, DoOrdered;
    GateFrame(s);
    SameQueueHidesNothing(s, DoOrdered(s).0);
  }

  lemma DoOrderedHidesNothing(s: State)
    requires Inv(s) && NothingHidden(s) && s.queue != []
    ensures NothingHidden(DoOrdered(s).0)
  {
    if s.ordseq == IDLE { IdleHead(s); }
    if BarrierAtHead(s) {
      StartHidesNothing(s);
    } else {
      GateHidesNothing(s);
    }
  }

  lemma FetchHidesNothing(s: State)
    requires Inv(s) && NothingHidden(s) && s.queue != []
    ensures NothingHidden(Fetch(s).0)
  {
    DoOrderedHidesNothing(s);
    FetchAfterHidesNothing(s);
  }

  lemma FetchAfterHidesNothing(s: State)
    requires s.queue != [] && NothingHidden(DoOrdered(s).0)
    ensures NothingHidden(Fetch(s).0)
  {
    var (u, got) := DoOrdered(s);
    if got.Some? { HandOutHidesNothing(u, got.value); }
  }

  lemma StartedHidesNothing(s: State, r: Ref)
    requires NothingHidden(s)
    ensures NothingHidden(Started(s, r))
  {
    SameQueueHidesNothing(s, Started(s, r));
  }

  lemma NewBoundaryHidesNothing(s: State, end: nat, b: Option<Ref>)
    requires NothingHidden(s)
    ensures NothingHidden(s.(endSector := end, boundary := b))
  {
    SameQueueHidesNothing(s, s.(endSector := end, boundary := b));
  }

  lemma HandOutHidesNothing(s: State, r: Ref)
    requires NothingHidden(s)
    ensures NothingHidden(HandOut(s, r))
  {
    StartedHidesNothing(s, r);
    var t := Started(s, r);
    NewBoundaryHidesNothing(t, Get(t, r).end, None);
    assert HandOut(s, r) == t || HandOut(s, r) == t.(endSector := Get(t, r).end, boundary := None);
  }

  lemma FinishHidesNothing(s: State, r: Ref, error: int)
    requires Inv(s) && NothingHidden(s) && r in s.driver
    ensures NothingHidden(End(s, r, error))
  {
    var t := End(s, r, error);
    if !r.Rq? {
      ProxyTurn(s, r);
      CompletedNotDraining(ProxyGone(s, r), PhaseOf(r), error);
    } else {
      EndRetires(s, r, error);
      if DrainTest(Retired(s, r)) {
        CompletedNotDraining(Retired(s, r), DRAIN, 0);
      } else {
        SameQueueHidesNothing(s, Retired(s, r));
      }
    }
  }

  lemma NotDrainBit(m: Mask, phase: int)
    requires phase == DRAIN || m.drain
    ensures Set(m, phase).drain && CurSeq(Set(m, phase)) != DRAIN
  {
  }

  lemma CompletedNotDraining(s: State, phase: int, error: int)
    requires !Has(s.ordseq, phase) && (phase == DRAIN || s.ordseq.drain)
    ensures !Draining(CompleteSeq(s, phase, error))
  {
    NotDrainBit(s.ordseq, phase);
    var t := CompleteSeq(s, phase, error);
    assert t.ordseq == Set(s.ordseq, phase) || t.ordseq == IDLE;
  }

  lemma SubmitBackHidesNothing(s: State, e: Event)
    requires Inv(s) && NothingHidden(s) && e.SubmitBack? && Enabled(s, e)
    ensures NothingHidden(Step(s, e))
  {
    var rq := Request(e.fs, e.write, e.sector, e.end, e.barrier, false, false, false);
    var s0 := Boundary(s, e.r, rq);
    FrameKeepsInv(s, s0);
    BoundaryHidesNothing(s, e.r, rq);
    DrainKeepsInv(s0, e.choices);
    DrainHidesNothing(s0, e.choices);
    BackSame(s, e.r, rq);
    BackHidesNothing(s, e, rq);
  }

  lemma BoundaryHidesNothing(s: State, r: Ref, rq: Request)
    requires NothingHidden(s)
    ensures NothingHidden(Boundary(s, r, rq))
  {
    SameQueueHidesNothing(s, Boundary(s, r, rq));
  }

  lemma BackHidesNothing(s: State, e: Event, rq: Request)
    requires e.SubmitBack? && Enabled(s, e)
    requires rq == Request(e.fs, e.write, e.sector, e.end, e.barrier, false, false, false)
    requires var s1 := Enter(s, e.r, rq);
             SameForDispatch(Boundary(s, e.r, rq), Put(s1, e.r, Get(s1, e.r).(soft := true)))
    requires var d := DrainElevator(Boundary(s, e.r, rq), e.choices); Inv(d) && NothingHidden(d)
    ensures NothingHidden(Step(s, e))
  {
    var d := BackDrained(s, e, rq);
    OrigIsOld(d, e.r);
    GrownHidesNothing(d, Step(s, e), e.r);
  }

  lemma DequeueHidesNothing(s: State, r: Ref)
    requires NoDup(s.queue) && NothingHidden(s) && r in s.queue
    ensures NothingHidden(DequeueRq(s, r))
  {
    MinusFacts(s.queue, r);
    RemoveHidesNothing(s, DequeueRq(s, r), IndexOf(s.queue, r));
  }

  lemma SubmitHidesNothing(s: State, e: Event)
    requires Inv(s) && NothingHidden(s) && Enabled(s, e)
    requires e.SubmitSorted? || (e.SubmitFront? && FrontSafe(s))
    ensures NothingHidden(Step(s, e))
  {
    OrigIsOld(s, e.r);
    GrownHidesNothing(s, Step(s, e), e.r);
  }

  /** A fresh request is in no queue and is not the barrier in progress. */
  lemma OrigIsOld(s: State, r: Ref)
    requires Places(s) && History(s) && Chain(s) && r.Rq? && r !in s.log
    ensures r !in s.queue && (s.ordseq != IDLE ==> s.orig != r && s.ended < |s.barriers|)
  {
    if s.ordseq != IDLE { assert s.barriers[s.ended] in s.log; }
  }

  lemma StepHidesNothing(s: State, e: Event)
    requires Inv(s) && NothingHidden(s) && Enabled(s, e) && (e.SubmitFront? ==> FrontSafe(s))
    ensures NothingHidden(Step(s, e))
  {
    match e
    case SubmitSorted(_, _, _, _) => SubmitHidesNothing(s, e);
    case SubmitBack(_, _, _, _, _, _, _) => SubmitBackHidesNothing(s, e);
    case SubmitFront(_) => SubmitHidesNothing(s, e);
    case DispatchOne(r, toTail) => DispatchHidesNothing(s, r, toTail);
    case FetchHead => FetchHidesNothing(s);
    case Dequeue(r) => DequeueHidesNothing(s, r);
    case Finish(r, error) => FinishHidesNothing(s, r, error);
    case RequeueOne(r) => RequeueHidesNothing(s, r);
    case SetFlush(_, _) => SameQueueHidesNothing(s, Step(s, e));
  }

  // The main theorems.

  /** A run whose head insertions were all checked with FrontSafe. */
  ghost predicate Careful(s: State, es: seq<Event>)
    requires Run(s, es)
    decreases |es|
  {
    es == [] ||
    var n := |es| - 1;
    Careful(s, es[..n]) && (es[n].SubmitFront? ==> FrontSafe(After(s, es[..n])))
  }

  /** The step that ends the drain too early. */
  predicate EarlyEnd(s: State, e: Event) {
    e.Finish? && e.r.Rq? && EndsTooEarly(Retired(s, e.r))
  }

  /** A run in which no completion ended a drain too early. */
  ghost predicate NeverEarly(s: State, es: seq<Event>)
    requires Run(s, es)
    decreases |es|
  {
    es == [] ||
    var n := |es| - 1;
    NeverEarly(s, es[..n]) && !EarlyEnd(After(s, es[..n]), es[n])
  }

  lemma {:induction false} RunKeepsInv(preflush: bool, postflush: bool, es: seq<Event>)
    requires Run(Init(preflush, postflush), es) && NeverEarly(Init(preflush, postflush), es)
    ensures Inv(After(Init(preflush, postflush), es))
    decreases |es|
  {
    if es == [] {
      InitInv(preflush, postflush);
    } else {
      var n := |es| - 1;
      RunKeepsInv(preflush, postflush, es[..n]);
      StepKeepsInv(After(Init(preflush, postflush), es[..n]), es[n]);
    }
  }

  /** Over every run of submissions, dispatches, fetches, dequeues, completions and requeues
      in which no completion ends a drain too early: the barrier proxy is handed out
      only after every fs request submitted before the barrier has completed, no fs request
      submitted after it reaches the driver until the sequence ends, and no BUG_ON or
      WARN_ON is hit. */
  lemma BarrierOrder(preflush: bool, postflush: bool, es: seq<Event>)
    requires Run(Init(preflush, postflush), es) && NeverEarly(Init(preflush, postflush), es)
    ensures Ordered(After(Init(preflush, postflush), es))
  {
    RunKeepsInv(preflush, postflush, es);
    InvOrdered(After(Init(preflush, postflush), es));
  }

  lemma CarefulFinishEndsInTime(s: State, r: Ref)
    requires Inv(s) && NothingHidden(s) && r in s.driver && r.Rq?
    ensures !EndsTooEarly(Retired(s, r))
  {
    RetiredKeepsInv(s, r);
    SameQueueHidesNothing(s, Retired(s, r));
    hide Inv, NothingHidden, EndsTooEarly;
    NothingHiddenEndsInTime(Retired(s, r));
  }

  lemma CarefulStep(s: State, e: Event)
    requires Inv(s) && NothingHidden(s) && Enabled(s, e) && (e.SubmitFront? ==> FrontSafe(s))
    ensures !EarlyEnd(s, e) && Inv(Step(s, e)) && NothingHidden(Step(s, e))
  {
    hide Inv, NothingHidden, EndsTooEarly, Step, FrontSafe;
    if e.Finish? && e.r.Rq? { CarefulFinishEndsInTime(s, e.r); }
    StepKeepsInv(s, e);
    StepHidesNothing(s, e);
  }

  lemma {:induction false} CarefulRunsHideNothing(preflush: bool, postflush: bool, es: seq<Event>)
    requires Run(Init(preflush, postflush), es) && Careful(Init(preflush, postflush), es)
    ensures NeverEarly(Init(preflush, postflush), es)
    ensures Inv(After(Init(preflush, postflush), es)) && NothingHidden(After(Init(preflush, postflush), es))
    decreases |es|
  {
    if es == [] {
      InitInv(preflush, postflush);
    } else {
      var n := |es| - 1;
      CarefulRunsHideNothing(preflush, postflush, es[..n]);
      CarefulStep(After(Init(preflush, postflush), es[..n]), es[n]);
    }
  }

  /** With the check a head inserter can make, the order holds on every run. */
  lemma CarefulRunsAreOrdered(preflush: bool, postflush: bool, es: seq<Event>)
    requires Run(Init(preflush, postflush), es) && Careful(Init(preflush, postflush), es)
    ensures Ordered(After(Init(preflush, postflush), es))
  {
    CarefulRunsHideNothing(preflush, postflush, es);
    InvOrdered(After(Init(preflush, postflush), es));
  }
}
