/** What a running sequence waits for is always on its way: proxies stand in phase order, and while
    the queue drains there is a request of the drain phase whose completion will be noticed. */
module BarrierReady {
  import opened Collections
  import opened OrderedPhases
  import opened Barrier
  import opened BarrierInvariant
  import opened BarrierOrdering

  ghost predicate ProxiesInOrder(s: State) {
    forall i, j | 0 <= i < j < |s.queue| && !s.queue[i].Rq? && !s.queue[j].Rq? ::
      PhaseOf(s.queue[i]) < PhaseOf(s.queue[j])
  }

  /** A submitted request of the drain phase. */
  predicate DrainRq(s: State, r: Ref) {
    r.Rq? && ReqSeq(s, r) == DRAIN
  }

  /** Queue entry i is r, and no proxy stands before it. */
  predicate BeforeProxies(q: seq<Ref>, i: int, r: Ref) {
    0 <= i < |q| && q[i] == r && forall k | 0 <= k <= i :: q[k].Rq?
  }

  /** With the driver, or queued before every proxy. */
  ghost predicate OnItsWay(s: State, r: Ref) {
    r in s.driver || exists i :: BeforeProxies(s.queue, i, r)
  }

  ghost predicate Awaited(s: State) {
    exists r :: DrainRq(s, r) && OnItsWay(s, r)
  }

  ghost predicate Ready(s: State) {
    ProxiesInOrder(s) && (Draining(s) ==> Awaited(s))
  }

  /** What is queued or with the driver is of the same phase in both states. */
  ghost predicate SameColors(s: State, t: State) {
    && t.orig == s.orig && Get(t, s.orig).color == Get(s, s.orig).color
    && (forall x | x in s.queue || x in s.driver :: Get(t, x).color == Get(s, x).color)
  }

  lemma StillAwaited(s: State, t: State)
    requires Awaited(s) && SameColors(s, t)
    requires forall x | OnItsWay(s, x) && DrainRq(s, x) :: OnItsWay(t, x)
    ensures Awaited(t)
  {
    var x :| DrainRq(s, x) && OnItsWay(s, x);
    assert x in s.queue || x in s.driver;
    assert DrainRq(t, x);
  }

  lemma SameReady(s: State, t: State)
    requires Ready(s) && (Draining(t) ==> Draining(s) && SameColors(s, t)) && t.queue == s.queue && s.driver <= t.driver
    ensures Ready(t)
  {
    hide DrainRq, SameColors, Awaited, BeforeProxies;
    if Draining(t) { StillAwaited(s, t); }
  }

  // A request joins the queue.

  lemma InsertInOrder(s: State, t: State, i: nat, r: Ref)
    requires ProxiesInOrder(s) && r.Rq? && i <= |s.queue| && t.queue == InsertAt(s.queue, i, r)
    ensures ProxiesInOrder(t)
  {
    forall a, b | 0 <= a < b < |t.queue| && !t.queue[a].Rq? && !t.queue[b].Rq?
      ensures PhaseOf(t.queue[a]) < PhaseOf(t.queue[b])
    {
      var a', b' := if a < i then a else a - 1, if b < i then b else b - 1;
      assert t.queue[a] == s.queue[a'] && t.queue[b] == s.queue[b'];
    }
  }

  lemma InsertBefore(q: seq<Ref>, i: nat, r: Ref, k: int, x: Ref)
    requires r.Rq? && i <= |q| && BeforeProxies(q, k, x)
    ensures BeforeProxies(InsertAt(q, i, r), if k < i then k else k + 1, x)
  {
    var q', k' := InsertAt(q, i, r), if k < i then k else k + 1;
    forall j | 0 <= j <= k' ensures q'[j].Rq? {
      assert j == i || q'[j] == q[if j < i then j else j - 1];
    }
  }

  lemma InsertOnItsWay(s: State, t: State, i: nat, r: Ref, x: Ref)
    requires r.Rq? && i <= |s.queue| && t.queue == InsertAt(s.queue, i, r) && OnItsWay(s, x)
    ensures OnItsWay(t, x) || (x in s.driver && x !in t.driver)
  {
    hide BeforeProxies, InsertAt;
    if k :| BeforeProxies(s.queue, k, x) {
      InsertBefore(s.queue, i, r, k, x);
    }
  }

  lemma InsertReady(s: State, t: State, i: nat, r: Ref)
    requires Ready(s) && (Draining(t) ==> Draining(s) && SameColors(s, t)) && s.driver <= t.driver
    requires r.Rq? && i <= |s.queue| && t.queue == InsertAt(s.queue, i, r)
    ensures Ready(t)
  {
    hide ProxiesInOrder, Awaited, InsertAt, OnItsWay, SameColors, DrainRq;
    InsertInOrder(s, t, i, r);
    forall x | OnItsWay(s, x) ensures OnItsWay(t, x) {
      InsertOnItsWay(s, t, i, r, x);
    }
    if Draining(t) { StillAwaited(s, t); }
  }

  // Submitting and dispatching.

  /** A request that is nowhere yet changes nobody's phase. */
  lemma NewColors(s: State, t: State, r: Ref)
    requires Places(s) && History(s) && Chain(s) && r.Rq? && r !in s.log
    requires t.orig == s.orig && t.ordseq == s.ordseq && forall x | x != r :: Get(t, x) == Get(s, x)
    ensures Draining(t) ==> Draining(s) && SameColors(s, t)
  {
    assert s.ordseq != IDLE ==> s.orig in s.log;
  }

  lemma EnterReady(s: State, r: Ref, rq: Request)
    requires Inv(s) && Ready(s) && r.Rq? && r !in s.log
    ensures Ready(Enter(s, r, rq))
  {
    NewColors(s, Enter(s, r, rq), r);
    hide Inv, Ready, SameColors;
    SameReady(s, Enter(s, r, rq));
  }

  lemma EnterFrame(s: State, r: Ref, rq: Request)
    ensures var t := Enter(s, r, rq);
            t.queue == s.queue && t.sorted == s.sorted && t.driver == s.driver && t.ordseq == s.ordseq && t.orig == s.orig
  {
  }

  lemma SubmitReady(s: State, e: Event)
    requires Inv(s) && Ready(s) && Enabled(s, e) && (e.SubmitSorted? || e.SubmitFront?)
    ensures Ready(Step(s, e))
  {
    var rq := if e.SubmitFront? then Request(false, false, 0, 0, false, true, false, false)
              else Request(true, e.write, e.sector, e.end, false, false, false, false);
    hide Inv, Ready, Enter;
    EnterReady(s, e.r, rq);
    var s1 := Enter(s, e.r, rq);
    if e.SubmitFront? {
      FrontReady(s1, e.r);
    } else {
      HeldReady(s1, s1.sorted + {e.r});
    }
  }

  lemma FrontReady(s: State, r: Ref)
    requires Ready(s) && r.Rq?
    ensures Ready(s.(queue := [r] + s.queue))
  {
    hide Ready;
    assert InsertAt(s.queue, 0, r) == [r] + s.queue;
    InsertReady(s, s.(queue := [r] + s.queue), 0, r);
  }

  lemma HeldReady(s: State, sorted: set<Ref>)
    requires Ready(s)
    ensures Ready(s.(sorted := sorted))
  {
    hide Ready;
    SameReady(s, s.(sorted := sorted));
  }

  lemma DispatchReady(s: State, r: Ref, toTail: bool)
    requires Ready(s) && r.Rq?
    ensures Ready(Dispatch(s, r, toTail)) && Dispatch(s, r, toTail).sorted == s.sorted - {r}
  {
    hide Ready, SortIndex;
    var i := if toTail then |s.queue| else SortIndex(s, Get(s, r), |s.queue|);
    DispatchShape(s, r, toTail, i);
    InsertReady(s, Dispatch(s, r, toTail), i, r);
  }

  lemma {:induction false} DrainReady(s: State, cs: seq<Choice>)
    requires Ready(s) && Drains(cs, s.sorted) && forall x | x in s.sorted :: x.Rq?
    ensures Ready(DrainElevator(s, cs))
    decreases |cs|
  {
    hide Ready, Dispatch;
    if cs != [] {
      DispatchReady(s, cs[0].r, cs[0].toTail);
      DrainReady(Dispatch(s, cs[0].r, cs[0].toTail), cs[1..]);
    }
  }

  lemma SubmitBackReady(s: State, e: Event)
    requires Inv(s) && Ready(s) && Enabled(s, e) && e.SubmitBack?
    ensures Ready(Step(s, e))
  {
    var rq := Request(e.fs, e.write, e.sector, e.end, e.barrier, false, false, false);
    assert forall x | x in s.sorted :: x.Rq?;
    EnterReady(s, e.r, rq);
    EnterFrame(s, e.r, rq);
    hide Inv, Ready, Enter, DrainElevator;
    var s1 := Enter(s, e.r, rq);
    BackReady(s1, e.r, e.choices);
  }

  lemma BackReady(s: State, r: Ref, cs: seq<Choice>)
    requires Ready(s) && r.Rq? && Drains(cs, s.sorted) && forall x | x in s.sorted :: x.Rq?
    ensures var d := DrainElevator(Put(s, r, Get(s, r).(soft := true)), cs); Ready(d.(queue := d.queue + [r]))
  {
    hide Ready, DrainElevator;
    var s2 := Put(s, r, Get(s, r).(soft := true));
    SameReady(s, s2);
    DrainReady(s2, cs);
    AppendReady(DrainElevator(s2, cs), r);
  }

  lemma AppendReady(s: State, r: Ref)
    requires Ready(s) && r.Rq?
    ensures Ready(s.(queue := s.queue + [r]))
  {
    hide Ready;
    assert InsertAt(s.queue, |s.queue|, r) == s.queue + [r];
    InsertReady(s, s.(queue := s.queue + [r]), |s.queue|, r);
  }

  // Fetching.

  /** A sequence that starts with requests in flight waits for one of them. */
  lemma StartAwaited(s: State)
    requires Inv(s) && BarrierAtHead(s) && s.inFlight != 0
    ensures Awaited(StartOrdered(s))
  {
    var x := OneInFlight(s);
    var t := StartOrdered(s);
    StartKeepsInv(s);
    StartFrame(s, x);
    hide Inv, StartOrdered, Awaited;
    InFlightPhase(t, x);
    AwaitedInDriver(t, x);
  }

  lemma OneInFlight(s: State) returns (x: Ref)
    requires Inv(s) && s.ordseq == IDLE && s.inFlight != 0
    ensures x in s.driver && FsRq(s, x)
  {
    assert InFlightSet(s) != {};
    x :| x in InFlightSet(s);
    assert x.Rq? by { assert Live(s, x); }
  }

  lemma StartFrame(s: State, x: Ref)
    requires BarrierAtHead(s) && FsRq(s, x)
    ensures StartOrdered(s).driver == s.driver && FsRq(StartOrdered(s), x) && StartOrdered(s).ordseq != IDLE
  {
  }

  lemma InFlightPhase(s: State, x: Ref)
    requires Inv(s) && s.ordseq != IDLE && x in s.driver && FsRq(s, x)
    ensures DrainRq(s, x)
  {
    assert x in s.log;
    ColorOfEpoch(s, x);
  }

  lemma StartReady(s: State)
    requires Inv(s) && BarrierAtHead(s)
    ensures Ready(StartOrdered(s))
  {
    StartInOrder(s);
    HeadNotCounted(s);
    hide Inv, ProxiesInOrder, Awaited;
    if s.inFlight != 0 { StartAwaited(s); }
    StartDrains(s);
  }

  lemma HeadNotCounted(s: State)
    requires Inv(s) && BarrierAtHead(s)
    ensures StartOrdered(s).inFlight == s.inFlight
  {
    assert s.queue[0] in s.queue && s.queue[0] in s.log;
  }

  lemma StartDrains(s: State)
    requires BarrierAtHead(s)
    ensures Draining(StartOrdered(s)) ==> StartOrdered(s).inFlight != 0
  {
  }

  lemma StartInOrder(s: State)
    requires Inv(s) && BarrierAtHead(s)
    ensures ProxiesInOrder(StartOrdered(s))
  {
    forall k | 0 <= k < |s.queue| ensures s.queue[k].Rq? {
      assert Live(s, s.queue[k]);
    }
    hide Inv;
    StackedInOrder(StartOrdered(s), s.preflush, s.postflush, s.queue[1..]);
  }

  lemma StackedInOrder(t: State, pre: bool, post: bool, rest: seq<Ref>)
    requires forall x | x in rest :: x.Rq?
    requires t.queue == (if pre then [PreFlush] else []) + [Bar] + (if post then [PostFlush] else []) + rest
    ensures ProxiesInOrder(t)
  {
    var n := if pre then 1 else 0;
    var m := n + 1 + if post then 1 else 0;
    forall k | m <= k < |t.queue| ensures t.queue[k].Rq? {
      assert t.queue[k] == rest[k - m] && rest[k - m] in rest;
    }
  }

  lemma FetchReady(s: State)
    requires Inv(s) && Ready(s) && s.queue != []
    ensures Ready(Fetch(s).0)
  {
    hide Inv, Ready, DoOrdered, HandOut;
    GateReady(s);
    var (u, got) := DoOrdered(s);
    if got.Some? { HandOutReady(u, got.value); }
  }

  lemma StartedColors(s: State, r: Ref)
    ensures SameColors(s, Started(s, r))
    ensures forall t: State | t.rqs == Started(s, r).rqs && t.orig == s.orig :: SameColors(Started(s, r), t)
  {
  }

  lemma HandOutReady(s: State, r: Ref)
    requires Ready(s)
    ensures Ready(HandOut(s, r))
  {
    hide Ready, HandOut, SameColors;
    HandOutFrame(s, r);
    StartedColors(s, r);
    SameReady(s, Started(s, r));
    SameReady(Started(s, r), HandOut(s, r));
  }

  lemma GateReady(s: State)
    requires Inv(s) && Ready(s) && s.queue != []
    ensures Ready(DoOrdered(s).0)
  {
    hide Inv, Ready, StartOrdered;
    if s.ordseq == IDLE { IdleHead(s); }
    if BarrierAtHead(s) {
      StartReady(s);
    } else {
      GateFrame(s);
      WarnedReady(s, DoOrdered(s).0.warned);
    }
  }

  lemma WarnedReady(s: State, warned: bool)
    requires Ready(s)
    ensures Ready(s.(warned := warned))
  {
    hide Ready;
    SameReady(s, s.(warned := warned));
  }

  // Dequeuing.

  lemma RemoveInOrder(s: State, t: State, i: nat)
    requires ProxiesInOrder(s) && i < |s.queue| && t.queue == RemoveAt(s.queue, i)
    ensures ProxiesInOrder(t)
  {
    forall a, b | 0 <= a < b < |t.queue| && !t.queue[a].Rq? && !t.queue[b].Rq?
      ensures PhaseOf(t.queue[a]) < PhaseOf(t.queue[b])
    {
      var a', b' := if a < i then a else a + 1, if b < i then b else b + 1;
      assert t.queue[a] == s.queue[a'] && t.queue[b] == s.queue[b'];
    }
  }

  lemma RemoveBefore(q: seq<Ref>, i: nat, k: int, x: Ref)
    requires i < |q| && BeforeProxies(q, k, x) && x != q[i]
    ensures BeforeProxies(RemoveAt(q, i), if k < i then k else k - 1, x)
  {
    var q', k' := RemoveAt(q, i), if k < i then k else k - 1;
    forall j | 0 <= j <= k' ensures q'[j].Rq? {
      assert q'[j] == q[if j < i then j else j + 1];
    }
  }

  lemma RemoveOnItsWay(s: State, t: State, i: nat, x: Ref)
    requires i < |s.queue| && t.queue == RemoveAt(s.queue, i) && t.driver == s.driver + {s.queue[i]} && OnItsWay(s, x)
    ensures OnItsWay(t, x)
  {
    hide BeforeProxies, RemoveAt;
    if x != s.queue[i] && x !in s.driver {
      var k :| BeforeProxies(s.queue, k, x);
      RemoveBefore(s.queue, i, k, x);
    }
  }

  lemma DequeueReady(s: State, r: Ref)
    requires Ready(s) && r in s.queue
    ensures Ready(DequeueRq(s, r))
  {
    var t, i := DequeueRq(s, r), IndexOf(s.queue, r);
    hide ProxiesInOrder, Awaited, RemoveAt, OnItsWay, DrainRq, IndexOf;
    RemoveInOrder(s, t, i);
    forall x | OnItsWay(s, x) ensures OnItsWay(t, x) {
      RemoveOnItsWay(s, t, i, x);
    }
    if Draining(t) { StillAwaited(s, t); }
  }

  // Completing.

  /** If nothing of the drain phase is on its way any more, the drain test passes. */
  lemma NothingLeft(s: State)
    requires Inv(s) && Draining(s)
    ensures Awaited(s) || DrainTest(s)
  {
    BarIsQueued(s);
    NoneInFlight(s);
    HeadIsLate(s);
    hide Inv, Awaited;
  }

  lemma HeadIsLate(s: State)
    requires s.queue != []
    ensures Awaited(s) || ReqSeq(s, s.queue[0]) > DRAIN
  {
    if DrainRq(s, s.queue[0]) {
      assert BeforeProxies(s.queue, 0, s.queue[0]);
      assert OnItsWay(s, s.queue[0]);
    }
  }

  lemma NoneInFlight(s: State)
    requires Inv(s) && Draining(s)
    ensures Awaited(s) || s.inFlight == 0
  {
    hide Awaited;
    if x :| x in InFlightSet(s) {
      DriverIsSubmitted(s, x);
      InFlightPhase(s, x);
      AwaitedInDriver(s, x);
    } else {
      assert InFlightSet(s) == {};
    }
  }

  lemma AwaitedInDriver(s: State, x: Ref)
    requires x in s.driver && DrainRq(s, x)
    ensures Awaited(s)
  {
    assert OnItsWay(s, x);
  }

  lemma DriverIsSubmitted(s: State, x: Ref)
    requires Inv(s) && Draining(s) && x in s.driver
    ensures x.Rq?
  {
    if !x.Rq? { ProxyTurn(s, x); }
  }

  lemma FinishReady(s: State, r: Ref, error: int)
    requires Inv(s) && Ready(s) && r in s.driver
    ensures Ready(End(s, r, error))
  {
    if r.Rq? {
      FinishRqReady(s, r, error);
    } else {
      FinishProxyReady(s, r, error);
    }
  }

  lemma FinishRqReady(s: State, r: Ref, error: int)
    requires Inv(s) && Ready(s) && r in s.driver && r.Rq?
    ensures Ready(End(s, r, error))
  {
    var t := Retired(s, r);
    RetiredKeepsInv(s, r);
    EndRetires(s, r, error);
    assert ProxiesInOrder(t);
    hide Inv, Awaited;
    if Draining(t) { NothingLeft(t); }
    if DrainTest(t) { DrainDoneReady(t); }
  }

  lemma DrainDoneReady(s: State)
    requires ProxiesInOrder(s) && DrainTest(s)
    ensures Ready(CompleteSeq(s, DRAIN, 0))
  {
  }

  lemma FinishProxyReady(s: State, r: Ref, error: int)
    requires Inv(s) && Ready(s) && r in s.driver && !r.Rq?
    ensures Ready(End(s, r, error))
  {
    ProxyTurn(s, r);
    SetBit(s.ordseq, PhaseOf(r));
    hide Inv, Awaited;
    var g := ProxyGone(s, r);
    assert ProxiesInOrder(g) && g.ordseq == s.ordseq;
    PhaseDoneReady(g, PhaseOf(r), error);
  }

  lemma PhaseDoneReady(s: State, phase: int, error: int)
    requires ProxiesInOrder(s) && !Has(s.ordseq, phase) && CurSeq(Set(s.ordseq, phase)) > DRAIN
    ensures Ready(CompleteSeq(s, phase, error))
  {
  }

  // Requeuing.

  lemma RequeueReady(s: State, r: Ref)
    requires Inv(s) && Ready(s) && r in s.driver
    ensures Ready(Requeue(s, r))
  {
    var i := RequeueShape(s, r);
    hide Inv, Ready, InsertAt, ReqSeq;
    if r.Rq? {
      RequeueRqReady(s, r, i);
    } else {
      RequeueProxyReady(s, r, i);
    }
  }

  lemma RequeueRqReady(s: State, r: Ref, i: nat)
    requires Inv(s) && Ready(s) && r in s.driver && r.Rq? && i <= |s.queue|
    requires s.ordseq != IDLE ==> forall j | 0 <= j < i :: ReqSeq(s, r) > ReqSeq(s, s.queue[j])
    ensures Ready(Requeued(s, r, InsertAt(s.queue, i, r)))
  {
    var t := Requeued(s, r, InsertAt(s.queue, i, r));
    InsertInOrder(s, t, i, r);
    assert SameColors(s, t);
    if Draining(t) {
      hide Inv, ProxiesInOrder, Awaited, SameColors;
      forall x | OnItsWay(s, x) && DrainRq(s, x) ensures OnItsWay(t, x) {
        RequeuedOnItsWay(s, r, i, x);
      }
      StillAwaited(s, t);
    }
  }

  lemma RequeuedOnItsWay(s: State, r: Ref, i: nat, x: Ref)
    requires r.Rq? && i <= |s.queue| && forall j | 0 <= j < i :: ReqSeq(s, r) > ReqSeq(s, s.queue[j])
    requires OnItsWay(s, x) && DrainRq(s, x)
    ensures OnItsWay(Requeued(s, r, InsertAt(s.queue, i, r)), x)
  {
    var t := Requeued(s, r, InsertAt(s.queue, i, r));
    NoEarlierPhase(s);
    InsertOnItsWay(s, t, i, r, x);
    if x == r { assert BeforeProxies(t.queue, 0, r); }
  }

  /** A proxy goes back before every other: theirs are later phases. */
  lemma RequeueProxyReady(s: State, r: Ref, i: nat)
    requires Inv(s) && Ready(s) && r in s.driver && !r.Rq? && i <= |s.queue|
    requires s.ordseq != IDLE ==> forall j | 0 <= j < i :: ReqSeq(s, r) > ReqSeq(s, s.queue[j])
    ensures Ready(Requeued(s, r, InsertAt(s.queue, i, r)))
  {
    ProxyTurn(s, r);
    forall k | 0 <= k < |s.queue| && !s.queue[k].Rq? ensures PhaseOf(s.queue[k]) > PhaseOf(r) {
      OtherProxyLater(s, r, s.queue[k]);
    }
    hide Inv, Awaited;
    ProxyBackInOrder(s, r, i);
  }

  lemma OtherProxyLater(s: State, r: Ref, p: Ref)
    requires Inv(s) && r in s.driver && !r.Rq? && p in s.queue && !p.Rq?
    ensures PhaseOf(p) > PhaseOf(r)
  {
    ProxyTurn(s, r);
    CurSeqIsLowestIncomplete(s.ordseq);
    assert Live(s, p) && Live(s, r) && p != r;
  }

  lemma ProxyBackInOrder(s: State, r: Ref, i: nat)
    requires ProxiesInOrder(s) && !r.Rq? && i <= |s.queue|
    requires forall k | 0 <= k < |s.queue| && !s.queue[k].Rq? :: PhaseOf(s.queue[k]) > PhaseOf(r)
    requires forall j | 0 <= j < i :: ReqSeq(s, r) > ReqSeq(s, s.queue[j])
    ensures ProxiesInOrder(Requeued(s, r, InsertAt(s.queue, i, r)))
  {
    var q := InsertAt(s.queue, i, r);
    forall a, b | 0 <= a < b < |q| && !q[a].Rq? && !q[b].Rq? ensures PhaseOf(q[a]) < PhaseOf(q[b]) {
      var a', b' := if a < i then a else a - 1, if b < i then b else b - 1;
      if a != i { assert q[a] == s.queue[a']; }
      if b != i { assert q[b] == s.queue[b']; }
    }
  }

  /** Every step keeps it. */
  lemma StepReady(s: State, e: Event)
    requires Inv(s) && Ready(s) && Enabled(s, e)
    ensures Ready(Step(s, e))
  {
    hide Inv, Ready;
    match e
    case SubmitSorted(_, _, _, _) => SubmitReady(s, e);
    case SubmitBack(_, _, _, _, _, _, _) => SubmitBackReady(s, e);
    case SubmitFront(_) => SubmitReady(s, e);
    case DispatchOne(r, toTail) =>
      SortedIsSubmitted(s, r);
      DispatchReady(s, r, toTail);
    case FetchHead => FetchReady(s);
    case Dequeue(r) => DequeueReady(s, r);
    case Finish(r, error) => FinishReady(s, r, error);
    case RequeueOne(r) => RequeueReady(s, r);
    case SetFlush(_, _) => SameReady(s, Step(s, e));
  }

  lemma SortedIsSubmitted(s: State, r: Ref)
    requires Inv(s) && r in s.sorted
    ensures r.Rq?
  {
  }
}
