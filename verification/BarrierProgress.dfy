/** What may be started is handed out, and no barrier is ever stuck: from every reachable state some
    run ends all of them. */
module BarrierProgress {
  import opened Collections
  import opened OrderedPhases
  import opened Barrier
  import opened BarrierInvariant
  import opened BarrierOrdering
  import opened BarrierReady

  // The gate opens.

  /** Nothing is held back without need: the head is handed out exactly if it may be started. */
  lemma HandedOutIff(s: State)
    requires Inv(s) && s.queue != [] && !BarrierAtHead(s)
    ensures Fetch(s).1 == if MayStart(s, s.queue[0]) then Some(s.queue[0]) else None
  {
    hide Inv, MayStart;
    hide DoOrdered, HandOut;
    DoOrderedKeepsInv(s);
    GateHead(s);
    if MayStart(s, s.queue[0]) { HeadPasses(s); }
  }

  lemma GateHead(s: State)
    requires s.queue != [] && !BarrierAtHead(s) && Inv(s)
    ensures DoOrdered(s).1 == Some(s.queue[0]) || DoOrdered(s).1 == None
    ensures MayStart(DoOrdered(s).0, s.queue[0]) == MayStart(s, s.queue[0])
  {
    if s.ordseq == IDLE { IdleHead(s); }
    hide Inv;
    GateFrame(s);
  }

  lemma StartableIsInTurn(s: State)
    requires Inv(s) && s.ordseq != IDLE && s.queue != [] && FsRq(s, s.queue[0]) && MayStart(s, s.queue[0])
    ensures ReqSeq(s, s.queue[0]) <= CurSeq(s.ordseq)
  {
    assert s.queue[0] in s.log;
    ColorOfEpoch(s, s.queue[0]);
    CurIsPhase(s.ordseq);
  }

  lemma HeadPasses(s: State)
    requires Inv(s) && s.queue != [] && !BarrierAtHead(s) && MayStart(s, s.queue[0])
    ensures DoOrdered(s).1 == Some(s.queue[0])
  {
    if s.ordseq == IDLE {
      IdleHead(s);
    } else if FsRq(s, s.queue[0]) {
      StartableIsInTurn(s);
    }
    hide Inv;
  }

  /** A barrier at the head starts its sequence, and its first proxy goes out at once if nothing is
      in flight. */
  lemma BarrierStarts(s: State)
    requires Inv(s) && BarrierAtHead(s)
    ensures var (t, got) := Fetch(s);
            && t.ordseq != IDLE && t.orig == s.queue[0] && t.ended == s.ended && t.barriers == s.barriers
            && got == if s.inFlight == 0 then Some(if s.preflush then PreFlush else Bar) else None
  {
    HeadNotCounted(s);
    StartedFacts(s);
    hide Inv, StartOrdered, HandOut;
    var t := StartOrdered(s);
    if t.inFlight == 0 { HandOutFrame(t, t.queue[0]); }
  }

  lemma StartedFacts(s: State)
    requires BarrierAtHead(s)
    ensures var t := StartOrdered(s);
            && t.queue != [] && t.queue[0] == (if s.preflush then PreFlush else Bar)
            && t.ordseq != IDLE && t.orig == s.queue[0] && t.ended == s.ended && t.barriers == s.barriers
  {
  }

  // Something can always be done.

  /** While a sequence runs and the driver is idle, the head of the queue may be started. */
  lemma HeadMayStart(s: State)
    requires Inv(s) && Ready(s) && s.ordseq != IDLE && s.driver == {}
    ensures s.queue != [] && MayStart(s, s.queue[0])
  {
    hide Inv, Ready, MayStart;
    if Draining(s) { WhileDraining(s); } else { AfterDraining(s); }
  }

  /** A late fs request cannot stand before a proxy. */
  lemma NoLateBeforeProxy(s: State, k: nat)
    requires Inv(s) && s.ordseq != IDLE && 0 < k < |s.queue| && !s.queue[k].Rq? && FsRq(s, s.queue[0])
    ensures Epoch(s, s.queue[0]) == s.ended && !Get(s, s.queue[0]).hard
  {
    var x := s.queue[0];
    assert x in s.queue && x in s.log;
    assert Key(s, x) <= Key(s, s.queue[k]);
    assert Get(s, x).hard && Epoch(s, x) == s.ended ==> x == s.orig;
  }

  lemma WhileDraining(s: State)
    requires Inv(s) && Ready(s) && Draining(s) && s.driver == {}
    ensures s.queue != [] && MayStart(s, s.queue[0])
  {
    var r :| DrainRq(s, r) && OnItsWay(s, r);
    var i :| BeforeProxies(s.queue, i, r);
    BarIsQueued(s);
    var k :| 0 <= k < |s.queue| && s.queue[k] == Bar;
    if FsRq(s, s.queue[0]) { NoLateBeforeProxy(s, k); }
  }

  lemma AfterDraining(s: State)
    requires Inv(s) && Ready(s) && s.ordseq != IDLE && !Draining(s) && s.driver == {}
    ensures s.queue != [] && MayStart(s, s.queue[0])
  {
    var p, k := CurrentProxy(s);
    if FsRq(s, s.queue[0]) {
      NoLateBeforeProxy(s, k);
    } else if !s.queue[0].Rq? {
      FirstProxyIsCurrent(s, p, k);
    }
  }

  lemma CurrentProxy(s: State) returns (p: Ref, k: nat)
    requires Inv(s) && s.ordseq != IDLE && !Draining(s) && s.driver == {}
    ensures !p.Rq? && PhaseOf(p) == CurSeq(s.ordseq) && k < |s.queue| && s.queue[k] == p
  {
    CurSeqIsLowestIncomplete(s.ordseq);
    p := if CurSeq(s.ordseq) == PREFLUSH then PreFlush else if CurSeq(s.ordseq) == BAR then Bar else PostFlush;
    assert Live(s, p);
    k :| 0 <= k < |s.queue| && s.queue[k] == p;
  }

  lemma FirstProxyIsCurrent(s: State, p: Ref, k: nat)
    requires Inv(s) && ProxiesInOrder(s) && s.ordseq != IDLE && s.queue != [] && !s.queue[0].Rq?
    requires !p.Rq? && PhaseOf(p) == CurSeq(s.ordseq) && k < |s.queue| && s.queue[k] == p
    ensures PhaseOf(s.queue[0]) == CurSeq(s.ordseq)
  {
    CurSeqIsLowestIncomplete(s.ordseq);
    assert Live(s, s.queue[0]);
  }

  // Runs that end a barrier.

  lemma {:induction false} RunJoin(s: State, a: seq<Event>, b: seq<Event>)
    requires Run(s, a) && NeverEarly(s, a) && Run(After(s, a), b) && NeverEarly(After(s, a), b)
    ensures Run(s, a + b) && NeverEarly(s, a + b) && After(s, a + b) == After(After(s, a), b)
    decreases |b|
  {
    hide Step, Enabled, EarlyEnd;
    if b == [] {
      assert a + b == a;
    } else {
      var n := |b| - 1;
      RunJoin(s, a, b[..n]);
      assert (a + b)[..|a + b| - 1] == a + b[..n];
    }
  }

  /** A run that ends the first k barriers after those already ended, and starts no new ones. */
  ghost predicate Ends(s: State, es: seq<Event>, k: nat) {
    && Run(s, es) && NeverEarly(s, es)
    && var t := After(s, es); Inv(t) && Ready(t) && t.ended == s.ended + k && t.barriers == s.barriers
  }

  lemma EndsJoin(s: State, a: seq<Event>, j: nat, b: seq<Event>, k: nat)
    requires Ends(s, a, j) && Ends(After(s, a), b, k)
    ensures Ends(s, a + b, j + k) && After(s, a + b) == After(After(s, a), b)
  {
    hide Inv, Ready;
    RunJoin(s, a, b);
  }

  lemma OneStep(s: State, e: Event)
    requires Enabled(s, e) && !EarlyEnd(s, e)
    ensures Run(s, [e]) && NeverEarly(s, [e]) && After(s, [e]) == Step(s, e)
  {
    hide Step, Enabled, EarlyEnd;
    assert [e][..0] == [];
  }

  lemma FetchStep(s: State) returns (es: seq<Event>)
    requires Inv(s) && Ready(s) && s.queue != [] && !BarrierAtHead(s) && MayStart(s, s.queue[0])
    ensures Ends(s, es, 0) && After(s, es).queue == s.queue && After(s, es).ordseq == s.ordseq
    ensures Get(After(s, es), s.queue[0]).started
  {
    hide Inv, Ready, MayStart, Fetch, BarrierAtHead;
    es := [FetchHead];
    HandedOutIff(s);
    FetchFrame(s);
    StepKeepsInv(s, FetchHead);
    StepReady(s, FetchHead);
    OneStep(s, FetchHead);
  }

  lemma DequeueStep(s: State, r: Ref) returns (es: seq<Event>)
    requires Inv(s) && Ready(s) && r in s.queue && Get(s, r).started
    ensures Ends(s, es, 0) && |After(s, es).queue| == |s.queue| - 1 && After(s, es).ordseq == s.ordseq
  {
    hide Inv, Ready, Minus;
    es := [Dequeue(r)];
    DequeueSize(s, r);
    StepKeepsInv(s, Dequeue(r));
    StepReady(s, Dequeue(r));
    OneStep(s, Dequeue(r));
  }

  /** The head is handed out and dequeued. */
  lemma TakeHead(s: State) returns (es: seq<Event>)
    requires Inv(s) && Ready(s) && s.queue != [] && !BarrierAtHead(s) && MayStart(s, s.queue[0])
    ensures Ends(s, es, 0) && |After(s, es).queue| == |s.queue| - 1 && After(s, es).ordseq == s.ordseq
  {
    hide Inv, Ready, MayStart, Run, After, NeverEarly, BarrierAtHead;
    es := FetchStep(s);
    var rest := DequeueStep(After(s, es), s.queue[0]);
    EndsJoin(s, es, 0, rest, 0);
    es := es + rest;
  }

  lemma FetchFrame(s: State)
    requires Inv(s) && s.queue != [] && !BarrierAtHead(s) && Fetch(s).1 == Some(s.queue[0])
    ensures var t := Fetch(s).0;
            && t.queue == s.queue && t.ordseq == s.ordseq && t.ended == s.ended && t.barriers == s.barriers
            && Get(t, s.queue[0]).started
  {
    if s.ordseq == IDLE { IdleHead(s); }
    hide Inv;
    GateFrame(s);
    hide DoOrdered;
    HandOutFrame(DoOrdered(s).0, s.queue[0]);
    hide HandOut;
  }

  lemma DequeueSize(s: State, r: Ref)
    requires r in s.queue
    ensures var t := DequeueRq(s, r);
            |t.queue| == |s.queue| - 1 && t.ordseq == s.ordseq && t.ended == s.ended && t.barriers == s.barriers
  {
  }

  /** With the head held back, completing anything the driver has does not end the drain early. */
  lemma FinishIsTimely(s: State, r: Ref)
    requires s.queue == [] || !MayStart(s, s.queue[0])
    requires r.Rq?
    ensures !EndsTooEarly(Retired(s, r))
  {
    var t := Retired(s, r);
    assert s.queue == [] || Keyed(t, t.queue[0]);
  }

  lemma EndFrame(s: State, r: Ref)
    requires Inv(s) && s.ordseq != IDLE && r in s.driver
    ensures var t := End(s, r, 0);
            && t.queue == s.queue && t.driver == s.driver - {r} && t.barriers == s.barriers
            && (if t.ordseq == IDLE then t.ended == s.ended + 1 else t.ended == s.ended)
  {
    if r.Rq? {
      EndRetires(s, r, 0);
      hide Inv;
      if DrainTest(Retired(s, r)) { DrainDoneFrame(Retired(s, r)); }
    } else {
      ProxyTurn(s, r);
      hide Inv;
    }
  }

  lemma DrainDoneFrame(s: State)
    requires DrainTest(s)
    ensures var t := CompleteSeq(s, DRAIN, 0);
            && t.queue == s.queue && t.driver == s.driver && t.barriers == s.barriers
            && (if t.ordseq == IDLE then t.ended == s.ended + 1 else t.ended == s.ended)
  {
    var m := s.ordseq;
    assert CurSeq(m) == DRAIN;
    hide DrainTest, ReqSeq;
    assert !Has(m, DRAIN) && Set(m, DRAIN) != IDLE;
  }

  lemma FinishOne(s: State, r: Ref) returns (es: seq<Event>)
    requires Inv(s) && Ready(s) && s.ordseq != IDLE && r in s.driver
    requires s.queue == [] || !MayStart(s, s.queue[0])
    ensures Run(s, es) && NeverEarly(s, es) && After(s, es) == End(s, r, 0)
    ensures Inv(End(s, r, 0)) && Ready(End(s, r, 0))
  {
    hide Inv, Ready, MayStart, End, EndsTooEarly;
    if r.Rq? { FinishIsTimely(s, r); }
    StepKeepsInv(s, Finish(r, 0));
    StepReady(s, Finish(r, 0));
    OneStep(s, Finish(r, 0));
    es := [Finish(r, 0)];
  }

  /** A barrier whose sequence runs can be ended. */
  lemma {:induction false} RunningCanEnd(s: State) returns (es: seq<Event>)
    requires Inv(s) && Ready(s) && s.ordseq != IDLE
    ensures Ends(s, es, 1)
    decreases |s.queue|, |s.driver|
  {
    hide Inv, Ready, MayStart, Run, After, NeverEarly;
    if s.queue != [] && MayStart(s, s.queue[0]) {
      es := TakeHead(s);
      var rest := RunningCanEnd(After(s, es));
      EndsJoin(s, es, 0, rest, 1);
      es := es + rest;
    } else {
      if s.driver == {} { HeadMayStart(s); }
      var r :| r in s.driver;
      es := FinishOne(s, r);
      EndFrame(s, r);
      var t := End(s, r, 0);
      hide End;
      if t.ordseq != IDLE {
        assert Ends(s, es, 0);
        var rest := RunningCanEnd(t);
        EndsJoin(s, es, 0, rest, 1);
        es := es + rest;
      }
    }
  }

  lemma BarrierQueued(s: State)
    requires Inv(s) && s.ordseq == IDLE && s.ended < |s.barriers|
    ensures s.queue != []
  {
    assert s.barriers[s.ended] in s.queue;
  }

  lemma IdleMayStart(s: State)
    requires Inv(s) && s.ordseq == IDLE && s.queue != [] && !BarrierAtHead(s)
    ensures MayStart(s, s.queue[0])
  {
    IdleHead(s);
  }

  /** A submitted barrier can be started. */
  lemma {:induction false} IdleCanStart(s: State) returns (es: seq<Event>)
    requires Inv(s) && Ready(s) && s.ordseq == IDLE && s.ended < |s.barriers|
    ensures Ends(s, es, 0) && After(s, es).ordseq != IDLE
    decreases |s.queue|
  {
    hide Inv, Ready, MayStart, Run, After, NeverEarly, Step, BarrierAtHead;
    BarrierQueued(s);
    if BarrierAtHead(s) {
      es := StartHead(s);
    } else {
      IdleMayStart(s);
      es := TakeHead(s);
      var rest := IdleCanStart(After(s, es));
      EndsJoin(s, es, 0, rest, 0);
      es := es + rest;
    }
  }

  lemma StartHead(s: State) returns (es: seq<Event>)
    requires Inv(s) && Ready(s) && BarrierAtHead(s)
    ensures Ends(s, es, 0) && After(s, es).ordseq != IDLE
  {
    hide Inv, Ready, Fetch;
    es := [FetchHead];
    BarrierStarts(s);
    StepKeepsInv(s, FetchHead);
    StepReady(s, FetchHead);
    OneStep(s, FetchHead);
  }

  lemma {:induction false} AllCanEnd(s: State) returns (es: seq<Event>)
    requires Inv(s) && Ready(s) && s.ended <= |s.barriers|
    ensures Ends(s, es, |s.barriers| - s.ended)
    decreases |s.barriers| - s.ended
  {
    hide Inv, Ready, Run, After, NeverEarly;
    if s.ended == |s.barriers| {
      es := [];
      NoSteps(s);
    } else {
      es := [];
      NoSteps(s);
      if s.ordseq == IDLE { es := IdleCanStart(s); }
      var one := RunningCanEnd(After(s, es));
      EndsJoin(s, es, 0, one, 1);
      var t := After(After(s, es), one);
      var rest := AllCanEnd(t);
      EndsJoin(s, es + one, 1, rest, |t.barriers| - t.ended);
      es := es + one + rest;
    }
  }

  lemma NoSteps(s: State)
    ensures Run(s, []) && NeverEarly(s, []) && After(s, []) == s
  {
  }

  // Over every run.

  lemma {:induction false} RunIsReady(preflush: bool, postflush: bool, es: seq<Event>)
    requires Run(Init(preflush, postflush), es) && NeverEarly(Init(preflush, postflush), es)
    ensures Inv(After(Init(preflush, postflush), es)) && Ready(After(Init(preflush, postflush), es))
    decreases |es|
  {
    hide Inv, Step, Enabled, EarlyEnd;
    RunKeepsInv(preflush, postflush, es);
    if es != [] {
      var n := |es| - 1;
      RunIsReady(preflush, postflush, es[..n]);
      hide Ready;
      StepReady(After(Init(preflush, postflush), es[..n]), es[n]);
    }
  }

  lemma EndedBound(s: State)
    requires Inv(s)
    ensures s.ended <= |s.barriers|
  {
  }

  /** No barrier is ever stuck: every run in which no drain ended too early goes on to one after
      which every barrier submitted so far has been ended. */
  lemma EveryBarrierCanEnd(preflush: bool, postflush: bool, es: seq<Event>) returns (more: seq<Event>)
    requires Run(Init(preflush, postflush), es) && NeverEarly(Init(preflush, postflush), es)
    ensures Run(Init(preflush, postflush), es + more) && NeverEarly(Init(preflush, postflush), es + more)
    ensures var s, t := After(Init(preflush, postflush), es), After(Init(preflush, postflush), es + more);
            t.barriers == s.barriers && t.ended == |s.barriers| && Ordered(t)
  {
    hide Inv, Ready, Run, After, NeverEarly;
    var s0 := Init(preflush, postflush);
    var s := After(s0, es);
    RunIsReady(preflush, postflush, es);
    EndedBound(s);
    more := AllCanEnd(s);
    RunJoin(s0, es, more);
    InvOrdered(After(s, more));
  }
}
