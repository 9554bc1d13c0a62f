/** Two runs on which the drain phase ends too early: a special request is inserted at the head,
    between a requeued earlier request and the completion of another. One breaks the order; on
    the other the requeued request had been handed out again, and the order holds. */
module BarrierHidden {
  import opened Collections
  import opened OrderedPhases
  import opened Barrier
  import opened BarrierInvariant
  import opened BarrierOrdering
  import opened BarrierEarlyEnd

  const A := Rq(1)
  const B := Rq(2)
  const BARRIER := Rq(3)
  const SPECIAL := Rq(4)

  predicate NoFinish(es: seq<Event>) {
    forall e | e in es :: !e.Finish?
  }

  lemma Extend(s: State, es: seq<Event>, e: Event)
    requires Run(s, es) && Enabled(After(s, es), e)
    ensures Run(s, es + [e]) && After(s, es + [e]) == Step(After(s, es), e)
    ensures NoFinish(es) && !e.Finish? ==> NoFinish(es + [e])
  {
    assert (es + [e])[..|es|] == es;
  }

  function Fs(hard: bool, soft: bool, started: bool): Request {
    Request(true, true, 0, 8, hard, soft, started, false)
  }

  /** Two earlier requests and the barrier, in submission order. */
  function Submitted(): State {
    Init(false, false).(
      queue := [A, B, BARRIER],
      rqs := map[A := Fs(false, true, false), B := Fs(false, true, false), BARRIER := Fs(true, true, false)],
      ordcolor := true, endSector := 8, boundary := Some(BARRIER),
      log := [A, B, BARRIER], epoch := map[A := 0, B := 0, BARRIER := 0], barriers := [BARRIER])
  }

  /** A request, or a barrier, joins a queue whose scheduler holds nothing. */
  function Joined(s: State, r: Ref, hard: bool): State {
    var t := s.(queue := s.queue + [r], rqs := s.rqs[r := Fs(hard, true, false)],
                log := s.log + [r], epoch := s.epoch[r := |s.barriers|]);
    if hard then t.(ordcolor := true, endSector := 8, boundary := Some(r), barriers := s.barriers + [r]) else t
  }

  lemma Join(s: State, r: Ref, hard: bool)
    requires r.Rq? && r !in s.log && s.sorted == {} && !s.ordcolor
    ensures var e := SubmitBack(r, true, hard, true, 0, 8, []);
            Enabled(s, e) && Step(s, e) == Joined(s, r, hard)
  {
  }

  lemma SubmittedJoined()
    ensures Joined(Joined(Joined(Init(false, false), A, false), B, false), BARRIER, true) == Submitted()
  {
    var s := Joined(Joined(Init(false, false), A, false), B, false);
    assert s.queue == [A, B] && s.log == [A, B];
    assert s.rqs == map[A := Fs(false, true, false), B := Fs(false, true, false)];
  }

  lemma Submit() returns (es: seq<Event>)
    ensures Run(Init(false, false), es) && After(Init(false, false), es) == Submitted() && NoFinish(es)
  {
    var s0 := Init(false, false);
    var e1 := SubmitBack(A, true, false, true, 0, 8, []);
    var e2 := SubmitBack(B, true, false, true, 0, 8, []);
    var e3 := SubmitBack(BARRIER, true, true, true, 0, 8, []);
    hide Step, Enabled;
    var s1 := Joined(s0, A, false);
    var s2 := Joined(s1, B, false);
    Join(s0, A, false);
    Join(s1, B, false);
    Join(s2, BARRIER, true);
    Extend(s0, [], e1);
    Extend(s0, [] + [e1], e2);
    Extend(s0, [] + [e1] + [e2], e3);
    es := [] + [e1] + [e2] + [e3];
    hide Run, After;
    SubmittedJoined();
  }

  /** The head is handed out and dequeued. */
  function Taken(s: State, r: Ref): State
    requires r in s.rqs && s.queue != []
  {
    s.(queue := s.queue[1..], driver := s.driver + {r},
       rqs := s.rqs[r := s.rqs[r].(started := true)],
       inFlight := s.inFlight + Count(s.rqs[r].fs))
  }

  lemma TakeHead(s: State, r: Ref)
    requires s.queue != [] && s.queue[0] == r && r in s.rqs && s.boundary == Some(BARRIER) && r != BARRIER
    requires DoOrdered(s) == (s, Some(r))
    ensures Enabled(s, FetchHead) && Enabled(Step(s, FetchHead), Dequeue(r))
    ensures Step(Step(s, FetchHead), Dequeue(r)) == Taken(s, r)
  {
    var t := Step(s, FetchHead);
    assert t == s.(rqs := s.rqs[r := s.rqs[r].(started := true)]);
    assert IndexOf(t.queue, r) == 0;
    assert t.queue[..0] + t.queue[1..] == s.queue[1..];
  }

  lemma ExtendTake(es: seq<Event>, s: State, r: Ref) returns (es': seq<Event>)
    requires Run(Init(false, false), es) && After(Init(false, false), es) == s
    requires s.queue != [] && s.queue[0] == r && r in s.rqs && s.boundary == Some(BARRIER) && r != BARRIER
    requires DoOrdered(s) == (s, Some(r))
    ensures Run(Init(false, false), es') && After(Init(false, false), es') == Taken(s, r)
    ensures NoFinish(es) ==> NoFinish(es')
  {
    TakeHead(s, r);
    Extend(Init(false, false), es, FetchHead);
    Extend(Init(false, false), es + [FetchHead], Dequeue(r));
    es' := es + [FetchHead] + [Dequeue(r)];
  }

  /** Both are with the driver; the barrier has started and waits for them. */
  function Waiting(): State {
    var s := Taken(Taken(Submitted(), A), B);
    s.(queue := [Bar], ordseq := StartMask(false, false, false), orig := BARRIER,
       rqs := s.rqs[Bar := Fs(true, true, false)][PreFlush := FLUSH_RQ][PostFlush := FLUSH_RQ])
  }

  lemma Wait(es0: seq<Event>) returns (es: seq<Event>)
    requires Run(Init(false, false), es0) && After(Init(false, false), es0) == Submitted()
    ensures Run(Init(false, false), es) && After(Init(false, false), es) == Waiting()
    ensures NoFinish(es0) ==> NoFinish(es)
  {
    es := ExtendTake(es0, Submitted(), A);
    es := ExtendTake(es, Taken(Submitted(), A), B);
    Start();
    Extend(Init(false, false), es, FetchHead);
    es := es + [FetchHead];
  }

  lemma Start()
    ensures var s := Taken(Taken(Submitted(), A), B);
            Enabled(s, FetchHead) && Step(s, FetchHead) == Waiting()
  {
    var s := Taken(Taken(Submitted(), A), B);
    assert s.queue == [BARRIER];
    assert StartOrdered(s) == Waiting();
  }

  /** A is requeued, then a special request goes in front of it. */
  function Covered(): State {
    var s := Waiting();
    s.(queue := [SPECIAL, A, Bar], driver := {B}, inFlight := 1,
       rqs := s.rqs[A := Fs(false, true, false)][SPECIAL := Request(false, false, 0, 0, false, true, false, true)],
       log := [A, B, BARRIER, SPECIAL], epoch := s.epoch[SPECIAL := 1])
  }

  /** A alone is requeued. */
  function Back(): State {
    var s := Waiting();
    s.(queue := [A, Bar], driver := {B}, inFlight := 1, rqs := s.rqs[A := Fs(false, true, false)])
  }

  lemma WaitingFacts()
    ensures var s := Waiting();
            && s.queue == [Bar] && s.driver == {A, B} && s.inFlight == 2 && s.ordseq != IDLE
            && Get(s, A) == Fs(false, true, true) && A in s.rqs
            && ReqSeq(s, A) == DRAIN && ReqSeq(s, Bar) == BAR
  {
  }

  lemma GoBack()
    ensures Enabled(Waiting(), RequeueOne(A)) && Step(Waiting(), RequeueOne(A)) == Back()
  {
    WaitingFacts();
    RequeueFirst(Waiting(), A);
  }

  lemma RequeueFirst(s: State, r: Ref)
    requires s.queue == [Bar] && s.driver == {A, B} && s.inFlight == 2 && s.ordseq != IDLE
    requires r == A && Get(s, A) == Fs(false, true, true)
    requires ReqSeq(s, A) == DRAIN && ReqSeq(s, Bar) == BAR
    ensures Requeue(s, r) == s.(queue := [A, Bar], driver := {B}, inFlight := 1,
                                rqs := s.rqs[A := Fs(false, true, false)])
  {
    var i := RequeueShape(s, A);
    assert InsertAt(s.queue, 0, A) == [A, Bar];
    assert s.driver - {A} == {B};
  }

  lemma Cover()
    ensures Enabled(Back(), SubmitFront(SPECIAL)) && Step(Back(), SubmitFront(SPECIAL)) == Covered()
  {
    assert [SPECIAL] + [A, Bar] == [SPECIAL, A, Bar];
    assert [A, B, BARRIER] + [SPECIAL] == [A, B, BARRIER, SPECIAL];
  }

  /** B completes: the drain phase is marked complete with A still queued. */
  function Fooled(): State {
    Covered().(driver := {}, inFlight := 0, completed := {B}, ordseq := StartMask(false, false, true))
  }

  /** The head looks past the drain phase although A stands right behind it. */
  lemma TestPasses()
    ensures DrainTest(Covered().(driver := {}, inFlight := 0, completed := {B}))
  {
    var s := Covered().(driver := {}, inFlight := 0, completed := {B});
    assert Get(s, SPECIAL).color && !Get(s, BARRIER).color;
    assert ReqSeq(s, SPECIAL) == DONE;
  }

  lemma Fool()
    ensures Enabled(Covered(), Finish(B, 0)) && Step(Covered(), Finish(B, 0)) == Fooled()
  {
    var s := Covered();
    assert Accounted(s, B);
    var t := s.(driver := {}, inFlight := 0, completed := {B});
    assert Retired(s, B) == t;
    EndRetires(s, B, 0);
    TestPasses();
    assert CompleteSeq(t, DRAIN, 0) == t.(ordseq := StartMask(false, false, true));
  }

  lemma WarnedHead()
    ensures var s1 := Taken(Fooled(), SPECIAL);
            var s2 := s1.(warned := true);
            && Enabled(s1, FetchHead) && Enabled(Step(s1, FetchHead), Dequeue(A)) && A in s2.rqs
            && Step(Step(s1, FetchHead), Dequeue(A)) == Taken(s2, A)
  {
    var s1 := Taken(Fooled(), SPECIAL);
    var s2 := s1.(warned := true);
    assert s1.queue == [A, Bar];
    assert DoOrdered(s1) == (s2, Some(A));
    assert DoOrdered(s2) == (s2, Some(A));
    TakeHead(s2, A);
    assert Step(s1, FetchHead) == Step(s2, FetchHead);
  }

  lemma TakeHidden(es0: seq<Event>) returns (es: seq<Event>)
    requires Run(Init(false, false), es0) && After(Init(false, false), es0) == Fooled()
    ensures Run(Init(false, false), es)
    ensures After(Init(false, false), es) == Taken(Taken(Fooled(), SPECIAL).(warned := true), A)
  {
    var s := Fooled();
    es := ExtendTake(es0, s, SPECIAL);
    var s1 := Taken(s, SPECIAL);
    var s2 := s1.(warned := true);
    WarnedHead();
    hide Step, Enabled, Fooled, Taken, Run, After, DoOrdered;
    Extend(Init(false, false), es, FetchHead);
    Extend(Init(false, false), es + [FetchHead], Dequeue(A));
    es := es + [FetchHead] + [Dequeue(A)];
  }

  /** Head insertion without the check breaks the order: the barrier proxy is handed to the
      driver while A, submitted before the barrier, is still there. */
  lemma UncheckedHeadInsertionBreaksOrder()
    ensures exists es: seq<Event> ::
              Run(Init(false, false), es) && !BarrierWaits(After(Init(false, false), es))
  {
    var s0 := Init(false, false);
    var es := Submit();
    es := Wait(es);
    GoBack();
    Cover();
    Extend(s0, es, RequeueOne(A));
    Extend(s0, es + [RequeueOne(A)], SubmitFront(SPECIAL));
    es := es + [RequeueOne(A)] + [SubmitFront(SPECIAL)];
    Fool();
    Extend(s0, es, Finish(B, 0));
    es := TakeHidden(es + [Finish(B, 0)]);
    BarIsHandedOut();
    assert !BarrierWaits(After(s0, es));
  }

  lemma BarIsHandedOut()
    ensures !BarrierWaits(Taken(Taken(Fooled(), SPECIAL).(warned := true), A))
  {
    var s := Taken(Taken(Fooled(), SPECIAL).(warned := true), A);
    assert s.queue == [Bar];
    assert Fetch(s).1 == Some(Bar);
    var t := Fetch(s).0;
    assert t.log[2] == t.orig && t.log[0] == A && FsRq(t, A) && A !in t.completed;
  }

  // The requeued request is handed out before it is covered.

  function Handed(s: State): State {
    s.(rqs := s.rqs[A := Fs(false, true, true)])
  }

  lemma HandOutAgain()
    ensures Enabled(Back(), FetchHead) && Step(Back(), FetchHead) == Handed(Back())
    ensures Enabled(Handed(Back()), SubmitFront(SPECIAL))
    ensures Step(Handed(Back()), SubmitFront(SPECIAL)) == Handed(Covered())
  {
    var s := Back();
    assert ReqSeq(s, A) == DRAIN;
    assert DoOrdered(s) == (s, Some(A));
    assert [SPECIAL] + [A, Bar] == [SPECIAL, A, Bar];
    assert [A, B, BARRIER] + [SPECIAL] == [A, B, BARRIER, SPECIAL];
    assert Step(Handed(s), SubmitFront(SPECIAL)).rqs == Handed(Covered()).rqs;
  }

  lemma {:induction false} NoFinishNeverEarly(s: State, es: seq<Event>)
    requires Run(s, es) && NoFinish(es)
    ensures NeverEarly(s, es)
    decreases |es|
  {
    if es != [] { NoFinishNeverEarly(s, es[..|es| - 1]); }
  }

  lemma CoveredInv()
    ensures Inv(Handed(Covered()))
  {
    hide Inv, Handed, Covered, Back, Waiting, Submitted, Step, Enabled, NoFinish, NeverEarly;
    var s0 := Init(false, false);
    var es := Submit();
    es := Wait(es);
    GoBack();
    HandOutAgain();
    Extend(s0, es, RequeueOne(A));
    Extend(s0, es + [RequeueOne(A)], FetchHead);
    Extend(s0, es + [RequeueOne(A)] + [FetchHead], SubmitFront(SPECIAL));
    es := es + [RequeueOne(A)] + [FetchHead] + [SubmitFront(SPECIAL)];
    NoFinishNeverEarly(s0, es);
    RunKeepsInv(false, false, es);
  }

  lemma EndsEarly()
    ensures EndsTooEarly(Retired(Handed(Covered()), B)) && End(Handed(Covered()), B, 0) == Handed(Fooled())
  {
    var s := Handed(Covered());
    assert Accounted(s, B);
    var t := s.(driver := {}, inFlight := 0, completed := {B});
    assert Retired(s, B) == t;
    EndRetires(s, B, 0);
    assert Get(t, SPECIAL).color && !Get(t, BARRIER).color;
    assert ReqSeq(t, SPECIAL) == DONE && ReqSeq(t, A) == DRAIN;
    assert t.queue[0] == SPECIAL && t.queue[1] == A && FirstKeyed(t, 1) == 1;
    assert CompleteSeq(t, DRAIN, 0) == t.(ordseq := StartMask(false, false, true));
  }

  /** A is dequeued and completes; then the special request is taken. */
  function Dequeued(): State {
    Handed(Fooled()).(queue := [SPECIAL, Bar], driver := {A}, inFlight := 1)
  }

  function Recovered(): State {
    Handed(Fooled()).(queue := [SPECIAL, Bar], completed := {A, B})
  }

  lemma DequeueHidden()
    ensures Enabled(Handed(Fooled()), Dequeue(A)) && Step(Handed(Fooled()), Dequeue(A)) == Dequeued()
  {
    hide Minus, IndexOf;
    var s := Handed(Fooled());
    assert s.queue == [SPECIAL, A, Bar];
    WithoutSecond(s.queue);
    assert Accounted(s, A) && s.driver == {} && s.inFlight == 0;
  }

  lemma WithoutSecond(q: seq<Ref>)
    requires q == [SPECIAL, A, Bar]
    ensures Minus(q, A) == [SPECIAL, Bar]
  {
    assert q[1..] == [A, Bar];
    assert IndexOf(q[1..], A) == 0;
    assert q[..1] + q[2..] == [SPECIAL, Bar];
  }

  lemma FinishHidden()
    ensures Enabled(Dequeued(), Finish(A, 0)) && Step(Dequeued(), Finish(A, 0)) == Recovered()
  {
    var t := Dequeued();
    assert Accounted(t, A) && t.completed + {A} == {A, B} && t.driver - {A} == {};
    assert Retired(t, A) == Recovered();
    EndRetires(t, A, 0);
  }

  lemma TakeSpecial()
    ensures Enabled(Recovered(), FetchHead) && Enabled(Step(Recovered(), FetchHead), Dequeue(SPECIAL))
    ensures Step(Step(Recovered(), FetchHead), Dequeue(SPECIAL)) == Taken(Recovered(), SPECIAL)
    ensures !Broken(Step(Recovered(), FetchHead))
  {
    var v := Recovered();
    assert DoOrdered(v) == (v, Some(SPECIAL));
    TakeHead(v, SPECIAL);
    NotYet(Step(v, FetchHead));
  }

  lemma NotYet(s: State)
    requires s.queue != [] && s.queue[0] == SPECIAL && !Get(s, SPECIAL).fs && s.ordseq != IDLE && !s.warned
    ensures !Broken(s)
  {
  }

  lemma UnbrokenSoFar()
    ensures !Broken(Handed(Fooled())) && !Broken(Dequeued()) && !Broken(Recovered())
  {
    hide Broken;
    NotYet(Handed(Fooled()));
    NotYet(Dequeued());
    NotYet(Recovered());
  }

  lemma AtLast()
    ensures var s := Taken(Recovered(), SPECIAL); HandsOutBar(s, FetchHead) && !Broken(s)
  {
    var s := Taken(Recovered(), SPECIAL);
    assert s.queue == [Bar];
    var t := Fetch(s).0;
    assert Fetch(s).1 == Some(Bar);
    assert t.log == [A, B, BARRIER, SPECIAL] && t.orig == BARRIER && t.completed == {A, B};
    assert EarlierDone(t);
  }

  const RECOVERY := [Dequeue(A), Finish(A, 0), FetchHead, Dequeue(SPECIAL)]

  lemma Recover()
    ensures var u := Handed(Fooled());
            && Run(u, []) && After(u, []) == u
            && Run(u, RECOVERY[..1]) && After(u, RECOVERY[..1]) == Dequeued()
            && Run(u, RECOVERY[..2]) && After(u, RECOVERY[..2]) == Recovered()
            && Run(u, RECOVERY[..3]) && After(u, RECOVERY[..3]) == Step(Recovered(), FetchHead)
            && Run(u, RECOVERY) && After(u, RECOVERY) == Taken(Recovered(), SPECIAL)
  {
    hide Handed, Fooled, Dequeued, Recovered, Taken, Step, Enabled;
    var u := Handed(Fooled());
    DequeueHidden();
    FinishHidden();
    TakeSpecial();
    Extend(u, [], RECOVERY[0]);
    assert RECOVERY[..1] == [] + [RECOVERY[0]];
    Extend(u, RECOVERY[..1], RECOVERY[1]);
    assert RECOVERY[..2] == RECOVERY[..1] + [RECOVERY[1]];
    Extend(u, RECOVERY[..2], RECOVERY[2]);
    assert RECOVERY[..3] == RECOVERY[..2] + [RECOVERY[2]];
    Extend(u, RECOVERY[..3], RECOVERY[3]);
    assert RECOVERY == RECOVERY[..3] + [RECOVERY[3]];
  }

  lemma Unbroken(n: int)
    ensures !BrokenAt(Handed(Fooled()), RECOVERY, n)
  {
    hide Handed, Fooled, Dequeued, Recovered, Taken, Step, Enabled, Broken, Run, After;
    Recover();
    UnbrokenSoFar();
    TakeSpecial();
    AtLast();
    assert RECOVERY[..0] == [] && RECOVERY[..4] == RECOVERY;
    assert 0 <= n <= |RECOVERY| ==> n in {0, 1, 2, 3, 4};
  }

  /** The request left behind had been handed out: this continuation hands out the barrier
      proxy with no warning and in order. */
  lemma EarlyEndOverHandedOutMayHold()
    ensures exists s: State, r: Ref, es: seq<Event> ::
              && Inv(s) && r in s.driver && r.Rq? && EndsTooEarly(Retired(s, r))
              && Run(End(s, r, 0), es) && HandsOutBar(After(End(s, r, 0), es), FetchHead)
              && forall n :: !BrokenAt(End(s, r, 0), es, n)
  {
    var s := Handed(Covered());
    assert s.driver == {B};
    hide Handed, Covered, Fooled, Recovered, Taken, Broken, Run, After, Inv, HandsOutBar, EndsTooEarly, End;
    CoveredInv();
    EndsEarly();
    Recover();
    AtLast();
    forall n ensures !BrokenAt(End(s, B, 0), RECOVERY, n) {
      Unbroken(n);
    }
  }
}
