/** What a barrier is ended with: the first error that a phase of its sequence reported, or success. */
module BarrierErrors {
  import opened Collections
  import opened OrderedPhases
  import opened Barrier
  import opened BarrierInvariant
  import opened BarrierOrdering

  function FirstError(errors: seq<int>): int {
    if errors == [] then 0 else if errors[0] != 0 then errors[0] else FirstError(errors[1..])
  }

  lemma {:induction false} OneMoreError(errors: seq<int>, e: int)
    ensures FirstError(errors + [e]) == if FirstError(errors) != 0 then FirstError(errors) else e
  {
    if errors == [] {
      assert [e][1..] == [];
    } else {
      assert (errors + [e])[1..] == errors[1..] + [e];
      OneMoreError(errors[1..], e);
    }
  }

  /** What the proxies of the latest sequence were completed with, in the order of completion. */
  ghost function Reported(s: State, es: seq<Event>): seq<int>
    requires Run(s, es)
    decreases |es|
  {
    if es == [] then []
    else
      var n := |es| - 1;
      if es[n].FetchHead? && BarrierAtHead(After(s, es[..n])) then []
      else if es[n].Finish? && !es[n].r.Rq? then Reported(s, es[..n]) + [es[n].error]
      else Reported(s, es[..n])
  }

  /** Neither the error nor the outcome of any barrier changes. */
  predicate SameErrors(s: State, t: State) {
    t.orderr == s.orderr && t.results == s.results && t.ended == s.ended
  }

  lemma SubmitErrors(s: State, e: Event)
    requires Enabled(s, e) && (e.SubmitSorted? || e.SubmitBack? || e.SubmitFront?)
    ensures SameErrors(s, Step(s, e))
  {
    if e.SubmitBack? {
      var rq := Request(e.fs, e.write, e.sector, e.end, e.barrier, false, false, false);
      var s1 := Enter(s, e.r, rq);
      var s2 := Put(s1, e.r, Get(s1, e.r).(soft := true));
      assert SameErrors(s, s2);
      hide Enter, DrainElevator;
      DrainErrors(s2, e.choices);
    }
  }

  lemma {:induction false} DrainErrors(s: State, cs: seq<Choice>)
    ensures SameErrors(s, DrainElevator(s, cs))
    decreases |cs|
  {
    if cs != [] {
      hide Dispatch;
      DispatchErrors(s, cs[0].r, cs[0].toTail);
      DrainErrors(Dispatch(s, cs[0].r, cs[0].toTail), cs[1..]);
    }
  }

  lemma FetchErrors(s: State)
    requires Inv(s) && s.queue != []
    ensures if BarrierAtHead(s) then Fetch(s).0.orderr == 0 && Fetch(s).0.results == s.results && Fetch(s).0.ended == s.ended
            else SameErrors(s, Fetch(s).0)
  {
    if s.ordseq == IDLE { IdleHead(s); }
    hide Inv;
    GateErrors(s);
    var (u, got) := DoOrdered(s);
    hide DoOrdered;
    if got.Some? { HandOutFrame(u, got.value); }
    hide HandOut;
  }

  lemma GateErrors(s: State)
    requires s.queue != [] && (s.ordseq == IDLE ==> s.queue[0].Rq?)
    ensures var t := DoOrdered(s).0;
            if BarrierAtHead(s) then t.orderr == 0 && t.results == s.results && t.ended == s.ended
            else SameErrors(s, t)
  {
  }

  lemma FinishRqErrors(s: State, r: Ref, error: int)
    requires Inv(s) && r in s.driver && r.Rq?
    ensures SameErrors(s, End(s, r, error))
  {
    EndRetires(s, r, error);
    if DrainTest(Retired(s, r)) { DrainErrorsNone(Retired(s, r), s.ordseq); }
  }

  lemma DrainErrorsNone(s: State, m: Mask)
    requires s.ordseq == m && Running(m) && CurSeq(m) == DRAIN && (Has(m, BAR) ==> Has(m, DRAIN))
    ensures SameErrors(s, CompleteSeq(s, DRAIN, 0))
  {
  }

  /** The end of the sequence reports its first error. */
  function Outcome(error: int): int {
    if error != 0 then error else 1
  }

  lemma FinishProxyErrors(s: State, r: Ref, error: int)
    requires Inv(s) && r in s.driver && !r.Rq?
    ensures var t := End(s, r, error);
            && t.orderr == (if s.orderr != 0 then s.orderr else error)
            && (t.ended == s.ended || t.ended == s.ended + 1)
            && t.results == if t.ended == s.ended then s.results else s.results + [Outcome(t.orderr)]
  {
    ProxyTurn(s, r);
    hide Inv;
  }

  /** One step: the error so far and the outcomes follow what is reported. */
  lemma StepErrors(s: State, e: Event)
    requires Inv(s) && Enabled(s, e)
    ensures var t := Step(s, e);
            && t.orderr == (if e.FetchHead? && BarrierAtHead(s) then 0
                            else if e.Finish? && !e.r.Rq? && s.orderr == 0 then e.error else s.orderr)
            && (t.ended == s.ended || t.ended == s.ended + 1)
            && t.results == if t.ended == s.ended then s.results else s.results + [Outcome(t.orderr)]
  {
    hide Inv, BarrierAtHead, End, Fetch, Dispatch, DequeueRq, Requeue;
    match e
    case SubmitSorted(_, _, _, _) => SubmitErrors(s, e);
    case SubmitBack(_, _, _, _, _, _, _) => SubmitErrors(s, e);
    case SubmitFront(_) => SubmitErrors(s, e);
    case DispatchOne(r, toTail) => DispatchErrors(s, r, toTail);
    case FetchHead => FetchErrors(s);
    case Dequeue(r) => DequeueErrors(s, r);
    case Finish(r, error) =>
      if r.Rq? { FinishRqErrors(s, r, error); } else { FinishProxyErrors(s, r, error); }
    case RequeueOne(r) => RequeueErrors(s, r);
    case SetFlush(_, _) =>
  }

  lemma DispatchErrors(s: State, r: Ref, toTail: bool)
    ensures SameErrors(s, Dispatch(s, r, toTail))
  {
    hide SortIndex, InsertAt;
  }

  lemma DequeueErrors(s: State, r: Ref)
    ensures SameErrors(s, DequeueRq(s, r))
  {
    hide Minus;
  }

  lemma RequeueErrors(s: State, r: Ref)
    ensures SameErrors(s, Requeue(s, r))
  {
    hide RequeueIndex, InsertAt, ReqSeq;
  }

  /** Over every run, the queue's error is the first one reported since the sequence started. */
  lemma {:induction false} ErrorIsFirst(preflush: bool, postflush: bool, es: seq<Event>)
    requires Run(Init(preflush, postflush), es) && NeverEarly(Init(preflush, postflush), es)
    ensures After(Init(preflush, postflush), es).orderr == FirstError(Reported(Init(preflush, postflush), es))
    decreases |es|
  {
    hide Inv, Step, Enabled, EarlyEnd, BarrierAtHead;
    if es != [] {
      var s0, n := Init(preflush, postflush), |es| - 1;
      ErrorIsFirst(preflush, postflush, es[..n]);
      RunKeepsInv(preflush, postflush, es[..n]);
      StepErrors(After(s0, es[..n]), es[n]);
      if es[n].Finish? { OneMoreError(Reported(s0, es[..n]), es[n].error); }
    }
  }

  /** A step that ends a barrier ends it with that error, or with success; no other outcome is ever
      recorded or changed. */
  lemma BarrierEndsWithFirstError(preflush: bool, postflush: bool, es: seq<Event>)
    requires Run(Init(preflush, postflush), es) && NeverEarly(Init(preflush, postflush), es) && es != []
    ensures var s0 := Init(preflush, postflush);
            var s, t := After(s0, es[..|es| - 1]), After(s0, es);
            && (t.ended == s.ended || t.ended == s.ended + 1)
            && t.results == if t.ended == s.ended then s.results else s.results + [Outcome(FirstError(Reported(s0, es)))]
  {
    hide Inv, Step, Enabled, EarlyEnd, FirstError, Reported;
    var s0, n := Init(preflush, postflush), |es| - 1;
    ErrorIsFirst(preflush, postflush, es);
    RunKeepsInv(preflush, postflush, es[..n]);
    StepErrors(After(s0, es[..n]), es[n]);
  }
}
