/** The request queue as the source keeps it, fields updated in place. Every method takes the
    step of the transition system in Barrier, whatever the state of the queue. From a valid queue
    it promises more: that the queue stays valid, and what the drain and the barrier wait for. */
module BarrierQueue {
  import opened Collections
  import opened OrderedPhases
  import opened Barrier
  import opened BarrierInvariant
  import opened BarrierOrdering
  import opened BarrierReady
  import opened BarrierProgress

  /** Where the rest of the kernel holds requests, and the history of the run. */
  datatype Past = Past(sorted: set<Ref>, driver: set<Ref>, log: seq<Ref>, epoch: map<Ref, nat>,
                       barriers: seq<Ref>, ended: nat, completed: set<Ref>, results: seq<int>)

  /** The invariant holds, and what a running sequence waits for is on its way. */
  ghost predicate Good(s: State) {
    Inv(s) && Ready(s)
  }

  /** What is handed out: the head if it may be started; a barrier at the head starts its sequence,
      and its first proxy goes out if nothing is in flight. */
  ghost function HandedOut(s: State): Option<Ref>
    requires s.queue != []
  {
    if BarrierAtHead(s) then
      if s.inFlight == 0 then Some(if s.preflush then PreFlush else Bar) else None
    else if MayStart(s, s.queue[0]) then Some(s.queue[0]) else None
  }

  // The invariant lemmas, as facts about one call.

  lemma StepValid(s: State, e: Event)
    requires Enabled(s, e) && !e.Finish?
    ensures Good(s) ==> Good(Step(s, e))
  {
    hide Inv, Ready;
    if Good(s) { StepKeepsInv(s, e); StepReady(s, e); }
  }

  lemma EndValid(s: State, r: Ref, error: int)
    ensures Good(s) && r in s.driver && !r.Rq? ==> Good(End(s, r, error))
    ensures Good(s) && r in s.driver && r.Rq? ==> (Good(End(s, r, error)) <==> !EndsTooEarly(Retired(s, r)))
  {
    hide Inv, Ready, EndsTooEarly, End;
    if Good(s) && r in s.driver {
      FinishReady(s, r, error);
      if r.Rq? { FinishKeepsInvIff(s, r, error); } else { FinishKeepsInv(s, r, error); }
    }
  }

  lemma DispatchValid(s: State, r: Ref, toTail: bool)
    ensures Good(s) && r in s.sorted ==> Good(Dispatch(s, r, toTail))
  {
    hide Inv, Ready, Dispatch;
    if Good(s) && r in s.sorted { StepValid(s, DispatchOne(r, toTail)); }
  }

  lemma DrainValid(s: State, choices: seq<Choice>)
    ensures Good(s) && Drains(choices, s.sorted) ==>
              Good(DrainElevator(s, choices)) && DrainElevator(s, choices).sorted == {}
  {
    hide Inv, Ready, DrainElevator, Drains;
    if Good(s) && Drains(choices, s.sorted) {
      forall x | x in s.sorted ensures x.Rq? { SortedIsSubmitted(s, x); }
      DrainKeepsInv(s, choices);
      DrainReady(s, choices);
      DrainFrame(s, s, choices);
    }
  }

  lemma RequeueValid(s: State, r: Ref)
    ensures Good(s) && r in s.driver ==> Good(Requeue(s, r))
  {
    hide Inv, Ready, Requeue;
    if Good(s) && r in s.driver { StepValid(s, RequeueOne(r)); }
  }

  lemma StartValid(s: State)
    requires s.queue != [] && s.ordseq == IDLE
    ensures Good(s) && Get(s, s.queue[0]).fs && Get(s, s.queue[0]).hard ==> Good(StartOrdered(s))
  {
    hide Inv, Ready, StartOrdered;
    if Good(s) && Get(s, s.queue[0]).fs && Get(s, s.queue[0]).hard {
      IdleHead(s);
      StartKeepsInv(s);
      StartReady(s);
    }
  }

  lemma GateValid(s: State)
    requires s.queue != []
    ensures Good(s) ==> && Good(DoOrdered(s).0) && DoOrdered(s).1 == HandedOut(s)
                        && (DoOrdered(s).1.Some? ==> MayStart(DoOrdered(s).0, DoOrdered(s).1.value))
  {
    hide Inv, Ready, DoOrdered, MayStart, BarrierAtHead;
    if Good(s) {
      DoOrderedKeepsInv(s);
      GateReady(s);
      if BarrierAtHead(s) { BarrierStarts(s); } else { HandedOutIff(s); }
    }
  }

  lemma FetchValid(s: State)
    requires s.queue != []
    ensures Good(s) ==> && Good(Fetch(s).0) && LaterUntouched(Fetch(s).0) && !Fetch(s).0.warned
                        && (Fetch(s).1 == Some(Bar) ==> EarlierDone(Fetch(s).0)) && Fetch(s).1 == HandedOut(s)
  {
    hide Inv, Ready, Fetch, EarlierDone, LaterUntouched, MayStart, BarrierAtHead;
    if Good(s) {
      FetchKeepsInv(s);
      FetchReady(s);
      InvOrdered(s);
      InvOrdered(Fetch(s).0);
      if BarrierAtHead(s) { BarrierStarts(s); } else { HandedOutIff(s); }
    }
  }

  lemma DequeueValid(s: State, r: Ref)
    ensures Good(s) && r in s.queue && Get(s, r).started ==>
              var t := DequeueRq(s, r); Good(t) && r in t.driver && r !in t.queue
  {
    if Good(s) && r in s.queue && Get(s, r).started {
      MinusFacts(s.queue, r);
      hide Inv, Ready, Minus;
      DequeueKeepsInv(s, r);
      DequeueReady(s, r);
    }
  }

  class RequestQueue {
    var queue: seq<Ref>
    var rqs: map<Ref, Request>
    var ordcolor: bool
    var ordseq: Mask
    var orderr: int
    var inFlight: int
    var preflush: bool
    var postflush: bool
    var orig: Ref
    var endSector: nat
    var boundary: Option<Ref>
    var bug: bool
    var warned: bool

    ghost var past: Past

    ghost function View(): State
      reads this
    {
      State(queue, past.sorted, past.driver, rqs, ordcolor, ordseq, orderr, inFlight,
            preflush, postflush, orig, endSector, boundary,
            past.log, past.epoch, past.barriers, past.ended, past.completed, past.results, bug, warned)
    }

    ghost predicate Valid()
      reads this
    {
      Good(View())
    }

    /** In a valid queue no BUG_ON or WARN_ON has been hit, and nothing submitted after the barrier
        in progress has reached the driver. */
    lemma ValidIsOrdered()
      requires Valid()
      ensures Ordered(View())
    {
      InvOrdered(View());
    }

    /** From a valid queue, some run ends every barrier submitted so far. */
    lemma ValidCanEnd() returns (es: seq<Event>)
      requires Valid()
      ensures Run(View(), es) && After(View(), es).ended == |past.barriers| && Ordered(After(View(), es))
    {
      EndedBound(View());
      es := AllCanEnd(View());
      InvOrdered(After(View(), es));
    }

    constructor (preflush: bool, postflush: bool)
      ensures View() == Init(preflush, postflush) && Valid()
    {
      queue, rqs, ordcolor, ordseq, orderr, inFlight := [], map[], false, IDLE, 0, 0;
      this.preflush, this.postflush := preflush, postflush;
      orig, endSector, boundary, bug, warned := Rq(0), 0, None, false, false;
      past := Past({}, {}, [], map[], [], 0, {}, []);
      new;
      InitInv(preflush, postflush);
    }

    function Lookup(r: Ref): (rq: Request)
      reads this
      ensures rq == Get(View(), r)
    {
      if r in rqs then rqs[r] else UNUSED
    }

    /** blk_ordered_req_seq */
    method OrderedReqSeq(r: Ref) returns (phase: int)
      ensures phase == ReqSeq(View(), r)
    {
      if r == PreFlush { return PREFLUSH; }
      if r == Bar { return BAR; }
      if r == PostFlush { return POSTFLUSH; }
      phase := if Lookup(r).color == Lookup(orig).color then DRAIN else DONE;
    }

    /** blk_ordered_complete_seq */
    method OrderedCompleteSeq(phase: int, error: int)
      modifies this
      ensures View() == CompleteSeq(old(View()), phase, error)
    {
      if Has(ordseq, phase) {
        bug := true;
        return;
      }
      if error != 0 && orderr == 0 {
        orderr := error;
      }
      ordseq := Set(ordseq, phase);
      if CurSeq(ordseq) == DONE {
        EndSequence();
      }
    }

    /** The last part of blk_ordered_complete_seq: the original request is ended. */
    method EndSequence()
      modifies this
      ensures View() == EndBarrier(old(View()))
    {
      var rq := Lookup(orig);
      ordseq := IDLE;
      var result := if orderr != 0 then orderr else 1;
      past := past.(completed := past.completed + {orig}, ended := past.ended + 1, results := past.results + [result]);
      if rq.started && rq.fs {
        inFlight := inFlight - 1;
      }
    }

    /** elv_completed_request */
    method CompletedRequest(r: Ref)
      modifies this
      ensures View() == Completed(old(View()), r)
    {
      hide ReqSeq, CompleteSeq, CurSeq;
      if Lookup(r).started && Lookup(r).fs {
        inFlight := inFlight - 1;
      }
      if ordseq != IDLE && inFlight == 0 && CurSeq(ordseq) == DRAIN && queue != [] {
        var phase := OrderedReqSeq(queue[0]);
        if phase > DRAIN {
          OrderedCompleteSeq(DRAIN, 0);
        }
      }
    }

    /** end_that_request_last, with the end_io function of a proxy */
    method EndRequest(r: Ref, error: int)
      modifies this
      ensures View() == End(old(View()), r, error)
      ensures old(Valid() && r in past.driver) ==>
                if r.Rq? then Valid() <==> !EndsTooEarly(Retired(old(View()), r)) else Valid()
    {
      hide Good;
      past := past.(driver := past.driver - {r});
      if r.Rq? {
        past := past.(completed := past.completed + {r});
        CompletedRequest(r);
      } else {
        CompletedRequest(r);
        var phase := if r == PreFlush then PREFLUSH else if r == Bar then BAR else POSTFLUSH;
        OrderedCompleteSeq(phase, error);
      }
      EndValid(old(View()), r, error);
    }

    /** The walk of elv_dispatch_sort: back from the tail past what may be passed. */
    method SortPosition(rq: Request) returns (i: nat)
      ensures i == SortIndex(View(), rq, |queue|)
    {
      i := |queue|;
      while i > 0
        invariant i <= |queue|
        invariant SortIndex(View(), rq, |queue|) == SortIndex(View(), rq, i)
      {
        var pos := Lookup(queue[i - 1]);
        if rq.write != pos.write { break; }
        if pos.soft || pos.hard || pos.started { break; }
        if rq.sector >= endSector {
          if pos.sector < endSector {
            i := i - 1;
            continue;
          }
        } else {
          if pos.sector >= endSector { break; }
        }
        if rq.sector >= pos.sector { break; }
        i := i - 1;
      }
    }

    /** elv_dispatch_sort */
    method DispatchSort(r: Ref)
      modifies this
      ensures View() == Dispatch(old(View()), r, false)
      ensures old(Valid() && r in past.sorted) ==> Valid()
    {
      hide Good;
      var i := SortPosition(Lookup(r));
      past := past.(sorted := past.sorted - {r});
      queue := queue[..i] + [r] + queue[i..];
      DispatchValid(old(View()), r, false);
    }

    /** elv_dispatch_add_tail */
    method DispatchAddTail(r: Ref)
      modifies this
      ensures View() == Dispatch(old(View()), r, true)
      ensures old(Valid() && r in past.sorted) ==> Valid()
    {
      hide Good;
      past := past.(sorted := past.sorted - {r});
      endSector := Lookup(r).end;
      boundary := Some(r);
      queue := queue + [r];
      DispatchValid(old(View()), r, true);
    }

    /** elv_drain_elevator; the scheduler's choices are an input. */
    method Drain(choices: seq<Choice>)
      modifies this
      ensures View() == DrainElevator(old(View()), choices)
      ensures old(Valid()) && Drains(choices, old(past.sorted)) ==> Valid() && past.sorted == {}
    {
      hide Good;
      var i := 0;
      while i < |choices|
        invariant i <= |choices|
        invariant DrainElevator(old(View()), choices) == DrainElevator(View(), choices[i..])
      {
        if choices[i].toTail { DispatchAddTail(choices[i].r); } else { DispatchSort(choices[i].r); }
        i := i + 1;
      }
      DrainValid(old(View()), choices);
    }

    /** The walk of ELEVATOR_INSERT_REQUEUE: past every request of a lower phase. */
    method RequeuePosition(phase: int) returns (i: nat)
      ensures i <= |queue| && i == RequeueIndex(View(), phase, 0)
    {
      i := 0;
      while i < |queue|
        invariant i <= |queue|
        invariant RequeueIndex(View(), phase, 0) == RequeueIndex(View(), phase, i)
      {
        var p := OrderedReqSeq(queue[i]);
        if phase <= p { break; }
        i := i + 1;
      }
    }

    /** elv_requeue_request up to elv_insert */
    method Unstart(r: Ref)
      modifies this`inFlight, this`past, this`rqs
      ensures var s := old(View());
              View() == Put(s, r, Get(s, r).(started := false, soft := true))
                        .(inFlight := s.inFlight - Count(Accounted(s, r)), driver := s.driver - {r})
    {
      var rq := Lookup(r);
      if rq.started && rq.fs {
        inFlight := inFlight - 1;
      }
      past := past.(driver := past.driver - {r});
      rqs := rqs[r := rq.(started := false, soft := true)];
    }

    /** elv_requeue_request and the ELEVATOR_INSERT_REQUEUE arm of elv_insert */
    method RequeueRequest(r: Ref)
      modifies this
      ensures View() == Requeue(old(View()), r)
      ensures old(Valid() && r in past.driver) ==> Valid()
    {
      hide ReqSeq, RequeueIndex, Good, Get;
      Unstart(r);
      if ordseq == IDLE {
        queue := [r] + queue;
        assert queue == InsertAt(old(queue), 0, r);
      } else {
        var phase := OrderedReqSeq(r);
        var i := RequeuePosition(phase);
        queue := queue[..i] + [r] + queue[i..];
      }
      RequeueValid(old(View()), r);
    }

    /** The scheduling-boundary update of __elv_add_request */
    method NoteBoundary(r: Ref, rq: Request)
      modifies this`endSector, this`boundary
      ensures View() == Boundary(old(View()), r, rq)
      ensures endSector == (if rq.fs && (rq.soft || rq.hard) then rq.end else old(endSector))
      ensures boundary == (if rq.fs && (rq.soft || rq.hard) then Some(r) else old(boundary))
    {
      if rq.fs && (rq.soft || rq.hard) {
        endSector := rq.end;
        boundary := Some(r);
      }
    }

    /** The colour bookkeeping of __elv_add_request */
    method Stamp(r: Ref, rq: Request)
      modifies this`rqs, this`ordcolor
      ensures rqs == old(rqs)[r := rq.(color := old(ordcolor) || rq.color)]
      ensures ordcolor == if rq.hard then !old(ordcolor) else old(ordcolor)
    {
      rqs := rqs[r := rq.(color := ordcolor || rq.color)];
      if rq.hard {
        ordcolor := !ordcolor;
      }
    }

    /** __elv_add_request up to elv_insert */
    method EnterRequest(r: Ref, rq: Request)
      modifies this
      ensures View() == Enter(old(View()), r, rq)
    {
      hide Get;
      NoteBoundary(r, rq);
      Stamp(r, rq);
      past := past.(log := past.log + [r], epoch := past.epoch[r := |past.barriers|],
                    barriers := if rq.hard then past.barriers + [r] else past.barriers);
    }

    /** __elv_add_request, ELEVATOR_INSERT_SORT */
    method AddSorted(r: Ref, write: bool, sector: nat, end: nat)
      requires r.Rq? && r !in past.log
      modifies this
      ensures View() == Step(old(View()), SubmitSorted(r, write, sector, end))
      ensures old(Valid()) ==> Valid()
    {
      hide Good;
      EnterRequest(r, Request(true, write, sector, end, false, false, false, false));
      past := past.(sorted := past.sorted + {r});
      StepValid(old(View()), SubmitSorted(r, write, sector, end));
    }

    /** __elv_add_request, ELEVATOR_INSERT_BACK */
    method AddBack(r: Ref, fs: bool, barrier: bool, write: bool, sector: nat, end: nat, choices: seq<Choice>)
      requires r.Rq? && r !in past.log && (barrier ==> fs) && Drains(choices, past.sorted)
      modifies this
      ensures View() == Step(old(View()), SubmitBack(r, fs, barrier, write, sector, end, choices))
      ensures old(Valid()) ==> Valid()
    {
      hide Good;
      EnterRequest(r, Request(fs, write, sector, end, barrier, false, false, false));
      Soften(r);
      Drain(choices);
      Append(r);
      StepValid(old(View()), SubmitBack(r, fs, barrier, write, sector, end, choices));
    }

    method Soften(r: Ref)
      modifies this`rqs
      ensures View() == Put(old(View()), r, Get(old(View()), r).(soft := true))
    {
      rqs := rqs[r := Lookup(r).(soft := true)];
    }

    method Append(r: Ref)
      modifies this`queue
      ensures View() == old(View()).(queue := old(queue) + [r])
    {
      queue := queue + [r];
    }

    /** __elv_add_request, ELEVATOR_INSERT_FRONT, for a special request */
    method AddFront(r: Ref)
      requires r.Rq? && r !in past.log
      modifies this
      ensures View() == Step(old(View()), SubmitFront(r))
      ensures old(Valid()) ==> Valid()
    {
      hide Good;
      EnterRequest(r, Request(false, false, 0, 0, false, true, false, false));
      queue := [r] + queue;
      StepValid(old(View()), SubmitFront(r));
    }

    /** The part of start_ordered that takes the barrier off the queue and prepares the
        proxies. */
    method PrepareProxies()
      requires queue != []
      modifies this
      ensures var s := old(View());
              var orig := s.queue[0];
              View() == s.(orig := orig, orderr := 0,
                           inFlight := s.inFlight + Count(Accounted(s, orig)),
                           rqs := s.rqs[Bar := BarRq(Get(s, orig))][PreFlush := FLUSH_RQ][PostFlush := FLUSH_RQ],
                           queue := s.queue[1..])
    {
      var rq := Lookup(queue[0]);
      orderr := 0;
      orig := queue[0];
      queue := queue[1..];
      inFlight := inFlight + Count(rq.started && rq.fs);
      rqs := rqs[Bar := BarRq(rq)][PreFlush := FLUSH_RQ][PostFlush := FLUSH_RQ];
    }

    /** start_ordered on the barrier at the head */
    method BeginOrdered() returns (r: Option<Ref>)
      requires queue != [] && ordseq == IDLE
      modifies this
      ensures View() == StartOrdered(old(View()))
      ensures r == if inFlight == 0 then Some(queue[0]) else None
      ensures old(Valid() && Lookup(queue[0]).fs && Lookup(queue[0]).hard) ==> Valid()
    {
      hide Good;
      StartValid(View());
      PrepareProxies();
      StackProxies();
      r := if inFlight == 0 then Some(queue[0]) else None;
    }

    /** The part of start_ordered that queues the proxies, in reverse, and marks the phases
        that will not run. */
    method StackProxies()
      modifies this`queue, this`ordseq
      ensures queue == (if preflush then [PreFlush] else []) + [Bar]
                       + (if postflush then [PostFlush] else []) + old(queue)
      ensures old(ordseq) == IDLE ==> ordseq == StartMask(preflush, postflush, inFlight == 0)
    {
      ordseq := Set(ordseq, STARTED);
      if postflush {
        queue := [PostFlush] + queue;
      } else {
        ordseq := Set(ordseq, POSTFLUSH);
      }
      queue := [Bar] + queue;
      if preflush {
        queue := [PreFlush] + queue;
      } else {
        ordseq := Set(ordseq, PREFLUSH);
      }
      if inFlight == 0 {
        ordseq := Set(ordseq, DRAIN);
      }
    }

    /** blk_do_ordered on the head of the queue */
    method Gate() returns (r: Option<Ref>)
      requires queue != []
      modifies this
      ensures (View(), r) == DoOrdered(old(View()))
      ensures old(Valid()) ==> Valid() && (r.Some? ==> MayStart(View(), r.value)) && r == old(HandedOut(View()))
    {
      hide Good, MayStart, ReqSeq, CurSeq, StartOrdered, HandedOut;
      GateValid(View());
      var head := queue[0];
      var rq := Lookup(head);
      if ordseq == IDLE && rq.fs && rq.hard {
        r := BeginOrdered();
      } else if ordseq == IDLE || (!rq.fs && head != PreFlush && head != PostFlush) {
        r := Some(head);
      } else {
        var phase := OrderedReqSeq(head);
        warned := warned || phase < CurSeq(ordseq);
        r := if phase > CurSeq(ordseq) then None else Some(head);
      }
    }

    /** What elv_next_request does to the request it returns */
    method MarkStarted(r: Ref)
      modifies this
      ensures View() == HandOut(old(View()), r)
    {
      var rq := Lookup(r).(started := true);
      rqs := rqs[r := rq];
      if boundary == None || boundary == Some(r) {
        endSector := rq.end;
        boundary := None;
      }
    }

    /** elv_next_request with the queue not empty */
    method NextRequest() returns (r: Option<Ref>)
      requires queue != []
      modifies this
      ensures (View(), r) == Fetch(old(View()))
      ensures old(Valid()) ==> && Valid() && LaterUntouched(View()) && !warned
                               && (r == Some(Bar) ==> EarlierDone(View())) && r == old(HandedOut(View()))
    {
      hide Good;
      r := Gate();
      if r.Some? {
        MarkStarted(r.value);
      }
      FetchValid(old(View()));
    }

    /** elv_dequeue_request */
    method DequeueRequest(r: Ref)
      modifies this
      ensures View() == DequeueRq(old(View()), r)
      ensures old(Valid() && r in queue && Lookup(r).started) ==> Valid() && r in past.driver && r !in queue
    {
      hide Good, Minus, IndexOf;
      queue := Minus(queue, r);
      past := past.(driver := past.driver + {r});
      if Lookup(r).started && Lookup(r).fs {
        inFlight := inFlight + 1;
      }
      DequeueValid(old(View()), r);
    }
  }
}
