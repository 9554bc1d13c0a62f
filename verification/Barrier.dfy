/** Requests around a write barrier on a drain-ordered queue, as a transition system.
    Sources: kernel/linux/block/elevator.c (elv_insert, __elv_add_request, elv_next_request,
    elv_dispatch_sort, elv_requeue_request, elv_completed_request) and
    kernel/linux/block/ll_rw_blk.c (start_ordered, blk_do_ordered, blk_ordered_*). */
module Barrier {
  import opened Collections
  import opened OrderedPhases

  /** A request structure: one allocated for a submission, or one of the three proxies
      embedded in the queue. */
  datatype Ref = Rq(id: nat) | PreFlush | Bar | PostFlush

  /** The request fields and cmd_flags bits the protocol reads. */
  datatype Request = Request(
    fs: bool,        // blk_fs_request
    write: bool,     // rq_data_dir
    sector: nat,
    end: nat,        // rq_end_sector
    hard: bool,      // REQ_HARDBARRIER
    soft: bool,      // REQ_SOFTBARRIER
    started: bool,   // REQ_STARTED
    color: bool)     // REQ_ORDERED_COLOR

  datatype State = State(
    queue: seq<Ref>,             // queue_head
    sorted: set<Ref>,            // held by the I/O scheduler
    driver: set<Ref>,            // dequeued by the driver, not yet completed
    rqs: map<Ref, Request>,
    ordcolor: bool,
    ordseq: Mask,
    orderr: int,
    inFlight: int,
    preflush: bool,              // next_ordered & QUEUE_ORDERED_PREFLUSH
    postflush: bool,             // next_ordered & QUEUE_ORDERED_POSTFLUSH
    orig: Ref,                   // orig_bar_rq
    endSector: nat,
    boundary: Option<Ref>,       // boundary_rq
    log: seq<Ref>,               // history: every submission, oldest first
    epoch: map<Ref, nat>,        // history: barriers submitted before this request
    barriers: seq<Ref>,          // history: barriers submitted, oldest first
    ended: nat,                  // history: how many barriers have been ended
    completed: set<Ref>,         // history: requests completed
    results: seq<int>,           // history: what each ended barrier was completed with
    bug: bool,                   // a BUG_ON has been hit
    warned: bool)                // a WARN_ON has been hit

  function Init(preflush: bool, postflush: bool): State {
    State([], {}, {}, map[], false, IDLE, 0, 0, preflush, postflush, Rq(0), 0, None,
          [], map[], [], 0, {}, [], false, false)
  }

  const UNUSED := Request(false, false, 0, 0, false, false, false, false)

  function Get(s: State, r: Ref): Request {
    if r in s.rqs then s.rqs[r] else UNUSED
  }

  function Put(s: State, r: Ref, rq: Request): State {
    s.(rqs := s.rqs[r := rq])
  }

  /** blk_account_rq */
  predicate Accounted(s: State, r: Ref) {
    Get(s, r).started && Get(s, r).fs
  }

  function Count(b: bool): int { if b then 1 else 0 }

  /** blk_ordered_req_seq */
  function ReqSeq(s: State, r: Ref): int {
    match r
    case PreFlush => PREFLUSH
    case Bar => BAR
    case PostFlush => POSTFLUSH
    case Rq(_) => if Get(s, r).color == Get(s, s.orig).color then DRAIN else DONE
  }

  // Completion.

  /** The original barrier request is ended. */
  function EndBarrier(s: State): State {
    s.(ordseq := IDLE, completed := s.completed + {s.orig}, ended := s.ended + 1,
       results := s.results + [if s.orderr != 0 then s.orderr else 1],
       inFlight := s.inFlight - Count(Accounted(s, s.orig)))
  }

  /** blk_ordered_complete_seq on the whole queue. */
  function CompleteSeq(s: State, phase: int, error: int): State {
    if Has(s.ordseq, phase) then s.(bug := true) else
    var t := s.(ordseq := Set(s.ordseq, phase),
                orderr := if error != 0 && s.orderr == 0 then error else s.orderr);
    if CurSeq(t.ordseq) != DONE then t else EndBarrier(t)
  }

  /** The test in elv_completed_request for "everything before the barrier is gone". */
  predicate DrainTest(s: State)
  {
    && s.ordseq != IDLE
    && s.inFlight == 0
    && CurSeq(s.ordseq) == DRAIN
    && s.queue != []
    && ReqSeq(s, s.queue[0]) > DRAIN
  }

  /** elv_completed_request */
  function Completed(s: State, r: Ref): State {
    var s1 := s.(inFlight := s.inFlight - Count(Accounted(s, r)));
    if DrainTest(s1) then CompleteSeq(s1, DRAIN, 0) else s1
  }

  function PhaseOf(r: Ref): int
    requires !r.Rq?
  {
    match r case PreFlush => PREFLUSH case Bar => BAR case PostFlush => POSTFLUSH
  }

  /** end_that_request_last for a request in the driver. */
  function End(s: State, r: Ref, error: int): State {
    if r.Rq? then Completed(s.(driver := s.driver - {r}, completed := s.completed + {r}), r)
    else CompleteSeq(Completed(s.(driver := s.driver - {r}), r), PhaseOf(r), error)
  }

  // Insertion.

  function Boundary(s: State, r: Ref, rq: Request): State {
    if rq.fs && (rq.soft || rq.hard) then s.(endSector := rq.end, boundary := Some(r)) else s
  }

  /** The part of __elv_add_request before elv_insert. */
  function Enter(s: State, r: Ref, rq: Request): State {
    var s1 := Boundary(s, r, rq);
    s1.(rqs := s.rqs[r := rq.(color := s.ordcolor || rq.color)],
        ordcolor := if rq.hard then !s.ordcolor else s.ordcolor,
        log := s.log + [r],
        epoch := s.epoch[r := |s.barriers|],
        barriers := if rq.hard then s.barriers + [r] else s.barriers)
  }

  /** How far from the tail elv_dispatch_sort walks: may rq pass pos? */
  predicate MayPass(rq: Request, pos: Request, boundary: nat) {
    && rq.write == pos.write
    && !pos.soft && !pos.hard && !pos.started
    && if rq.sector >= boundary then pos.sector < boundary || rq.sector < pos.sector
       else pos.sector < boundary && rq.sector < pos.sector
  }

  /** The index elv_dispatch_sort inserts at: after the last request it may not pass. */
  function SortIndex(s: State, rq: Request, n: nat): (i: nat)
    requires n <= |s.queue|
    ensures i <= n
    ensures forall k | i <= k < n :: MayPass(rq, Get(s, s.queue[k]), s.endSector)
    ensures i > 0 ==> !MayPass(rq, Get(s, s.queue[i - 1]), s.endSector)
  {
    if n == 0 || !MayPass(rq, Get(s, s.queue[n - 1]), s.endSector) then n
    else SortIndex(s, rq, n - 1)
  }

  function InsertAt(q: seq<Ref>, i: nat, r: Ref): (q': seq<Ref>)
    requires i <= |q|
  {
    q[..i] + [r] + q[i..]
  }

  /** elv_dispatch_sort (toTail false) or elv_dispatch_add_tail (toTail true). */
  function Dispatch(s: State, r: Ref, toTail: bool): State {
    var s1 := s.(sorted := s.sorted - {r});
    if toTail then
      s1.(queue := s.queue + [r], endSector := Get(s, r).end, boundary := Some(r))
    else
      s1.(queue := InsertAt(s.queue, SortIndex(s, Get(s, r), |s.queue|), r))
  }

  datatype Choice = Choice(r: Ref, toTail: bool)

  /** The choices of a forced drain name each scheduler-held request exactly once. */
  predicate Drains(choices: seq<Choice>, sorted: set<Ref>)
    decreases choices
  {
    if choices == [] then sorted == {}
    else choices[0].r in sorted && Drains(choices[1..], sorted - {choices[0].r})
  }

  /** elv_drain_elevator */
  function DrainElevator(s: State, choices: seq<Choice>): State
    decreases choices
  {
    if choices == [] then s
    else DrainElevator(Dispatch(s, choices[0].r, choices[0].toTail), choices[1..])
  }

  /** The index ELEVATOR_INSERT_REQUEUE stops at, from index i on. */
  function RequeueIndex(s: State, phase: int, i: nat): (k: nat)
    requires i <= |s.queue|
    ensures i <= k <= |s.queue|
    ensures forall j | i <= j < k :: phase > ReqSeq(s, s.queue[j])
    ensures k < |s.queue| ==> phase <= ReqSeq(s, s.queue[k])
    decreases |s.queue| - i
  {
    if i == |s.queue| || phase <= ReqSeq(s, s.queue[i]) then i
    else RequeueIndex(s, phase, i + 1)
  }

  /** elv_requeue_request and the ELEVATOR_INSERT_REQUEUE arm of elv_insert. */
  function Requeue(s: State, r: Ref): State {
    var s1 := Put(s, r, Get(s, r).(started := false, soft := true))
              .(inFlight := s.inFlight - Count(Accounted(s, r)), driver := s.driver - {r});
    var i := if s.ordseq == IDLE then 0 else RequeueIndex(s1, ReqSeq(s1, r), 0);
    s1.(queue := InsertAt(s1.queue, i, r))
  }

  // Fetching.

  const FLUSH_RQ := Request(false, false, 0, 0, true, true, false, false)

  /** The proxy standing for the barrier: same place on disk, hard barrier, front-inserted. */
  function BarRq(orig: Request): Request {
    Request(true, orig.write, orig.sector, orig.end, true, true, false, false)
  }

  /** start_ordered, applied to the barrier at the head of the queue, from an idle mask. */
  function StartOrdered(s: State): State
    requires s.queue != []
  {
    var orig := s.queue[0];
    var inFlight := s.inFlight + Count(Accounted(s, orig));
    s.(orig := orig,
       orderr := 0,
       inFlight := inFlight,
       ordseq := StartMask(s.preflush, s.postflush, inFlight == 0),
       rqs := s.rqs[Bar := BarRq(Get(s, orig))][PreFlush := FLUSH_RQ][PostFlush := FLUSH_RQ],
       queue := (if s.preflush then [PreFlush] else []) + [Bar]
                + (if s.postflush then [PostFlush] else []) + s.queue[1..])
  }

  /** blk_do_ordered on the head of the queue, in a drain-ordered mode: the new state and
      the request it lets through. */
  function DoOrdered(s: State): (State, Option<Ref>)
    requires s.queue != []
  {
    var r := s.queue[0];
    if s.ordseq == IDLE then
      if Get(s, r).fs && Get(s, r).hard then
        var s1 := StartOrdered(s);
        (s1, if s1.inFlight == 0 then Some(s1.queue[0]) else None)
      else (s, Some(r))
    else if !Get(s, r).fs && r != PreFlush && r != PostFlush then (s, Some(r))
    else
      (s.(warned := s.warned || ReqSeq(s, r) < CurSeq(s.ordseq)),
       if ReqSeq(s, r) > CurSeq(s.ordseq) then None else Some(r))
  }

  /** The bookkeeping of elv_next_request on the request it is about to return. */
  function HandOut(s: State, r: Ref): State {
    var s1 := Put(s, r, Get(s, r).(started := true));
    if s1.boundary.None? || s1.boundary == Some(r)
    then s1.(endSector := Get(s1, r).end, boundary := None)
    else s1
  }

  /** elv_next_request on a non-empty queue: what it hands to the driver gets REQ_STARTED. */
  function Fetch(s: State): (State, Option<Ref>)
    requires s.queue != []
  {
    var (s1, got) := DoOrdered(s);
    match got
    case None => (s1, None)
    case Some(r) => (HandOut(s1, r), Some(r))
  }

  // The transition system.

  datatype Event =
    | SubmitSorted(r: Ref, write: bool, sector: nat, end: nat)
    | SubmitBack(r: Ref, fs: bool, barrier: bool, write: bool, sector: nat, end: nat,
                 choices: seq<Choice>)
    | SubmitFront(r: Ref)
    | DispatchOne(r: Ref, toTail: bool)
    | FetchHead
    | Dequeue(r: Ref)
    | Finish(r: Ref, error: int)
    | RequeueOne(r: Ref)
    | SetFlush(preflush: bool, postflush: bool)

  /** Only what the callers of each entry point must respect: fresh requests are
      submitted, barriers are fs requests, no fs request is front-inserted, the driver
      dequeues what it was handed and completes or requeues what it dequeued. */
  predicate Enabled(s: State, e: Event) {
    match e
    case SubmitSorted(r, _, _, _) => r.Rq? && r !in s.log
    case SubmitBack(r, fs, barrier, _, _, _, choices) =>
      r.Rq? && r !in s.log && (barrier ==> fs) && Drains(choices, s.sorted)
    case SubmitFront(r) => r.Rq? && r !in s.log
    case DispatchOne(r, _) => r in s.sorted
    case FetchHead => s.queue != []
    case Dequeue(r) => r in s.queue && Get(s, r).started
    case Finish(r, _) => r in s.driver
    case RequeueOne(r) => r in s.driver
    case SetFlush(_, _) => true
  }

  /** elv_dequeue_request */
  function DequeueRq(s: State, r: Ref): State {
    s.(queue := Minus(s.queue, r), driver := s.driver + {r},
       inFlight := s.inFlight + Count(Accounted(s, r)))
  }

  function Step(s: State, e: Event): State
    requires Enabled(s, e)
  {
    match e
    case SubmitSorted(r, write, sector, end) =>
      var s1 := Enter(s, r, Request(true, write, sector, end, false, false, false, false));
      s1.(sorted := s1.sorted + {r})
    case SubmitBack(r, fs, barrier, write, sector, end, choices) =>
      var s1 := Enter(s, r, Request(fs, write, sector, end, barrier, false, false, false));
      var s2 := DrainElevator(Put(s1, r, Get(s1, r).(soft := true)), choices);
      s2.(queue := s2.queue + [r])
    case SubmitFront(r) =>
      var s1 := Enter(s, r, Request(false, false, 0, 0, false, true, false, false));
      s1.(queue := [r] + s1.queue)
    case DispatchOne(r, toTail) => Dispatch(s, r, toTail)
    case FetchHead => Fetch(s).0
    case Dequeue(r) => DequeueRq(s, r)
    case Finish(r, error) => End(s, r, error)
    case RequeueOne(r) => Requeue(s, r)
    case SetFlush(preflush, postflush) => s.(preflush := preflush, postflush := postflush)
  }
}
