/** The inductive invariant behind barrier ordering, and its preservation by every step. */
module BarrierInvariant {
  import opened Collections
  import opened OrderedPhases
  import opened Barrier

  ghost predicate Live(s: State, r: Ref) {
    r in s.queue || r in s.driver
  }

  predicate Odd(n: nat) { n % 2 == 1 }

  function Epoch(s: State, r: Ref): nat {
    if r in s.epoch then s.epoch[r] else 0
  }

  /** An fs request that is not one of the proxies. */
  predicate FsRq(s: State, r: Ref) {
    r.Rq? && Get(s, r).fs
  }

  /** Requests whose queue order matters; special requests are exempt. */
  predicate Keyed(s: State, r: Ref) {
    !r.Rq? || Get(s, r).fs
  }

  /** Submission rank: requests of epoch k, then barrier k (and its proxies), then epoch k + 1. */
  function Key(s: State, r: Ref): int {
    if r.Rq? then 2 * Epoch(s, r) + Count(Get(s, r).hard) else 2 * s.ended + 1
  }

  ghost predicate Placed(s: State, r: Ref) {
    r in s.queue || r in s.driver || r in s.sorted || r in s.completed
  }

  /** Every submission is in exactly one place. */
  ghost predicate Places(s: State) {
    && NoDup(s.queue)
    && (forall r | r in s.queue :: r !in s.driver && r !in s.sorted && r !in s.completed)
    && (forall r | r in s.driver :: r !in s.sorted && r !in s.completed)
    && (forall r | r in s.sorted :: r.Rq? && r !in s.completed)
    && (forall r | r in s.completed :: r.Rq?)
    && (forall r | r in s.queue && r.Rq? :: r in s.log)
    && (forall r | r in s.driver && r.Rq? :: r in s.log)
    && (forall r | r in s.sorted :: r in s.log)
    && (forall r | r in s.completed :: r in s.log)
    && (forall r | r in s.log :: Placed(s, r) || (s.ordseq != IDLE && r == s.orig))
  }

  /** Epochs count barriers, colours are their parity, and the log is in rank order. */
  ghost predicate History(s: State) {
    && NoDup(s.log)
    && (s.ordcolor <==> Odd(|s.barriers|))
    && (forall r | r in s.log ::
          && r.Rq? && r in s.epoch
          && s.epoch[r] <= |s.barriers|
          && (Get(s, r).color <==> Odd(s.epoch[r])))
    && (forall r | r in s.log && Get(s, r).hard ::
          Get(s, r).fs && Epoch(s, r) < |s.barriers| && s.barriers[Epoch(s, r)] == r)
    && (forall k | 0 <= k < |s.barriers| ::
          s.barriers[k] in s.log && Get(s, s.barriers[k]).hard && Epoch(s, s.barriers[k]) == k)
    && (forall i, j | 0 <= i < j < |s.log| :: Key(s, s.log[i]) <= Key(s, s.log[j]))
  }

  /** Barriers are ended in submission order; all later ones wait in the queue. */
  ghost predicate Chain(s: State) {
    && s.ended <= |s.barriers|
    && (forall k | 0 <= k < s.ended :: s.barriers[k] in s.completed)
    && (s.ordseq == IDLE ==> forall k | s.ended <= k < |s.barriers| :: s.barriers[k] in s.queue)
    && (s.ordseq != IDLE ==>
          && s.ended < |s.barriers|
          && s.orig == s.barriers[s.ended]
          && !Placed(s, s.orig)
          && forall k | s.ended < k < |s.barriers| :: s.barriers[k] in s.queue)
    && (forall r | r in s.log && Get(s, r).hard :: !Get(s, r).started)
  }

  ghost predicate QueueInOrder(s: State) {
    forall i, j | 0 <= i < j < |s.queue| && Keyed(s, s.queue[i]) && Keyed(s, s.queue[j]) ::
      Key(s, s.queue[i]) <= Key(s, s.queue[j])
  }

  /** Which epochs may be where: only requests of the oldest open epoch are started. */
  ghost predicate Standing(s: State) {
    && (forall r | r in s.sorted ::
          FsRq(s, r) && !Get(s, r).hard && !Get(s, r).soft && Epoch(s, r) == |s.barriers| && !Get(s, r).started)
    && (forall r | r in s.queue && FsRq(s, r) ::
          Epoch(s, r) >= s.ended && (Get(s, r).started ==> Epoch(s, r) == s.ended))
    && (forall r | r in s.driver :: Get(s, r).started && (FsRq(s, r) ==> Epoch(s, r) == s.ended))
    && (forall r | r in s.completed && FsRq(s, r) ::
          Epoch(s, r) <= s.ended && (Get(s, r).hard ==> Epoch(s, r) < s.ended))
  }

  /** Whatever a dispatched request could pass belongs to the newest epoch. */
  ghost predicate Fences(s: State) {
    && (forall r | r in s.queue && (!FsRq(s, r) || Get(s, r).hard) :: Get(s, r).soft)
    && (forall r | r in s.queue && FsRq(s, r) && !Get(s, r).soft && Epoch(s, r) < |s.barriers| ::
          s.barriers[Epoch(s, r)] in s.queue)
  }

  function InFlightSet(s: State): set<Ref> {
    set r | r in s.driver && Get(s, r).fs
  }

  ghost predicate Flight(s: State) {
    s.inFlight == |InFlightSet(s)|
  }

  /** A proxy is live exactly while its phase is open, and started only in its turn. */
  ghost predicate ProxyPhase(s: State, r: Ref)
    requires !r.Rq?
  {
    && (Live(s, r) <==> !Has(s.ordseq, PhaseOf(r)))
    && (Live(s, r) && Get(s, r).started ==> PhaseOf(r) == CurSeq(s.ordseq))
  }

  /** No fs request of the barrier's epoch or older is queued or with the driver. */
  ghost predicate Drained(s: State) {
    && (forall r | r in s.queue && FsRq(s, r) :: Epoch(s, r) > s.ended)
    && (forall r | r in s.driver :: !FsRq(s, r))
  }

  /** The mask agrees with where the proxies and the earlier requests are. */
  ghost predicate Phases(s: State) {
    && (s.ordseq == IDLE ==> !Live(s, PreFlush) && !Live(s, Bar) && !Live(s, PostFlush))
    && (s.ordseq != IDLE ==>
          && Running(s.ordseq)
          && (Has(s.ordseq, BAR) ==> Has(s.ordseq, DRAIN) && Has(s.ordseq, PREFLUSH))
          && ProxyPhase(s, PreFlush) && ProxyPhase(s, Bar) && ProxyPhase(s, PostFlush)
          && Get(s, Bar).fs && !Get(s, PreFlush).fs && !Get(s, PostFlush).fs
          && (Has(s.ordseq, DRAIN) ==> Drained(s)))
  }

  ghost predicate Inv(s: State) {
    && !s.bug && !s.warned
    && Places(s) && History(s) && Chain(s) && QueueInOrder(s) && Standing(s) && Fences(s)
    && Flight(s) && Phases(s)
  }

  /** The index of the first request, from i on, that is not special. */
  function FirstKeyed(s: State, i: nat): (h: nat)
    requires i <= |s.queue|
    ensures i <= h <= |s.queue|
    ensures forall k | i <= k < h :: !Keyed(s, s.queue[k])
    ensures h < |s.queue| ==> Keyed(s, s.queue[h])
    decreases |s.queue| - i
  {
    if i == |s.queue| || Keyed(s, s.queue[i]) then i else FirstKeyed(s, i + 1)
  }

  /** The test in elv_completed_request passes on a special request at the head, although the
      first request that is not special is one the barrier waits for. */
  predicate EndsTooEarly(s: State) {
    var h := FirstKeyed(s, 0);
    DrainTest(s) && h < |s.queue| && ReqSeq(s, s.queue[h]) <= DRAIN
  }

  /** The parts of the invariant that depend on where requests are. */
  ghost predicate Rest(s: State) {
    Places(s) && Flight(s) && Chain(s) && Fences(s) && Standing(s) && Phases(s)
  }

  lemma InitInv(preflush: bool, postflush: bool)
    ensures Inv(Init(preflush, postflush))
  {
  }

  // Frames: steps that add no submission keep what a request is.

  /** What a request is (not where it is) agrees in the two states. */
  ghost predicate SameIdentity(s: State, t: State) {
    && t.log == s.log && t.epoch == s.epoch && t.barriers == s.barriers
    && t.ordcolor == s.ordcolor
    && forall r: Ref | r.Rq? ::
         && Get(t, r).fs == Get(s, r).fs && Get(t, r).hard == Get(s, r).hard
         && Get(t, r).color == Get(s, r).color
  }

  lemma HistoryFrame(s: State, t: State)
    requires History(s) && SameIdentity(s, t)
    ensures History(t)
  {
    forall i, j | 0 <= i < j < |t.log| ensures Key(t, t.log[i]) <= Key(t, t.log[j]) {
      assert s.log[i] in s.log && s.log[j] in s.log;
      assert Key(s, s.log[i]) <= Key(s, s.log[j]);
    }
  }

  /** The fields the invariant does not mention. */
  ghost predicate SameButBoundary(s: State, t: State) {
    t == s.(endSector := t.endSector, boundary := t.boundary,
            preflush := t.preflush, postflush := t.postflush, orderr := t.orderr, results := t.results)
  }

  lemma FramePlaces(s: State, t: State)
    requires Places(s) && Flight(s) && SameButBoundary(s, t)
    ensures Places(t) && Flight(t)
  {
    assert InFlightSet(t) == InFlightSet(s);
  }

  lemma FrameChain(s: State, t: State)
    requires Chain(s) && Fences(s) && SameButBoundary(s, t)
    ensures Chain(t) && Fences(t)
  {
  }

  lemma FramePhases(s: State, t: State)
    requires Standing(s) && Phases(s) && SameButBoundary(s, t)
    ensures Standing(t) && Phases(t)
  {
  }

  lemma FrameKeepsInv(s: State, t: State)
    requires Inv(s) && SameButBoundary(s, t)
    ensures Inv(t)
  {
    HistoryFrame(s, t);
    SameQueueKeepsOrder(s, t);
    FramePlaces(s, t);
    FrameChain(s, t);
    FramePhases(s, t);
  }

  // Queue surgery.

  lemma InsertAtFacts(q: seq<Ref>, i: nat, r: Ref)
    requires i <= |q|
    ensures forall x :: x in InsertAt(q, i, r) <==> x in q || x == r
    ensures NoDup(q) && r !in q ==> NoDup(InsertAt(q, i, r))
  {
    var q' := InsertAt(q, i, r);
    assert forall k | 0 <= k < |q| :: q[k] == if k < i then q'[k] else q'[k + 1];
    assert q'[i] == r;
  }

  lemma InsertKeepsOrder(s: State, t: State, i: nat, r: Ref)
    requires QueueInOrder(s) && SameIdentity(s, t) && t.ended == s.ended
    requires i <= |s.queue| && t.queue == InsertAt(s.queue, i, r)
    requires Keyed(s, r) ==> forall k | 0 <= k < i && Keyed(s, s.queue[k]) :: Key(s, s.queue[k]) <= Key(s, r)
    requires Keyed(s, r) ==> forall k | i <= k < |s.queue| && Keyed(s, s.queue[k]) :: Key(s, r) <= Key(s, s.queue[k])
    ensures QueueInOrder(t)
  {
    assert forall x :: Keyed(t, x) == Keyed(s, x) && Key(t, x) == Key(s, x);
    hide Keyed, Key;
    forall a, b | 0 <= a < b < |t.queue| && Keyed(t, t.queue[a]) && Keyed(t, t.queue[b])
      ensures Key(t, t.queue[a]) <= Key(t, t.queue[b])
    {
      var a', b' := if a < i then a else a - 1, if b < i then b else b - 1;
      if a == i {
        assert t.queue[b] == s.queue[b'];
      } else if b == i {
        assert t.queue[a] == s.queue[a'];
      } else {
        assert t.queue[a] == s.queue[a'] && t.queue[b] == s.queue[b'];
      }
    }
  }

  lemma RemoveKeepsOrder(s: State, t: State, i: nat)
    requires QueueInOrder(s) && SameIdentity(s, t) && t.ended == s.ended
    requires i < |s.queue| && t.queue == s.queue[..i] + s.queue[i + 1..]
    ensures QueueInOrder(t)
  {
    forall a, b | 0 <= a < b < |t.queue| && Keyed(t, t.queue[a]) && Keyed(t, t.queue[b])
      ensures Key(t, t.queue[a]) <= Key(t, t.queue[b])
    {
      var a', b' := if a < i then a else a + 1, if b < i then b else b + 1;
      assert t.queue[a] == s.queue[a'] && t.queue[b] == s.queue[b'];
    }
  }

  lemma SameQueueKeepsOrder(s: State, t: State)
    requires QueueInOrder(s) && SameIdentity(s, t) && t.queue == s.queue
    requires t.ended == s.ended || forall r: Ref | !r.Rq? :: r !in s.queue
    ensures QueueInOrder(t)
  {
    forall a, b | 0 <= a < b < |t.queue| && Keyed(t, t.queue[a]) && Keyed(t, t.queue[b])
      ensures Key(t, t.queue[a]) <= Key(t, t.queue[b])
    {
      assert s.queue[a] in s.queue && s.queue[b] in s.queue;
    }
  }

  /** Steps that touch neither the requests nor the queue. */
  lemma OrderFrame(s: State, t: State)
    requires History(s) && QueueInOrder(s)
    requires t.log == s.log && t.epoch == s.epoch && t.barriers == s.barriers
    requires t.ordcolor == s.ordcolor && t.rqs == s.rqs && t.queue == s.queue
    requires t.ended == s.ended || forall r: Ref | !r.Rq? :: r !in s.queue
    ensures History(t) && QueueInOrder(t)
  {
    HistoryFrame(s, t);
    SameQueueKeepsOrder(s, t);
  }

  // Marking a request started.

  /** What it takes to be handed to the driver. */
  ghost predicate MayStart(s: State, r: Ref) {
    && r in s.queue
    && (FsRq(s, r) ==> Epoch(s, r) == s.ended && !Get(s, r).hard)
    && (!r.Rq? ==> s.ordseq != IDLE && PhaseOf(r) == CurSeq(s.ordseq))
  }

  function Started(s: State, r: Ref): State {
    Put(s, r, Get(s, r).(started := true))
  }

  lemma StartedPlaces(s: State, r: Ref)
    requires Places(s) && Flight(s) && r in s.queue
    ensures Places(Started(s, r)) && Flight(Started(s, r))
  {
    assert InFlightSet(Started(s, r)) == InFlightSet(s);
  }

  lemma StartedChain(s: State, r: Ref)
    requires History(s) && Chain(s) && Fences(s) && MayStart(s, r)
    ensures Chain(Started(s, r)) && Fences(Started(s, r))
  {
  }

  lemma StartedPhases(s: State, r: Ref)
    requires Places(s) && Standing(s) && Phases(s) && MayStart(s, r)
    ensures Standing(Started(s, r)) && Phases(Started(s, r))
  {
    StartedStanding(s, r);
    hide Places, Standing;
  }

  lemma StartedStanding(s: State, r: Ref)
    requires Places(s) && Standing(s) && MayStart(s, r)
    ensures Standing(Started(s, r))
  {
  }

  lemma StartedKeepsInv(s: State, r: Ref)
    requires Inv(s) && MayStart(s, r)
    ensures Inv(Started(s, r))
  {
    HistoryFrame(s, Started(s, r));
    SameQueueKeepsOrder(s, Started(s, r));
    StartedPlaces(s, r);
    StartedChain(s, r);
    StartedPhases(s, r);
  }

  // Dequeuing: from the queue to the driver.

  function Dequeued(s: State, r: Ref, q: seq<Ref>): State {
    s.(queue := q, driver := s.driver + {r}, inFlight := s.inFlight + Count(Accounted(s, r)))
  }

  ghost predicate Removed(s: State, r: Ref, q: seq<Ref>) {
    && r in s.queue && Get(s, r).started
    && NoDup(q) && forall x :: x in q <==> x in s.queue && x != r
  }

  lemma WithoutRemoves(s: State, r: Ref)
    requires NoDup(s.queue) && r in s.queue && Get(s, r).started
    ensures IndexOf(s.queue, r) < |s.queue| && Removed(s, r, Minus(s.queue, r))
  {
    MinusFacts(s.queue, r);
  }

  lemma DequeuedPlaces(s: State, r: Ref, q: seq<Ref>)
    requires Places(s) && Removed(s, r, q)
    ensures Places(Dequeued(s, r, q))
  {
  }

  lemma DequeuedFlight(s: State, r: Ref, q: seq<Ref>)
    requires r !in s.driver && Flight(s) && Removed(s, r, q)
    ensures Flight(Dequeued(s, r, q))
  {
    assert InFlightSet(Dequeued(s, r, q)) == InFlightSet(s) + (if Get(s, r).fs then {r} else {});
  }

  lemma DequeuedChain(s: State, r: Ref, q: seq<Ref>)
    requires History(s) && Chain(s) && Fences(s) && Removed(s, r, q)
    ensures Chain(Dequeued(s, r, q)) && Fences(Dequeued(s, r, q))
  {
  }

  lemma DequeuedPhases(s: State, r: Ref, q: seq<Ref>)
    requires Standing(s) && Phases(s) && Removed(s, r, q)
    ensures Standing(Dequeued(s, r, q)) && Phases(Dequeued(s, r, q))
  {
  }

  lemma DequeueKeepsInv(s: State, r: Ref)
    requires Inv(s) && r in s.queue && Get(s, r).started
    ensures Inv(DequeueRq(s, r))
  {
    assert NoDup(s.queue) && r !in s.driver;
    hide Places, History, Chain, QueueInOrder, Standing, Fences, Flight, Phases, NoDup;
    var q := Minus(s.queue, r);
    var t := Dequeued(s, r, q);
    WithoutRemoves(s, r);
    HistoryFrame(s, t);
    RemoveKeepsOrder(s, t, IndexOf(s.queue, r));
    DequeuedPlaces(s, r, q);
    DequeuedFlight(s, r, q);
    DequeuedChain(s, r, q);
    DequeuedPhases(s, r, q);
  }

  // Inserting into the queue.

  ghost predicate Inserted(s: State, r: Ref, q: seq<Ref>) {
    NoDup(q) && forall x :: x in q <==> x in s.queue || x == r
  }

  lemma InsertAtInserts(s: State, r: Ref, i: nat)
    requires NoDup(s.queue) && r !in s.queue && i <= |s.queue|
    ensures Inserted(s, r, InsertAt(s.queue, i, r))
  {
    InsertAtFacts(s.queue, i, r);
  }

  /** Where r may go without disturbing the queue order. */
  ghost predicate Fits(s: State, r: Ref, i: nat)
    requires i <= |s.queue|
  {
    Keyed(s, r) ==>
      && (forall k | 0 <= k < i && Keyed(s, s.queue[k]) :: Key(s, s.queue[k]) <= Key(s, r))
      && (forall k | i <= k < |s.queue| && Keyed(s, s.queue[k]) :: Key(s, r) <= Key(s, s.queue[k]))
  }

  /** The colour repeats every second barrier, but the next barrier's own request stands
      in front of every request whose colour has come round again. */
  lemma NextBarrierFirst(s: State, k: nat) returns (j: nat)
    requires Places(s) && History(s) && Chain(s) && QueueInOrder(s)
    requires s.ordseq != IDLE
    requires k < |s.queue| && FsRq(s, s.queue[k]) && Epoch(s, s.queue[k]) >= s.ended + 2
    ensures j < k && ReqSeq(s, s.queue[j]) == DONE
  {
    var b, x := s.barriers[s.ended + 1], s.queue[k];
    assert x in s.queue && x in s.log;
    assert b in s.queue && b in s.log && Epoch(s, b) == s.ended + 1;
    j :| 0 <= j < |s.queue| && s.queue[j] == b;
    assert Key(s, b) < Key(s, x);
    NextBarrierColor(s, b);
  }

  lemma NextBarrierColor(s: State, b: Ref)
    requires History(s) && Chain(s) && s.ordseq != IDLE && b in s.log && Epoch(s, b) == s.ended + 1
    ensures ReqSeq(s, b) == DONE
  {
    assert s.orig in s.log && Epoch(s, s.orig) == s.ended;
  }

  /** In an ordered sequence the colour test is exact for the requests a barrier waits for,
      except behind the next barrier. */
  lemma ColorOfEpoch(s: State, r: Ref)
    requires History(s) && Chain(s) && s.ordseq != IDLE && r in s.log
    ensures ReqSeq(s, r) == DRAIN <==> (Odd(Epoch(s, r)) <==> Odd(s.ended))
    ensures ReqSeq(s, r) == DRAIN || ReqSeq(s, r) == DONE
  {
    assert s.orig in s.log;
  }

  lemma CurIsPhase(ordseq: Mask)
    requires Running(ordseq)
    ensures DRAIN <= CurSeq(ordseq) < DONE
    ensures CurSeq(ordseq) != DRAIN ==> Has(ordseq, DRAIN)
  {
    CurSeqIsLowestIncomplete(ordseq);
  }

  // Requeueing: from the driver back into the queue.

  function Requeued(s: State, r: Ref, q: seq<Ref>): State {
    Put(s, r, Get(s, r).(started := false, soft := true))
    .(inFlight := s.inFlight - Count(Accounted(s, r)), driver := s.driver - {r}, queue := q)
  }

  lemma RequeuedPlaces(s: State, r: Ref, q: seq<Ref>)
    requires Places(s) && r in s.driver && Inserted(s, r, q)
    ensures Places(Requeued(s, r, q))
  {
  }

  lemma RequeuedFlight(s: State, r: Ref, q: seq<Ref>)
    requires Flight(s) && Standing(s) && r in s.driver
    ensures Flight(Requeued(s, r, q))
  {
    assert InFlightSet(Requeued(s, r, q)) == InFlightSet(s) - {r};
  }

  lemma RequeuedChain(s: State, r: Ref, q: seq<Ref>)
    requires Places(s) && Chain(s) && Fences(s) && r in s.driver && Inserted(s, r, q)
    ensures Chain(Requeued(s, r, q)) && Fences(Requeued(s, r, q))
  {
  }

  lemma RequeuedStanding(s: State, r: Ref, q: seq<Ref>)
    requires Places(s) && Standing(s) && r in s.driver && Inserted(s, r, q)
    ensures Standing(Requeued(s, r, q))
  {
  }

  lemma RequeuedPhases(s: State, r: Ref, q: seq<Ref>)
    requires Phases(s) && r in s.driver && Inserted(s, r, q)
    ensures Phases(Requeued(s, r, q))
  {
  }

  lemma RequeueFitsIdle(s: State, r: Ref)
    requires Inv(s) && r in s.driver && s.ordseq == IDLE
    ensures Fits(s, r, 0)
  {
    forall k | 0 <= k < |s.queue| && Keyed(s, r) && Keyed(s, s.queue[k])
      ensures Key(s, r) <= Key(s, s.queue[k])
    {
      assert s.queue[k] in s.queue;
      assert Live(s, s.queue[k]) && Live(s, r);
      assert FsRq(s, r) && r in s.log && FsRq(s, s.queue[k]);
    }
  }

  lemma FsRankedFirst(s: State, r: Ref)
    requires Standing(s) && Chain(s) && Places(s) && r in s.driver && FsRq(s, r)
    ensures forall k | 0 <= k < |s.queue| && Keyed(s, s.queue[k]) :: Key(s, r) <= Key(s, s.queue[k])
  {
    assert !Get(s, r).hard;
    forall k | 0 <= k < |s.queue| && Keyed(s, s.queue[k]) ensures Key(s, r) <= Key(s, s.queue[k]) {
      assert s.queue[k] in s.queue;
    }
  }

  lemma NoEarlierPhase(s: State)
    ensures s.queue != [] ==> ReqSeq(s, s.queue[0]) >= DRAIN
  {
  }

  lemma RequeueFitsFs(s: State, r: Ref, i: nat)
    requires Inv(s) && r in s.driver && s.ordseq != IDLE && FsRq(s, r)
    requires i <= |s.queue| && forall j | 0 <= j < i :: ReqSeq(s, r) > ReqSeq(s, s.queue[j])
    ensures i == 0 && Fits(s, r, i)
  {
    assert r in s.log;
    ColorOfEpoch(s, r);
    FsRankedFirst(s, r);
    NoEarlierPhase(s);
    hide Inv, Key, Keyed;
  }

  /** While a proxy is with the driver, only newer fs requests are queued, and no fs request
      stands in front of the place the proxy goes back to. */
  lemma NoFsBeforeProxy(s: State, p: int, i: nat, k: nat)
    requires Places(s) && History(s) && Chain(s) && QueueInOrder(s) && Drained(s)
    requires s.ordseq != IDLE && p <= DONE && k < i <= |s.queue|
    requires forall j | 0 <= j < i :: p > ReqSeq(s, s.queue[j])
    ensures !FsRq(s, s.queue[k])
  {
    var x := s.queue[k];
    if FsRq(s, x) {
      assert x in s.queue && x in s.log;
      ColorOfEpoch(s, x);
      var j := NextBarrierFirst(s, k);
      assert false;
    }
  }

  lemma RequeueFitsProxy(s: State, r: Ref, i: nat)
    requires Places(s) && History(s) && Chain(s) && QueueInOrder(s) && Drained(s)
    requires s.ordseq != IDLE && !r.Rq?
    requires i <= |s.queue| && forall j | 0 <= j < i :: ReqSeq(s, r) > ReqSeq(s, s.queue[j])
    ensures Fits(s, r, i)
  {
    forall k | 0 <= k < i && Keyed(s, s.queue[k])
      ensures Key(s, s.queue[k]) <= Key(s, r)
    {
      NoFsBeforeProxy(s, ReqSeq(s, r), i, k);
    }
    forall k | 0 <= k < |s.queue| && Keyed(s, s.queue[k])
      ensures Key(s, r) <= Key(s, s.queue[k])
    {
      assert s.queue[k] in s.queue;
    }
  }

  lemma RequeueKeepsInv(s: State, r: Ref)
    requires Inv(s) && r in s.driver
    ensures Inv(Requeue(s, r))
  {
    var i := RequeueShape(s, r);
    if s.ordseq == IDLE { RequeueFitsIdle(s, r); }
    else if FsRq(s, r) { RequeueFitsFs(s, r, i); }
    else if !r.Rq? {
      ProxyTurn(s, r);
      RequeueFitsProxy(s, r, i);
    }
    RequeueAt(s, r, i);
  }

  lemma RequeuedReqSeq(s: State, r: Ref, q: seq<Ref>, x: Ref)
    ensures ReqSeq(Requeued(s, r, q), x) == ReqSeq(s, x)
  {
  }

  /** Requeue inserts at the first entry whose phase is not lower. */
  lemma RequeueShape(s: State, r: Ref) returns (i: nat)
    ensures i <= |s.queue| && Requeue(s, r) == Requeued(s, r, InsertAt(s.queue, i, r))
    ensures s.ordseq == IDLE ==> i == 0
    ensures s.ordseq != IDLE ==> forall j | 0 <= j < i :: ReqSeq(s, r) > ReqSeq(s, s.queue[j])
    ensures s.ordseq != IDLE && i < |s.queue| ==> ReqSeq(s, r) <= ReqSeq(s, s.queue[i])
  {
    hide InsertAt;
    var s1 := Requeued(s, r, s.queue);
    i := if s.ordseq == IDLE then 0 else RequeueIndex(s1, ReqSeq(s1, r), 0);
    forall x ensures ReqSeq(s1, x) == ReqSeq(s, x) {
      RequeuedReqSeq(s, r, s.queue, x);
    }
  }

  lemma RequeueAt(s: State, r: Ref, i: nat)
    requires Inv(s) && r in s.driver
    requires i <= |s.queue| && Fits(s, r, i)
    ensures Inv(Requeued(s, r, InsertAt(s.queue, i, r)))
  {
    assert NoDup(s.queue) && r !in s.queue;
    hide Places, History, Chain, QueueInOrder, Standing, Fences, Flight, Phases, NoDup;
    var q := InsertAt(s.queue, i, r);
    var t := Requeued(s, r, q);
    InsertAtInserts(s, r, i);
    HistoryFrame(s, t);
    InsertKeepsOrder(s, t, i, r);
    RequeuedPlaces(s, r, q);
    RequeuedFlight(s, r, q);
    RequeuedChain(s, r, q);
    RequeuedStanding(s, r, q);
    RequeuedPhases(s, r, q);
  }

  // Dispatching: from the scheduler into the queue.

  function Dispatched(s: State, r: Ref, q: seq<Ref>): State {
    s.(sorted := s.sorted - {r}, queue := q)
  }

  lemma DispatchedPlaces(s: State, r: Ref, q: seq<Ref>)
    requires Places(s) && r in s.sorted && Inserted(s, r, q)
    ensures Places(Dispatched(s, r, q))
  {
  }

  lemma DispatchedChain(s: State, r: Ref, q: seq<Ref>)
    requires Chain(s) && Fences(s) && Standing(s) && r in s.sorted && Inserted(s, r, q)
    ensures Chain(Dispatched(s, r, q)) && Fences(Dispatched(s, r, q))
  {
  }

  lemma DispatchedPhases(s: State, r: Ref, q: seq<Ref>)
    requires Places(s) && Standing(s) && Phases(s) && Chain(s) && r in s.sorted && Inserted(s, r, q)
    ensures Standing(Dispatched(s, r, q)) && Phases(Dispatched(s, r, q))
  {
  }

  lemma DispatchAt(s: State, r: Ref, i: nat)
    requires Inv(s) && r in s.sorted
    requires i <= |s.queue| && Fits(s, r, i)
    ensures Inv(Dispatched(s, r, InsertAt(s.queue, i, r)))
  {
    var q := InsertAt(s.queue, i, r);
    var t := Dispatched(s, r, q);
    assert InFlightSet(t) == InFlightSet(s);
    assert NoDup(s.queue) && r !in s.queue;
    hide Places, History, Chain, QueueInOrder, Standing, Fences, Phases;
    InsertAtInserts(s, r, i);
    HistoryFrame(s, t);
    InsertKeepsOrder(s, t, i, r);
    DispatchedPlaces(s, r, q);
    DispatchedChain(s, r, q);
    DispatchedPhases(s, r, q);
  }

  /** A newest-epoch request may stand behind anything, and in front of whatever it may pass. */
  lemma DispatchFits(s: State, r: Ref, i: nat)
    requires Inv(s) && r in s.sorted
    requires i <= |s.queue|
    requires forall k | i <= k < |s.queue| :: !Get(s, s.queue[k]).soft
    ensures Fits(s, r, i)
  {
    forall k | 0 <= k < |s.queue| && Keyed(s, s.queue[k])
      ensures Key(s, s.queue[k]) <= Key(s, r)
    {
      var x := s.queue[k];
      assert x in s.queue;
      assert Live(s, x);
      if x.Rq? { assert x in s.log; }
    }
    forall k | i <= k < |s.queue| && Keyed(s, s.queue[k])
      ensures Key(s, r) <= Key(s, s.queue[k])
    {
      FenceBehind(s, k);
    }
  }

  /** Behind a request of an older epoch that may be passed stands its barrier, which may not. */
  lemma FenceBehind(s: State, k: nat)
    requires Inv(s) && k < |s.queue| && Keyed(s, s.queue[k]) && !Get(s, s.queue[k]).soft
    ensures Epoch(s, s.queue[k]) < |s.barriers| ==> exists j | k < j < |s.queue| :: Get(s, s.queue[j]).soft
    ensures FsRq(s, s.queue[k]) && !Get(s, s.queue[k]).hard
  {
    hide Flight, Phases, Standing, Chain;
    var x := s.queue[k];
    assert x in s.queue;
    if Epoch(s, x) < |s.barriers| {
      var b := s.barriers[Epoch(s, x)];
      var j :| 0 <= j < |s.queue| && s.queue[j] == b;
      assert b in s.log;
      assert Key(s, x) < Key(s, b);
      assert j > k && Get(s, s.queue[j]).soft;
    }
  }

  lemma DispatchKeepsInv(s: State, r: Ref, toTail: bool)
    requires Inv(s) && r in s.sorted
    ensures Inv(Dispatch(s, r, toTail))
  {
    var i := if toTail then |s.queue| else SortIndex(s, Get(s, r), |s.queue|);
    DispatchFits(s, r, i);
    DispatchAt(s, r, i);
    DispatchShape(s, r, toTail, i);
    FrameKeepsInv(Dispatched(s, r, InsertAt(s.queue, i, r)), Dispatch(s, r, toTail));
  }

  lemma DispatchShape(s: State, r: Ref, toTail: bool, i: nat)
    requires i == if toTail then |s.queue| else SortIndex(s, Get(s, r), |s.queue|)
    ensures SameButBoundary(Dispatched(s, r, InsertAt(s.queue, i, r)), Dispatch(s, r, toTail))
  {
    if toTail { assert InsertAt(s.queue, |s.queue|, r) == s.queue + [r]; }
  }

  // Starting an ordered sequence.

  /** While idle, whatever reaches the head belongs to the oldest open epoch. */
  lemma IdleHead(s: State)
    requires Inv(s) && s.ordseq == IDLE && s.queue != []
    ensures s.queue[0].Rq?
    ensures FsRq(s, s.queue[0]) ==> Epoch(s, s.queue[0]) == s.ended
  {
    var x := s.queue[0];
    assert x in s.queue;
    assert x.Rq? by { assert Live(s, x); }
    BarrierAhead(s, 0);
  }

  /** While idle, the oldest open barrier stands before every later request. */
  lemma BarrierAhead(s: State, k: nat)
    requires Inv(s) && s.ordseq == IDLE && k < |s.queue|
    ensures FsRq(s, s.queue[k]) && Epoch(s, s.queue[k]) > s.ended ==> exists j | 0 <= j < k :: s.queue[j].Rq?
    ensures FsRq(s, s.queue[k]) ==> Epoch(s, s.queue[k]) >= s.ended
  {
    var x := s.queue[k];
    assert x in s.queue;
    if FsRq(s, x) && Epoch(s, x) > s.ended {
      assert x in s.log;
      var b := s.barriers[s.ended];
      assert b in s.queue && b in s.log;
      var j :| 0 <= j < |s.queue| && s.queue[j] == b;
      assert Key(s, b) < Key(s, x);
      assert j < k && s.queue[j].Rq?;
    }
  }

  /** Once the barrier is at the head, every other fs request behind it is newer. */
  lemma BehindHeadBarrier(s: State, k: nat)
    requires Inv(s) && s.ordseq == IDLE && 0 < k < |s.queue|
    requires FsRq(s, s.queue[0]) && Get(s, s.queue[0]).hard && FsRq(s, s.queue[k])
    ensures Epoch(s, s.queue[k]) > s.ended
  {
    IdleHead(s);
    var b, x := s.queue[0], s.queue[k];
    assert b in s.queue && x in s.queue;
    assert b in s.log && x in s.log;
    assert Key(s, b) <= Key(s, x);
  }

  function Proxies(preflush: bool, postflush: bool): seq<Ref> {
    (if preflush then [PreFlush] else []) + [Bar] + (if postflush then [PostFlush] else [])
  }

  /** Replacing the head by proxies of the same rank keeps the order. */
  lemma ProxiesKeepOrder(s: State, t: State, ps: seq<Ref>)
    requires QueueInOrder(s) && SameIdentity(s, t) && t.ended == s.ended
    requires s.queue != [] && t.queue == ps + s.queue[1..]
    requires forall a | 0 <= a < |ps| :: !ps[a].Rq?
    requires Keyed(s, s.queue[0]) && Key(s, s.queue[0]) == 2 * s.ended + 1
    ensures QueueInOrder(t)
  {
    var n := |ps|;
    forall a, b | 0 <= a < b < |t.queue| && Keyed(t, t.queue[a]) && Keyed(t, t.queue[b])
      ensures Key(t, t.queue[a]) <= Key(t, t.queue[b])
    {
      if b >= n {
        assert t.queue[b] == s.queue[b - n + 1];
        if a >= n {
          assert t.queue[a] == s.queue[a - n + 1];
        } else {
          assert Key(s, s.queue[0]) <= Key(s, s.queue[b - n + 1]);
        }
      }
    }
  }

  /** The barrier request is at the head of an idle queue. */
  ghost predicate BarrierAtHead(s: State) {
    && s.ordseq == IDLE && s.queue != [] && s.queue[0].Rq?
    && Get(s, s.queue[0]).fs && Get(s, s.queue[0]).hard
  }

  function StartedSeq(s: State, q: seq<Ref>): State
    requires s.queue != []
  {
    StartOrdered(s).(queue := q)
  }

  /** q is the queue with its head replaced by the proxies of the mode. */
  ghost predicate Stacked(s: State, q: seq<Ref>)
    requires s.queue != []
  {
    && NoDup(q)
    && (forall x: Ref | x.Rq? :: x in q <==> x in s.queue && x != s.queue[0])
    && Bar in q && (PreFlush in q <==> s.preflush) && (PostFlush in q <==> s.postflush)
  }

  /** What the head of the queue is when a sequence starts. */
  ghost predicate HeadFacts(s: State)
    requires s.queue != []
  {
    var b := s.queue[0];
    && b in s.log && s.ended < |s.barriers| && b == s.barriers[s.ended] && Epoch(s, b) == s.ended
    && !Accounted(s, b)
  }

  lemma StartHeadFacts(s: State)
    requires Inv(s) && BarrierAtHead(s)
    ensures HeadFacts(s)
  {
    IdleHead(s);
    assert s.queue[0] in s.queue;
  }

  lemma ConcatFacts(p: seq<Ref>, q: seq<Ref>)
    requires NoDup(p) && NoDup(q) && forall x | x in p :: x !in q
    ensures NoDup(p + q)
    ensures forall x :: x in p + q <==> x in p || x in q
  {
    forall i, j | 0 <= i < j < |p + q| ensures (p + q)[i] != (p + q)[j] {
      if i < |p| <= j {
        assert (p + q)[i] in p && (p + q)[j] in q;
      }
    }
  }

  lemma StartStacks(s: State)
    requires NoDup(s.queue) && BarrierAtHead(s)
    requires PreFlush !in s.queue && Bar !in s.queue && PostFlush !in s.queue
    ensures Stacked(s, Proxies(s.preflush, s.postflush) + s.queue[1..])
  {
    var ps := Proxies(s.preflush, s.postflush);
    assert forall x :: x in ps <==> x == Bar || (x == PreFlush && s.preflush) || (x == PostFlush && s.postflush);
    RemovedFacts(s.queue, 0);
    assert s.queue[..0] + s.queue[1..] == s.queue[1..];
    ConcatFacts(ps, s.queue[1..]);
  }

  lemma StartPlaces(s: State, q: seq<Ref>)
    requires BarrierAtHead(s) && Stacked(s, q) && HeadFacts(s) && Places(s) && Flight(s) && Phases(s)
    ensures Places(StartedSeq(s, q)) && Flight(StartedSeq(s, q))
  {
    var t := StartedSeq(s, q);
    assert t.ordseq != IDLE;
    assert s.queue[0] in s.queue;
    assert !Live(s, PreFlush) && !Live(s, Bar) && !Live(s, PostFlush);
    assert InFlightSet(t) == InFlightSet(s);
  }

  lemma StartChain(s: State, q: seq<Ref>)
    requires BarrierAtHead(s) && Stacked(s, q) && HeadFacts(s)
    requires Places(s) && History(s) && Chain(s) && Fences(s) && Standing(s)
    requires OnlyNewerBehind(s)
    ensures Chain(StartedSeq(s, q)) && Fences(StartedSeq(s, q))
  {
    StartFences(s, q);
    hide Fences;
    assert s.queue[0] in s.queue;
    var t := StartedSeq(s, q);
    assert t.ordseq != IDLE;
  }

  lemma StartFences(s: State, q: seq<Ref>)
    requires BarrierAtHead(s) && Stacked(s, q) && HeadFacts(s)
    requires History(s) && Fences(s) && OnlyNewerBehind(s)
    ensures Fences(StartedSeq(s, q))
  {
    var t := StartedSeq(s, q);
    assert forall x: Ref | x.Rq? :: Get(t, x) == Get(s, x) && Epoch(t, x) == Epoch(s, x);
    hide Get, Epoch, StartedSeq;
  }

  lemma StartStanding(s: State, q: seq<Ref>)
    requires BarrierAtHead(s) && Stacked(s, q) && Standing(s) && Phases(s)
    ensures Standing(StartedSeq(s, q))
  {
    assert !Live(s, PreFlush) && !Live(s, Bar) && !Live(s, PostFlush);
  }

  lemma NothingInFlight(s: State)
    requires Flight(s) && s.inFlight == 0
    ensures forall r | r in s.driver :: !FsRq(s, r)
  {
    forall r | r in s.driver ensures !FsRq(s, r) {
      assert r !in InFlightSet(s);
    }
  }

  lemma StartPhases(s: State, q: seq<Ref>)
    requires BarrierAtHead(s) && Stacked(s, q) && Phases(s) && !Accounted(s, s.queue[0])
    requires s.inFlight == 0 ==> forall r | r in s.driver :: !FsRq(s, r)
    requires OnlyNewerBehind(s)
    ensures Phases(StartedSeq(s, q))
  {
    var t := StartedSeq(s, q);
    StartMaskRuns(s.preflush, s.postflush, t.inFlight == 0);
    assert t.ordseq == StartMask(s.preflush, s.postflush, t.inFlight == 0);
    assert !Live(s, PreFlush) && !Live(s, Bar) && !Live(s, PostFlush);
  }

  /** Only newer fs requests stand behind the barrier that is about to start. */
  ghost predicate OnlyNewerBehind(s: State)
    requires s.queue != []
  {
    forall x | x in s.queue && x != s.queue[0] && FsRq(s, x) :: Epoch(s, x) > s.ended
  }

  lemma StartSetting(s: State)
    requires Inv(s) && BarrierAtHead(s)
    ensures HeadFacts(s) && OnlyNewerBehind(s)
    ensures Stacked(s, Proxies(s.preflush, s.postflush) + s.queue[1..])
    ensures s.inFlight == 0 ==> forall r | r in s.driver :: !FsRq(s, r)
  {
    StartHeadFacts(s);
    assert !Live(s, PreFlush) && !Live(s, Bar) && !Live(s, PostFlush);
    StartStacks(s);
    if s.inFlight == 0 { NothingInFlight(s); }
    forall x | x in s.queue && x != s.queue[0] && FsRq(s, x)
      ensures Epoch(s, x) > s.ended
    {
      var k :| 0 <= k < |s.queue| && s.queue[k] == x;
      BehindHeadBarrier(s, k);
    }
  }

  lemma StartRest(s: State, q: seq<Ref>)
    requires Inv(s) && BarrierAtHead(s) && HeadFacts(s) && OnlyNewerBehind(s) && Stacked(s, q)
    requires s.inFlight == 0 ==> forall r | r in s.driver :: !FsRq(s, r)
    ensures Rest(StartedSeq(s, q))
  {
    StartPlaces(s, q);
    StartChain(s, q);
    StartStanding(s, q);
    StartPhases(s, q);
  }

  lemma StartOrder(s: State, ps: seq<Ref>)
    requires BarrierAtHead(s) && HeadFacts(s) && History(s) && QueueInOrder(s)
    requires ps == Proxies(s.preflush, s.postflush)
    ensures History(StartedSeq(s, ps + s.queue[1..]))
    ensures QueueInOrder(StartedSeq(s, ps + s.queue[1..]))
  {
    var t := StartedSeq(s, ps + s.queue[1..]);
    assert SameIdentity(s, t);
    HistoryFrame(s, t);
    ProxiesKeepOrder(s, t, ps);
  }

  lemma StartKeepsInv(s: State)
    requires Inv(s) && BarrierAtHead(s)
    ensures Inv(StartOrdered(s))
  {
    var ps := Proxies(s.preflush, s.postflush);
    StartSetting(s);
    StartRest(s, ps + s.queue[1..]);
    StartOrder(s, ps);
    assert StartOrdered(s) == StartedSeq(s, ps + s.queue[1..]);
  }

  // Fetching.

  lemma FetchRunning(s: State)
    requires Inv(s) && s.ordseq != IDLE && s.queue != []
    ensures var r := s.queue[0];
            Keyed(s, r) ==> !(ReqSeq(s, r) < CurSeq(s.ordseq))
                            && (ReqSeq(s, r) <= CurSeq(s.ordseq) ==> MayStart(s, r))
  {
    hide Places, History, Chain, QueueInOrder, Standing, Fences, Flight, Phases, MayStart, ReqSeq;
    if FsRq(s, s.queue[0]) {
      FetchFs(s);
    } else if !s.queue[0].Rq? {
      FetchProxy(s);
    }
  }

  lemma FetchProxy(s: State)
    requires Phases(s) && s.ordseq != IDLE && s.queue != [] && !s.queue[0].Rq?
    ensures var r := s.queue[0];
            !(ReqSeq(s, r) < CurSeq(s.ordseq)) && (ReqSeq(s, r) <= CurSeq(s.ordseq) ==> MayStart(s, r))
  {
    CurSeqIsLowestIncomplete(s.ordseq);
    assert Live(s, s.queue[0]);
  }

  lemma FetchFs(s: State)
    requires Places(s) && History(s) && Chain(s) && QueueInOrder(s) && Standing(s) && Phases(s)
    requires s.ordseq != IDLE && s.queue != [] && FsRq(s, s.queue[0])
    ensures var r := s.queue[0];
            !(ReqSeq(s, r) < CurSeq(s.ordseq)) && (ReqSeq(s, r) <= CurSeq(s.ordseq) ==> MayStart(s, r))
  {
    var r := s.queue[0];
    assert r in s.queue && r in s.log;
    ColorOfEpoch(s, r);
    CurIsPhase(s.ordseq);
    FirstFsEpoch(s);
    assert Has(s.ordseq, DRAIN) ==> Drained(s);
    hide QueueInOrder, Standing, Phases;
  }

  /** A fs request of the barrier's colour at the head is of its epoch. */
  lemma FirstFsEpoch(s: State)
    requires Places(s) && History(s) && Chain(s) && QueueInOrder(s) && Standing(s)
    requires s.ordseq != IDLE && s.queue != [] && FsRq(s, s.queue[0])
    ensures ReqSeq(s, s.queue[0]) == DRAIN ==> Epoch(s, s.queue[0]) == s.ended
  {
    var r := s.queue[0];
    assert r in s.queue && r in s.log && Epoch(s, r) >= s.ended;
    ColorOfEpoch(s, r);
    hide Standing, ReqSeq;
    if ReqSeq(s, r) == DRAIN && Epoch(s, r) > s.ended {
      var j := NextBarrierFirst(s, 0);
    }
  }

  lemma DoOrderedStarts(s: State)
    requires Inv(s) && BarrierAtHead(s)
    ensures Inv(DoOrdered(s).0)
    ensures DoOrdered(s).1.Some? ==> MayStart(DoOrdered(s).0, DoOrdered(s).1.value)
  {
    StartKeepsInv(s);
    StartMaskRuns(s.preflush, s.postflush, StartOrdered(s).inFlight == 0);
  }

  /** When no sequence starts, the gate changes nothing but the warning. */
  lemma GateFrame(s: State)
    requires s.queue != [] && !BarrierAtHead(s) && (s.ordseq == IDLE ==> s.queue[0].Rq?)
    ensures DoOrdered(s).0 == s.(warned := DoOrdered(s).0.warned)
  {
  }

  lemma DoOrderedKeepsInv(s: State)
    requires Inv(s) && s.queue != []
    ensures Inv(DoOrdered(s).0)
    ensures DoOrdered(s).1.Some? ==> MayStart(DoOrdered(s).0, DoOrdered(s).1.value)
  {
    hide Places, History, Chain, QueueInOrder, Standing, Fences, Flight, StartOrdered;
    assert s.queue[0] in s.queue;
    if BarrierAtHead(s) {
      DoOrderedStarts(s);
    } else if s.ordseq == IDLE {
      IdleHead(s);
    } else {
      FetchRunning(s);
    }
  }

  /** Handing out changes the mark and the boundary. */
  lemma HandOutFrame(s: State, r: Ref)
    ensures var t := HandOut(s, r);
            t == Started(s, r).(endSector := t.endSector, boundary := t.boundary)
  {
  }

  lemma FetchKeepsInv(s: State)
    requires Inv(s) && s.queue != []
    ensures Inv(Fetch(s).0)
  {
    DoOrderedKeepsInv(s);
    FetchAfterOrdered(s);
  }

  lemma FetchAfterOrdered(s: State)
    requires s.queue != [] && Inv(DoOrdered(s).0)
    requires DoOrdered(s).1.Some? ==> MayStart(DoOrdered(s).0, DoOrdered(s).1.value)
    ensures Inv(Fetch(s).0)
  {
    var (u, got) := DoOrdered(s);
    if got.Some? {
      StartedKeepsInv(u, got.value);
      FrameKeepsInv(Started(u, got.value), HandOut(u, got.value));
    }
  }

  // Completing.

  /** A submitted request leaves the driver for good. */
  function Retired(s: State, r: Ref): State {
    s.(driver := s.driver - {r}, completed := s.completed + {r},
       inFlight := s.inFlight - Count(Accounted(s, r)))
  }

  lemma RetiredPlaces(s: State, r: Ref)
    requires Places(s) && Standing(s) && Flight(s) && r in s.driver && r.Rq?
    ensures Places(Retired(s, r)) && Flight(Retired(s, r))
  {
    RetiredFlight(s, r);
    hide Flight, Standing;
  }

  lemma RetiredFlight(s: State, r: Ref)
    requires Standing(s) && Flight(s) && r in s.driver && r.Rq?
    ensures Flight(Retired(s, r))
  {
    assert InFlightSet(Retired(s, r)) == InFlightSet(s) - {r};
  }

  lemma RetiredChain(s: State, r: Ref)
    requires Places(s) && Chain(s) && Fences(s) && r in s.driver
    ensures Chain(Retired(s, r)) && Fences(Retired(s, r))
  {
  }

  lemma RetiredStanding(s: State, r: Ref)
    requires Standing(s) && Chain(s) && r in s.driver && r.Rq? && r in s.log
    ensures Standing(Retired(s, r))
  {
  }

  lemma RetiredPhases(s: State, r: Ref)
    requires Places(s) && Chain(s) && Standing(s) && Phases(s) && r in s.driver && r.Rq?
    ensures Standing(Retired(s, r)) && Phases(Retired(s, r))
  {
    assert r in s.log;
    RetiredStanding(s, r);
    hide Places, Chain, Standing;
    assert Live(s, PreFlush) <==> Live(Retired(s, r), PreFlush);
    assert Live(s, Bar) <==> Live(Retired(s, r), Bar);
    assert Live(s, PostFlush) <==> Live(Retired(s, r), PostFlush);
  }

  lemma RetiredKeepsInv(s: State, r: Ref)
    requires Inv(s) && r in s.driver && r.Rq?
    ensures Inv(Retired(s, r))
  {
    HistoryFrame(s, Retired(s, r));
    SameQueueKeepsOrder(s, Retired(s, r));
    RetiredPlaces(s, r);
    RetiredChain(s, r);
    RetiredPhases(s, r);
  }

  /** While the queue drains, the barrier proxy is queued, so the first request that is not
      special ranks no higher: it is a proxy, or one the barrier waits for. */
  lemma FirstWhileDraining(s: State)
    requires Inv(s) && s.ordseq != IDLE && CurSeq(s.ordseq) == DRAIN && s.inFlight == 0
    ensures var h := FirstKeyed(s, 0);
            h < |s.queue| && (s.queue[h].Rq? ==> FsRq(s, s.queue[h]) && Epoch(s, s.queue[h]) <= s.ended)
  {
    BarIsQueued(s);
    hide Places, History, Chain, Standing, Fences, Flight, Phases;
    var k :| 0 <= k < |s.queue| && s.queue[k] == Bar;
    var h := FirstKeyed(s, 0);
    assert h <= k && Key(s, s.queue[h]) <= Key(s, Bar);
  }

  lemma BarIsQueued(s: State)
    requires Standing(s) && Phases(s) && s.ordseq != IDLE && CurSeq(s.ordseq) == DRAIN
    ensures Bar in s.queue
  {
    assert Live(s, Bar);
  }

  /** When everything the driver held is back, the drain really is over exactly if the first
      request that is not special belongs to a later phase. */
  lemma DrainedIff(s: State)
    requires Inv(s) && s.ordseq != IDLE && CurSeq(s.ordseq) == DRAIN && s.inFlight == 0
    ensures var h := FirstKeyed(s, 0);
            h < |s.queue| && (Drained(s) <==> ReqSeq(s, s.queue[h]) > DRAIN)
  {
    NothingInFlight(s);
    FirstWhileDraining(s);
    var h := FirstKeyed(s, 0);
    assert s.queue[h] in s.queue;
    if ReqSeq(s, s.queue[h]) > DRAIN {
      LateKey(s, s.queue[h]);
      forall r | r in s.queue && FsRq(s, r) ensures Epoch(s, r) > s.ended {
        EarlyKey(s, r);
        var k :| 0 <= k < |s.queue| && s.queue[k] == r;
        assert Key(s, s.queue[h]) <= Key(s, r);
      }
    }
  }

  /** What the barrier in progress waits for ranks below it, what may come after it does not. */
  lemma EarlyKey(s: State, r: Ref)
    requires Inv(s) && s.ordseq != IDLE && r in s.queue && FsRq(s, r)
    ensures Epoch(s, r) <= s.ended ==> Key(s, r) <= 2 * s.ended
  {
    assert r in s.log && s.orig in s.log;
    assert Get(s, r).hard && Epoch(s, r) == s.ended ==> r == s.orig;
  }

  lemma LateKey(s: State, h: Ref)
    requires Inv(s) && s.ordseq != IDLE && h in s.queue && Keyed(s, h) && ReqSeq(s, h) > DRAIN
    ensures Key(s, h) > 2 * s.ended
  {
    if h.Rq? {
      assert h in s.log;
      ColorOfEpoch(s, h);
    }
  }

  /** Setting one more bit of a running mask, as seen bit by bit. */
  lemma SetBit(m: Mask, phase: int)
    requires Running(m) && phase in PHASES && CurSeq(m) == phase
    ensures Has(Set(m, phase), STARTED) && !Has(Set(m, phase), DONE)
    ensures forall p | p in PHASES :: Has(Set(m, phase), p) <==> Has(m, p) || p == phase
    ensures CurSeq(Set(m, phase)) != DONE ==> Running(Set(m, phase))
    ensures phase < CurSeq(Set(m, phase))
  {
  }

  lemma MaskFramePlaces(s: State, m: Mask)
    requires Places(s) && Flight(s) && s.ordseq != IDLE && m != IDLE
    ensures var t := s.(ordseq := m); Places(t) && Flight(t)
  {
    assert InFlightSet(s.(ordseq := m)) == InFlightSet(s);
  }

  lemma MaskFrameChain(s: State, m: Mask)
    requires Chain(s) && Fences(s) && Standing(s) && s.ordseq != IDLE && m != IDLE
    ensures var t := s.(ordseq := m); Chain(t) && Fences(t) && Standing(t)
  {
    MaskFrameStanding(s, m);
    hide Standing, Fences;
  }

  lemma MaskFrameStanding(s: State, m: Mask)
    requires Fences(s) && Standing(s)
    ensures var t := s.(ordseq := m); Fences(t) && Standing(t)
  {
  }

  lemma MaskFrame(s: State, m: Mask)
    requires Places(s) && Chain(s) && Flight(s) && Fences(s) && Standing(s)
    requires s.ordseq != IDLE && m != IDLE
    ensures var t := s.(ordseq := m); Places(t) && Chain(t) && Flight(t) && Fences(t) && Standing(t)
  {
    MaskFramePlaces(s, m);
    MaskFrameChain(s, m);
  }

  lemma DrainDonePhases(s: State)
    requires Phases(s) && DrainTest(s) && Drained(s)
    ensures CompleteSeq(s, DRAIN, 0) == s.(ordseq := Set(s.ordseq, DRAIN))
    ensures Set(s.ordseq, DRAIN) != IDLE && Phases(s.(ordseq := Set(s.ordseq, DRAIN)))
  {
    SetBit(s.ordseq, DRAIN);
    var t := s.(ordseq := Set(s.ordseq, DRAIN));
    assert Live(t, PreFlush) == Live(s, PreFlush) && Live(t, Bar) == Live(s, Bar)
           && Live(t, PostFlush) == Live(s, PostFlush);
  }

  lemma DrainDoneKeepsInv(s: State)
    requires Inv(s) && DrainTest(s) && !EndsTooEarly(s)
    ensures Inv(CompleteSeq(s, DRAIN, 0))
  {
    hide Places, History, Chain, QueueInOrder, Standing, Fences, Flight, Phases;
    DrainedIff(s);
    DrainDonePhases(s);
    var t := s.(ordseq := Set(s.ordseq, DRAIN));
    MaskFrame(s, t.ordseq);
    HistoryFrame(s, t);
    SameQueueKeepsOrder(s, t);
  }

  // Completing a proxy.

  /** The proxy gone from the driver, its phase not yet marked. */
  function ProxyGone(s: State, r: Ref): State {
    s.(driver := s.driver - {r}, inFlight := s.inFlight - Count(Accounted(s, r)))
  }

  lemma ProxyGonePlaces(s: State, r: Ref)
    requires Places(s) && History(s) && r in s.driver && !r.Rq?
    ensures Places(ProxyGone(s, r))
  {
  }

  lemma ProxyGoneFlight(s: State, r: Ref)
    requires Flight(s) && Standing(s) && r in s.driver && !r.Rq?
    ensures Flight(ProxyGone(s, r))
  {
    assert InFlightSet(ProxyGone(s, r)) == InFlightSet(s) - {r};
  }

  lemma ProxyGoneChain(s: State, r: Ref)
    requires Chain(s) && Fences(s) && Standing(s) && r in s.driver && !r.Rq?
    ensures var t := ProxyGone(s, r); Chain(t) && Fences(t) && Standing(t)
  {
  }

  lemma CompleteSeqCases(s: State, phase: int, error: int)
    requires !Has(s.ordseq, phase)
    ensures CurSeq(Set(s.ordseq, phase)) != DONE ==>
              SameButBoundary(s.(ordseq := Set(s.ordseq, phase)), CompleteSeq(s, phase, error))
    ensures CurSeq(Set(s.ordseq, phase)) == DONE && !Accounted(s, s.orig) ==>
              SameButBoundary(SequenceOver(s), CompleteSeq(s, phase, error))
  {
  }

  /** A proxy completes only in its turn, and never trips the drain test. */
  lemma ProxyTurn(s: State, r: Ref)
    requires Standing(s) && Phases(s) && r in s.driver && !r.Rq?
    ensures s.ordseq != IDLE && PhaseOf(r) == CurSeq(s.ordseq) && CurSeq(s.ordseq) > DRAIN
    ensures Has(s.ordseq, DRAIN) && !Has(s.ordseq, PhaseOf(r))
    ensures Completed(s.(driver := s.driver - {r}), r) == ProxyGone(s, r)
  {
    assert Live(s, r);
  }

  /** The sequence goes on. */
  lemma PhaseDonePhases(s: State, r: Ref, m: Mask)
    requires Standing(s) && Phases(s) && Places(s) && r in s.driver && !r.Rq?
    requires m == Set(s.ordseq, PhaseOf(r)) && CurSeq(m) != DONE
    ensures m != IDLE && Phases(ProxyGone(s, r).(ordseq := m))
  {
    ProxyTurn(s, r);
    SetBit(s.ordseq, PhaseOf(r));
    var t := ProxyGone(s, r).(ordseq := m);
    assert forall p: Ref | p != r :: Live(t, p) == Live(s, p);
    assert !Live(t, r);
  }

  /** The sequence is over: the barrier itself is completed. */
  function SequenceOver(s: State): State {
    s.(ordseq := IDLE, completed := s.completed + {s.orig}, ended := s.ended + 1)
  }

  lemma OverPlaces(s: State)
    requires Places(s) && Flight(s) && Chain(s) && History(s) && s.ordseq != IDLE
    ensures var t := SequenceOver(s); Places(t) && Flight(t)
  {
    assert InFlightSet(SequenceOver(s)) == InFlightSet(s);
    assert s.orig in s.log;
  }

  lemma OverChain(s: State)
    requires Chain(s) && Fences(s) && History(s) && s.ordseq != IDLE
    ensures var t := SequenceOver(s); Chain(t) && Fences(t)
  {
  }

  lemma OverStanding(s: State)
    requires Standing(s) && Chain(s) && History(s) && s.ordseq != IDLE && Drained(s)
    ensures Standing(SequenceOver(s))
  {
    assert s.orig in s.log;
  }

  lemma PhaseDoneKeepsInv(s: State, r: Ref, error: int)
    requires Inv(s) && r in s.driver && !r.Rq?
    ensures Inv(CompleteSeq(ProxyGone(s, r), PhaseOf(r), error))
  {
    var m := Set(s.ordseq, PhaseOf(r));
    ProxyTurn(s, r);
    SetBit(s.ordseq, PhaseOf(r));
    if CurSeq(m) == DONE {
      PhaseDoneEnds(s, r, error);
    } else {
      PhaseDoneGoesOn(s, r, error);
    }
  }

  lemma PhaseDoneGoesOn(s: State, r: Ref, error: int)
    requires Inv(s) && r in s.driver && !r.Rq?
    requires !Has(s.ordseq, PhaseOf(r)) && CurSeq(Set(s.ordseq, PhaseOf(r))) != DONE && s.ordseq != IDLE
    ensures Inv(CompleteSeq(ProxyGone(s, r), PhaseOf(r), error))
  {
    GoesOnInv(s, r, Set(s.ordseq, PhaseOf(r)));
    CompleteSeqCases(ProxyGone(s, r), PhaseOf(r), error);
    FrameKeepsInv(ProxyGone(s, r).(ordseq := Set(s.ordseq, PhaseOf(r))),
                  CompleteSeq(ProxyGone(s, r), PhaseOf(r), error));
  }

  lemma GoesOnInv(s: State, r: Ref, m: Mask)
    requires Inv(s) && r in s.driver && !r.Rq? && s.ordseq != IDLE
    requires m == Set(s.ordseq, PhaseOf(r)) && CurSeq(m) != DONE
    ensures Inv(ProxyGone(s, r).(ordseq := m))
  {
    OrderFrame(s, ProxyGone(s, r).(ordseq := m));
    PhaseDonePhases(s, r, m);
    GoesOnRest(s, r, m);
  }

  lemma GoesOnRest(s: State, r: Ref, m: Mask)
    requires Places(s) && History(s) && Chain(s) && Flight(s) && Fences(s) && Standing(s)
    requires r in s.driver && !r.Rq? && s.ordseq != IDLE && m != IDLE
    ensures var t := ProxyGone(s, r).(ordseq := m);
            Places(t) && Chain(t) && Flight(t) && Fences(t) && Standing(t)
  {
    ProxyGonePlaces(s, r);
    ProxyGoneFlight(s, r);
    ProxyGoneChain(s, r);
    MaskFrame(ProxyGone(s, r), m);
  }

  lemma PhaseDoneEnds(s: State, r: Ref, error: int)
    requires Inv(s) && r in s.driver && !r.Rq?
    requires !Has(s.ordseq, PhaseOf(r)) && CurSeq(Set(s.ordseq, PhaseOf(r))) == DONE
    requires s.ordseq != IDLE && Has(s.ordseq, DRAIN)
    ensures Inv(CompleteSeq(ProxyGone(s, r), PhaseOf(r), error))
  {
    var g := ProxyGone(s, r);
    EndsInv(s, r);
    assert !Accounted(g, g.orig) by { assert s.orig in s.log; }
    CompleteSeqCases(g, PhaseOf(r), error);
    FrameKeepsInv(SequenceOver(g), CompleteSeq(g, PhaseOf(r), error));
  }

  lemma EndsInv(s: State, r: Ref)
    requires Inv(s) && r in s.driver && !r.Rq? && s.ordseq != IDLE && Has(s.ordseq, DRAIN)
    requires !Has(s.ordseq, PhaseOf(r)) && CurSeq(Set(s.ordseq, PhaseOf(r))) == DONE
    ensures Inv(SequenceOver(ProxyGone(s, r)))
  {
    EndPhases(s, r);
    OrderFrame(s, SequenceOver(ProxyGone(s, r)));
    EndsRest(s, r);
  }

  lemma EndsRest(s: State, r: Ref)
    requires Places(s) && History(s) && QueueInOrder(s) && Chain(s) && Flight(s) && Fences(s) && Standing(s)
    requires Phases(s) && r in s.driver && !r.Rq? && s.ordseq != IDLE && Has(s.ordseq, DRAIN)
    ensures var t := SequenceOver(ProxyGone(s, r));
            Places(t) && Chain(t) && Flight(t) && Fences(t) && Standing(t)
  {
    ProxyGonePlaces(s, r);
    ProxyGoneFlight(s, r);
    ProxyGoneChain(s, r);
    OrderFrame(s, ProxyGone(s, r));
    GoneDrained(s, r);
    OverAll(ProxyGone(s, r));
  }

  lemma GoneDrained(s: State, r: Ref)
    requires Phases(s) && s.ordseq != IDLE && Has(s.ordseq, DRAIN)
    ensures Drained(ProxyGone(s, r))
  {
  }

  lemma OverAll(s: State)
    requires Places(s) && History(s) && Chain(s) && Flight(s) && Fences(s) && Standing(s)
    requires s.ordseq != IDLE && Drained(s)
    ensures var t := SequenceOver(s);
            Places(t) && Chain(t) && Flight(t) && Fences(t) && Standing(t)
  {
    OverPlaces(s);
    OverChain(s);
    OverStanding(s);
  }

  lemma EndPhases(s: State, r: Ref)
    requires Phases(s) && Standing(s) && Places(s) && r in s.driver && !r.Rq?
    requires !Has(s.ordseq, PhaseOf(r)) && CurSeq(Set(s.ordseq, PhaseOf(r))) == DONE
    ensures Phases(SequenceOver(ProxyGone(s, r)))
    ensures forall p: Ref | !p.Rq? :: p !in s.queue
  {
    ProxyTurn(s, r);
    SetBit(s.ordseq, PhaseOf(r));
    assert Live(s, r);
    forall p: Ref | !p.Rq? && p != r ensures !Live(s, p) {
    }
  }

  /** elv_completed_request and the end_io functions keep the invariant, unless the completion
      ends the drain too early. */
  lemma FinishKeepsInv(s: State, r: Ref, error: int)
    requires Inv(s) && r in s.driver && !(r.Rq? && EndsTooEarly(Retired(s, r)))
    ensures Inv(End(s, r, error))
  {
    if !r.Rq? {
      ProxyTurn(s, r);
      PhaseDoneKeepsInv(s, r, error);
    } else {
      RetiredKeepsInv(s, r);
      EndRetires(s, r, error);
      if DrainTest(Retired(s, r)) {
        DrainDoneKeepsInv(Retired(s, r));
      }
    }
  }

  /** A drain that ends too early leaves behind what the barrier should have waited for. */
  lemma EarlyEndLeavesBehind(s: State)
    requires Inv(s) && EndsTooEarly(s)
    ensures var t := CompleteSeq(s, DRAIN, 0);
            t == s.(ordseq := Set(s.ordseq, DRAIN)) && t.ordseq != IDLE && Has(t.ordseq, DRAIN) && !Drained(t)
  {
    DrainedIff(s);
    SetBit(s.ordseq, DRAIN);
  }

  /** So the completion of a request keeps the invariant exactly if it does not end the drain
      too early. */
  lemma FinishKeepsInvIff(s: State, r: Ref, error: int)
    requires Inv(s) && r in s.driver && r.Rq?
    ensures Inv(End(s, r, error)) <==> !EndsTooEarly(Retired(s, r))
  {
    if EndsTooEarly(Retired(s, r)) {
      RetiredKeepsInv(s, r);
      EndRetires(s, r, error);
      EarlyEndLeavesBehind(Retired(s, r));
    } else {
      FinishKeepsInv(s, r, error);
    }
  }

  lemma EndRetires(s: State, r: Ref, error: int)
    requires r.Rq?
    ensures End(s, r, error) == if DrainTest(Retired(s, r)) then CompleteSeq(Retired(s, r), DRAIN, 0)
                                else Retired(s, r)
  {
  }

  // Submitting.

  /** t is s with one new submission r in the log. */
  ghost predicate Grown(s: State, t: State, r: Ref) {
    && r.Rq? && r !in s.log
    && t.log == s.log + [r]
    && (forall x | x != r :: Get(t, x) == Get(s, x) && Epoch(t, x) == Epoch(s, x))
    && t.epoch.Keys == s.epoch.Keys + {r} && Epoch(t, r) == |s.barriers|
    && t.barriers == (if Get(t, r).hard then s.barriers + [r] else s.barriers)
    && (t.ordcolor <==> if Get(t, r).hard then !s.ordcolor else s.ordcolor)
    && Get(t, r).color == s.ordcolor
    && (Get(t, r).hard ==> Get(t, r).fs) && !Get(t, r).started
    && t.ended == s.ended && t.ordseq == s.ordseq && t.orig == s.orig
    && t.driver == s.driver && t.completed == s.completed && t.inFlight == s.inFlight
    && t.bug == s.bug && t.warned == s.warned
  }

  lemma GrownLogOrder(s: State, t: State, r: Ref)
    requires Grown(s, t, r) && History(s)
    ensures forall i, j | 0 <= i < j < |t.log| :: Key(t, t.log[i]) <= Key(t, t.log[j])
  {
    forall i, j | 0 <= i < j < |t.log| ensures Key(t, t.log[i]) <= Key(t, t.log[j]) {
      assert s.log[i] in s.log && s.log[i] != r;
      if j < |s.log| {
        assert s.log[j] in s.log && s.log[j] != r;
        assert Key(s, s.log[i]) <= Key(s, s.log[j]);
      }
    }
  }

  lemma GrownBarriers(s: State, t: State, r: Ref)
    requires Grown(s, t, r) && History(s)
    ensures forall k | 0 <= k < |t.barriers| ::
              t.barriers[k] in t.log && Get(t, t.barriers[k]).hard && Epoch(t, t.barriers[k]) == k
  {
    forall k | 0 <= k < |t.barriers|
      ensures t.barriers[k] in t.log && Get(t, t.barriers[k]).hard && Epoch(t, t.barriers[k]) == k
    {
      if k < |s.barriers| { assert s.barriers[k] in s.log; }
    }
  }

  lemma GrownHistory(s: State, t: State, r: Ref)
    requires Grown(s, t, r) && History(s)
    ensures History(t)
  {
    GrownLogOrder(s, t, r);
    GrownBarriers(s, t, r);
    GrownRequests(s, t, r);
    hide Key, Epoch;
  }

  lemma GrownRequests(s: State, t: State, r: Ref)
    requires Grown(s, t, r) && History(s)
    ensures forall x | x in t.log ::
              && x.Rq? && x in t.epoch && t.epoch[x] <= |t.barriers|
              && (Get(t, x).color <==> Odd(t.epoch[x]))
              && (Get(t, x).hard ==> Get(t, x).fs && Epoch(t, x) < |t.barriers| && t.barriers[Epoch(t, x)] == x)
  {
    forall x | x in t.log
      ensures && x.Rq? && x in t.epoch && t.epoch[x] <= |t.barriers|
              && (Get(t, x).color <==> Odd(t.epoch[x]))
              && (Get(t, x).hard ==> Get(t, x).fs && Epoch(t, x) < |t.barriers| && t.barriers[Epoch(t, x)] == x)
    {
      if x != r { assert x in s.log; assert Epoch(t, x) == Epoch(s, x); }
    }
  }

  /** The new request is in the queue (softly fenced), or the scheduler holds it. */
  ghost predicate Landed(s: State, t: State, r: Ref) {
    || (Inserted(s, r, t.queue) && t.sorted == s.sorted && Get(t, r).soft
        && (Get(t, r).hard ==> s.sorted == {}))
    || (t.queue == s.queue && t.sorted == s.sorted + {r}
        && Get(t, r).fs && !Get(t, r).hard && !Get(t, r).soft)
  }

  lemma GrownPlaces(s: State, t: State, r: Ref)
    requires Grown(s, t, r) && Landed(s, t, r) && Places(s) && Flight(s)
    ensures Places(t) && Flight(t)
  {
    assert InFlightSet(t) == InFlightSet(s);
  }

  lemma GrownChain(s: State, t: State, r: Ref)
    requires Grown(s, t, r) && Landed(s, t, r) && Places(s) && History(s) && Chain(s)
    ensures Chain(t)
  {
    if s.ordseq != IDLE { assert s.orig in s.log; }
    forall k | 0 <= k < |s.barriers| ensures s.barriers[k] != r {
      assert s.barriers[k] in s.log;
    }
  }

  lemma GrownFences(s: State, t: State, r: Ref)
    requires Grown(s, t, r) && Landed(s, t, r) && Places(s) && History(s) && Fences(s)
    ensures Fences(t)
  {
    forall x | x in t.queue && FsRq(t, x) && !Get(t, x).soft && Epoch(t, x) < |t.barriers|
      ensures t.barriers[Epoch(t, x)] in t.queue
    {
      assert x in s.log;
    }
  }

  lemma GrownStanding(s: State, t: State, r: Ref)
    requires Grown(s, t, r) && Landed(s, t, r) && Places(s) && Standing(s) && Chain(s)
    ensures Standing(t)
  {
    assert r !in s.queue && r !in s.driver && r !in s.sorted && r !in s.completed;
    hide Places;
  }

  lemma GrownPhases(s: State, t: State, r: Ref)
    requires Grown(s, t, r) && Landed(s, t, r) && Places(s) && Standing(s) && Chain(s) && Phases(s)
    ensures Standing(t) && Phases(t)
  {
    GrownStanding(s, t, r);
    assert r !in s.queue && r !in s.driver;
    hide Places, Standing, Chain;
    assert Live(t, PreFlush) == Live(s, PreFlush) && Live(t, Bar) == Live(s, Bar)
           && Live(t, PostFlush) == Live(s, PostFlush);
  }

  lemma GrownKeepsInv(s: State, t: State, r: Ref)
    requires Grown(s, t, r) && Landed(s, t, r) && Inv(s) && QueueInOrder(t)
    ensures Inv(t)
  {
    GrownHistory(s, t, r);
    GrownPlaces(s, t, r);
    GrownChain(s, t, r);
    GrownFences(s, t, r);
    GrownPhases(s, t, r);
  }

  lemma GrownQueueOrder(s: State, t: State, r: Ref)
    requires Grown(s, t, r) && QueueInOrder(s) && r !in s.queue
    requires || t.queue == s.queue
             || (t.queue == [r] + s.queue && !Get(t, r).fs)
             || (t.queue == s.queue + [r] && forall x | x in s.queue && Keyed(s, x) :: Key(s, x) <= 2 * |s.barriers|)
    ensures QueueInOrder(t)
  {
    forall a, b | 0 <= a < b < |t.queue| && Keyed(t, t.queue[a]) && Keyed(t, t.queue[b])
      ensures Key(t, t.queue[a]) <= Key(t, t.queue[b])
    {
      if t.queue == s.queue {
        assert s.queue[a] in s.queue && s.queue[b] in s.queue;
      } else if t.queue == [r] + s.queue && !Get(t, r).fs {
        assert t.queue[a] == s.queue[a - 1] && t.queue[b] == s.queue[b - 1];
        assert s.queue[a - 1] in s.queue && s.queue[b - 1] in s.queue;
      } else {
        assert t.queue[a] == s.queue[a] && s.queue[a] in s.queue;
        if b < |s.queue| { assert t.queue[b] == s.queue[b] && s.queue[b] in s.queue; }
      }
    }
  }

  lemma QueueKeysBounded(s: State, x: Ref)
    requires Places(s) && History(s) && Chain(s) && Phases(s) && x in s.queue && Keyed(s, x)
    ensures Key(s, x) <= 2 * |s.barriers|
  {
    if !x.Rq? { assert Live(s, x); }
  }

  lemma SubmitSortedGrows(s: State, e: Event)
    requires e.SubmitSorted? && Enabled(s, e)
    ensures var t := Step(s, e);
            && Grown(s, t, e.r) && t.queue == s.queue && t.sorted == s.sorted + {e.r}
            && Get(t, e.r).fs && !Get(t, e.r).hard && !Get(t, e.r).soft
  {
  }

  lemma GrownQueueSame(s: State, t: State, r: Ref)
    requires Inv(s) && Grown(s, t, r) && t.queue == s.queue
    ensures QueueInOrder(t)
  {
    GrownQueueOrder(s, t, r);
  }

  lemma SubmitSortedKeepsInv(s: State, e: Event)
    requires Inv(s) && e.SubmitSorted? && Enabled(s, e)
    ensures Inv(Step(s, e))
  {
    hide Inv, Step;
    SubmitSortedGrows(s, e);
    GrownQueueSame(s, Step(s, e), e.r);
    GrownKeepsInv(s, Step(s, e), e.r);
  }

  lemma SubmitFrontGrows(s: State, e: Event)
    requires e.SubmitFront? && Enabled(s, e)
    ensures Grown(s, Step(s, e), e.r) && Step(s, e).queue == [e.r] + s.queue
    ensures Step(s, e).sorted == s.sorted && Get(Step(s, e), e.r).soft
    ensures !Get(Step(s, e), e.r).fs && !Get(Step(s, e), e.r).hard
  {
  }

  lemma SubmitFrontKeepsInv(s: State, e: Event)
    requires Inv(s) && e.SubmitFront? && Enabled(s, e)
    ensures Inv(Step(s, e))
  {
    SubmitFrontGrows(s, e);
    PrependKeepsInv(s, Step(s, e), e.r);
  }

  lemma PrependKeepsInv(s: State, t: State, r: Ref)
    requires Inv(s) && Grown(s, t, r) && t.queue == [r] + s.queue && t.sorted == s.sorted
    requires Get(t, r).soft && !Get(t, r).fs && !Get(t, r).hard
    ensures Inv(t)
  {
    InsertAtInserts(s, r, 0);
    assert t.queue == InsertAt(s.queue, 0, r);
    GrownQueueOrder(s, t, r);
    GrownKeepsInv(s, t, r);
  }

  // Back insertion drains the scheduler first.

  /** s and t agree on everything a dispatch reads. */
  ghost predicate SameForDispatch(s: State, t: State) {
    && t.queue == s.queue && t.sorted == s.sorted
    && t.endSector == s.endSector && t.boundary == s.boundary
    && (forall x | x in s.queue :: Get(t, x) == Get(s, x))
    && (forall x | x in s.sorted :: Get(t, x) == Get(s, x))
  }

  function WithQueues(t: State, d: State): State {
    t.(queue := d.queue, sorted := d.sorted, endSector := d.endSector, boundary := d.boundary)
  }

  lemma {:induction false} SortIndexFrame(s: State, t: State, rq: Request, n: nat)
    requires SameForDispatch(s, t) && n <= |s.queue|
    ensures SortIndex(t, rq, n) == SortIndex(s, rq, n)
  {
    if n > 0 {
      assert s.queue[n - 1] in s.queue;
      SortIndexFrame(s, t, rq, n - 1);
    }
  }

  lemma DispatchTailFrame(s: State, t: State, r: Ref)
    requires SameForDispatch(s, t) && r in s.sorted
    ensures Dispatch(t, r, true) == WithQueues(t, Dispatch(s, r, true))
    ensures SameForDispatch(Dispatch(s, r, true), Dispatch(t, r, true))
  {
    SameAfterMove(s, t, r, s.queue + [r], Get(s, r).end, Some(r));
    DispatchTailShape(s, r);
    DispatchTailShape(t, r);
  }

  lemma DispatchTailShape(s: State, r: Ref)
    ensures Dispatch(s, r, true) == s.(sorted := s.sorted - {r}, queue := s.queue + [r],
                                       endSector := Get(s, r).end, boundary := Some(r))
  {
  }

  lemma DispatchSortFrame(s: State, t: State, r: Ref)
    requires SameForDispatch(s, t) && r in s.sorted
    ensures Dispatch(t, r, false) == WithQueues(t, Dispatch(s, r, false))
    ensures SameForDispatch(Dispatch(s, r, false), Dispatch(t, r, false))
  {
    var i := SortIndex(s, Get(s, r), |s.queue|);
    SortIndexFrame(s, t, Get(s, r), |s.queue|);
    InsertMembers(s.queue, i, r);
    SameAfterMove(s, t, r, InsertAt(s.queue, i, r), s.endSector, s.boundary);
  }

  lemma SameAfterMove(s: State, t: State, r: Ref, q: seq<Ref>, end: nat, b: Option<Ref>)
    requires SameForDispatch(s, t) && r in s.sorted
    requires forall x | x in q :: x in s.queue || x == r
    ensures SameForDispatch(s.(sorted := s.sorted - {r}, queue := q, endSector := end, boundary := b),
                            t.(sorted := t.sorted - {r}, queue := q, endSector := end, boundary := b))
  {
  }

  lemma InsertMembers(q: seq<Ref>, i: nat, r: Ref)
    requires i <= |q|
    ensures forall x | x in InsertAt(q, i, r) :: x in q || x == r
  {
  }

  lemma DispatchFrame(s: State, t: State, r: Ref, toTail: bool)
    requires SameForDispatch(s, t) && r in s.sorted
    ensures var s', t' := Dispatch(s, r, toTail), Dispatch(t, r, toTail);
            && SameForDispatch(s', t') && s'.sorted == s.sorted - {r}
            && s' == WithQueues(s, s') && t' == WithQueues(t, s')
  {
    if toTail { DispatchTailFrame(s, t, r); } else { DispatchSortFrame(s, t, r); }
  }

  lemma WithQueuesTwice(t: State, a: State, d: State)
    ensures WithQueues(WithQueues(t, a), d) == WithQueues(t, d)
  {
  }

  lemma {:induction false} DrainFrame(s: State, t: State, cs: seq<Choice>)
    requires SameForDispatch(s, t) && Drains(cs, s.sorted)
    ensures DrainElevator(t, cs) == WithQueues(t, DrainElevator(s, cs))
    ensures DrainElevator(s, cs) == WithQueues(s, DrainElevator(s, cs))
    ensures DrainElevator(s, cs).sorted == {}
    decreases |cs|, 1
  {
    if cs != [] {
      DrainFrameStep(s, t, cs, Dispatch(s, cs[0].r, cs[0].toTail), Dispatch(t, cs[0].r, cs[0].toTail));
    }
  }

  lemma {:induction false} DrainFrameStep(s: State, t: State, cs: seq<Choice>, s': State, t': State)
    requires SameForDispatch(s, t) && cs != [] && Drains(cs, s.sorted)
    requires s' == Dispatch(s, cs[0].r, cs[0].toTail) && t' == Dispatch(t, cs[0].r, cs[0].toTail)
    ensures DrainElevator(t, cs) == WithQueues(t, DrainElevator(s, cs))
    ensures DrainElevator(s, cs) == WithQueues(s, DrainElevator(s, cs))
    ensures DrainElevator(s, cs).sorted == {}
    decreases |cs|, 0
  {
    DispatchFrame(s, t, cs[0].r, cs[0].toTail);
    DrainFrame(s', t', cs[1..]);
    var d := DrainElevator(s', cs[1..]);
    WithQueuesTwice(t, s', d);
    WithQueuesTwice(s, s', d);
  }

  lemma {:induction false} DrainKeepsInv(s: State, cs: seq<Choice>)
    requires Inv(s) && Drains(cs, s.sorted)
    ensures Inv(DrainElevator(s, cs))
    decreases |cs|
  {
    if cs != [] {
      DispatchKeepsInv(s, cs[0].r, cs[0].toTail);
      DrainKeepsInv(Dispatch(s, cs[0].r, cs[0].toTail), cs[1..]);
    }
  }

  /** Draining and then entering, in the source's order, is entering what was drained. */
  lemma SubmitBackGrows(s: State, e: Event) returns (d: State)
    requires Inv(s) && e.SubmitBack? && Enabled(s, e)
    ensures Inv(d) && d.sorted == {}
    ensures Grown(d, Step(s, e), e.r) && Step(s, e).queue == d.queue + [e.r]
    ensures Step(s, e).sorted == {} && Get(Step(s, e), e.r).soft
  {
    var rq := Request(e.fs, e.write, e.sector, e.end, e.barrier, false, false, false);
    var s0 := Boundary(s, e.r, rq);
    FrameKeepsInv(s, s0);
    BackSame(s, e.r, rq);
    DrainKeepsInv(s0, e.choices);
    d := BackDrained(s, e, rq);
  }

  lemma BackDrained(s: State, e: Event, rq: Request) returns (d: State)
    requires e.SubmitBack? && Enabled(s, e)
    requires rq == Request(e.fs, e.write, e.sector, e.end, e.barrier, false, false, false)
    requires var s1 := Enter(s, e.r, rq);
             SameForDispatch(Boundary(s, e.r, rq), Put(s1, e.r, Get(s1, e.r).(soft := true)))
    ensures d == DrainElevator(Boundary(s, e.r, rq), e.choices) && d.sorted == {}
    ensures Grown(d, Step(s, e), e.r) && Step(s, e).queue == d.queue + [e.r]
    ensures Step(s, e).sorted == {} && Get(Step(s, e), e.r).soft
  {
    var s0, s1 := Boundary(s, e.r, rq), Enter(s, e.r, rq);
    var s2 := Put(s1, e.r, Get(s1, e.r).(soft := true));
    DrainFrame(s0, s2, e.choices);
    d := DrainElevator(s0, e.choices);
    BackGrown(s, s0, s2, d, e, rq);
  }

  lemma BackSame(s: State, r: Ref, rq: Request)
    requires r !in s.queue && r !in s.sorted
    ensures var s1 := Enter(s, r, rq);
            SameForDispatch(Boundary(s, r, rq), Put(s1, r, Get(s1, r).(soft := true)))
  {
  }

  lemma BackGrown(s: State, s0: State, s2: State, d: State, e: Event, rq: Request)
    requires e.SubmitBack? && e.r.Rq? && e.r !in s.log && (e.barrier ==> e.fs)
    requires rq == Request(e.fs, e.write, e.sector, e.end, e.barrier, false, false, false)
    requires s0 == Boundary(s, e.r, rq)
    requires s2 == Put(Enter(s, e.r, rq), e.r, Get(Enter(s, e.r, rq), e.r).(soft := true))
    requires d == WithQueues(s0, d)
    ensures var t := WithQueues(s2, d);
            Grown(d, t.(queue := t.queue + [e.r]), e.r) && Get(t, e.r).soft
  {
  }

  lemma SubmitBackKeepsInv(s: State, e: Event)
    requires Inv(s) && e.SubmitBack? && Enabled(s, e)
    ensures Inv(Step(s, e))
  {
    var d := SubmitBackGrows(s, e);
    AppendKeepsInv(d, Step(s, e), e.r);
  }

  lemma AppendKeepsInv(d: State, t: State, r: Ref)
    requires Inv(d) && d.sorted == {} && t.sorted == {}
    requires Grown(d, t, r) && t.queue == d.queue + [r] && Get(t, r).soft
    ensures Inv(t)
  {
    InsertAtInserts(d, r, |d.queue|);
    assert t.queue == InsertAt(d.queue, |d.queue|, r);
    forall x | x in d.queue && Keyed(d, x) ensures Key(d, x) <= 2 * |d.barriers| {
      QueueKeysBounded(d, x);
    }
    GrownQueueOrder(d, t, r);
    GrownKeepsInv(d, t, r);
  }

  /** Every step keeps the invariant, except a completion that ends the drain too early. */
  lemma StepKeepsInv(s: State, e: Event)
    requires Inv(s) && Enabled(s, e) && !(e.Finish? && e.r.Rq? && EndsTooEarly(Retired(s, e.r)))
    ensures Inv(Step(s, e))
  {
    match e
    case SubmitSorted(_, _, _, _) => SubmitSortedKeepsInv(s, e);
    case SubmitBack(_, _, _, _, _, _, _) => SubmitBackKeepsInv(s, e);
    case SubmitFront(_) => SubmitFrontKeepsInv(s, e);
    case DispatchOne(r, toTail) => DispatchKeepsInv(s, r, toTail);
    case FetchHead => FetchKeepsInv(s);
    case Dequeue(r) => DequeueKeepsInv(s, r);
    case Finish(r, error) => FinishKeepsInv(s, r, error);
    case RequeueOne(r) => RequeueKeepsInv(s, r);
    case SetFlush(_, _) => FrameKeepsInv(s, Step(s, e));
  }
}
