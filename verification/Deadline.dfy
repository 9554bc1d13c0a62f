/** The deadline scheduler: kernel/linux/block/deadline-iosched.c. Both data directions, with
    their sector trees, FIFOs, next-request pointers and the counters that ration writes. */
module Deadline {
  import opened Collections
  import opened RequestTree
  import opened DeadlineRation

  const READ: nat := 0
  const WRITE: nat := 1

  /** rb_next */
  function RbNext(tree: seq<Req>, r: Req): (n: Option<Req>)
    requires r in tree
    ensures n.Some? ==> n.value in tree
    ensures Sorted(tree) ==> Follows(tree, r, n)
  {
    var i := IndexOf(tree, r);
    if i + 1 < |tree| then Some(tree[i + 1]) else None
  }

  /** Every request of the FIFO has its deadline, no later than bound, and they stand in the
      order of their deadlines. */
  predicate InOrder(fifo: seq<Req>, expires: map<nat, int>, bound: int) {
    && (forall i | 0 <= i < |fifo| :: fifo[i].id in expires && expires[fifo[i].id] <= bound)
    && (forall i, j | 0 <= i < j < |fifo| :: expires[fifo[i].id] <= expires[fifo[j].id])
  }

  lemma InOrderWithout(fifo: seq<Req>, expires: map<nat, int>, bound: int, i: nat)
    requires InOrder(fifo, expires, bound) && i < |fifo|
    ensures InOrder(RemoveAt(fifo, i), expires, bound)
  {
    var rest := RemoveAt(fifo, i);
    assert forall k | 0 <= k < |rest| :: rest[k] == fifo[if k < i then k else k + 1];
  }

  lemma InOrderAppend(fifo: seq<Req>, expires: map<nat, int>, bound: int, r: Req, t: int)
    requires InOrder(fifo, expires, bound) && bound <= t && forall x | x in fifo :: x.id != r.id
    ensures InOrder(fifo + [r], expires[r.id := t], t)
  {
    forall i | 0 <= i < |fifo| ensures fifo[i].id != r.id {
      assert fifo[i] in fifo;
    }
  }

  /** The head of a FIFO in order has expired iff any request on it has. */
  lemma HeadCheckIsExact(fifo: seq<Req>, expires: map<nat, int>, bound: int, now: int)
    requires InOrder(fifo, expires, bound) && fifo != []
    ensures now > expires[fifo[0].id] <==> exists i | 0 <= i < |fifo| :: now > expires[fifo[i].id]
    ensures forall i | 0 <= i < |fifo| :: expires[fifo[0].id] <= expires[fifo[i].id]
  {
    assert now > expires[fifo[0].id] ==> exists i | 0 <= i < |fifo| :: now > expires[fifo[i].id];
  }

  /** No two requests share an id. */
  predicate UniqueIds(q: seq<Req>) {
    forall x, y | x in q && y in q && x.id == y.id :: x == y
  }

  predicate OtherIds(q: seq<Req>, p: seq<Req>) {
    forall x, y | x in q && y in p :: x.id != y.id
  }

  // The two directions together.

  /** Trees and FIFOs agree; at most one direction has a next request, and it is queued. Only
      direction d may have a request pending between FIFO and tree. */
  predicate Views(sort: seq<seq<Req>>, fifo: seq<seq<Req>>, next: seq<Option<Req>>, d: nat, pending: Option<Req>) {
    && |sort| == 2 && |fifo| == 2 && |next| == 2 && d < 2
    && Agree(sort[d], fifo[d], pending) && Agree(sort[1 - d], fifo[1 - d], None)
    && (next[READ].None? || next[WRITE].None?)
    && (next[d].Some? ==> next[d].value in sort[d] || next[d] == pending)
    && (next[1 - d].Some? ==> next[1 - d].value in sort[1 - d])
  }

  /** The FIFOs stand in deadline order, given that no deadline is later than the clock plus
      the direction's expiry setting. */
  predicate Timed(fifo: seq<seq<Req>>, expires: map<nat, int>, expire: seq<nat>, clock: int) {
    && |fifo| == 2 && |expire| == 2
    && InOrder(fifo[READ], expires, clock + expire[READ]) && InOrder(fifo[WRITE], expires, clock + expire[WRITE])
    && UniqueIds(fifo[READ]) && UniqueIds(fifo[WRITE]) && OtherIds(fifo[READ], fifo[WRITE])
  }

  lemma ViewsMinus(sort: seq<seq<Req>>, fifo: seq<seq<Req>>, next: seq<Option<Req>>, d: nat, pending: Option<Req>,
                   r: Req)
    requires Views(sort, fifo, next, d, pending) && r in sort[d]
    ensures r in fifo[d] && pending != Some(r)
    ensures var n := if next[d] == Some(r) then next[d := RbNext(sort[d], r)] else next;
            Views(sort[d := Minus(sort[d], r)], fifo[d := Minus(fifo[d], r)], n, d, pending)
  {
    AgreeMinus(sort[d], fifo[d], pending, r);
    hide Minus, RbNext, Agree;
  }

  lemma ViewsRestarted(sort: seq<seq<Req>>, fifo: seq<seq<Req>>, next: seq<Option<Req>>, d: nat,
                       pending: Option<Req>, r: Req)
    requires Views(sort, fifo, next, d, pending) && r in sort[d]
    ensures RbNext(sort[d], r) != Some(r) && Follows(sort[d], r, RbNext(sort[d], r))
    ensures Views(sort, fifo, [None, None][d := RbNext(sort[d], r)], d, pending)
  {
  }

  lemma TimedMinus(fifo: seq<seq<Req>>, expires: map<nat, int>, expire: seq<nat>, clock: int, d: nat, r: Req)
    requires Timed(fifo, expires, expire, clock) && d < 2 && r in fifo[d] && NoDup(fifo[d])
    ensures Timed(fifo[d := Minus(fifo[d], r)], expires, expire, clock)
  {
    hide InOrder, NoDup;
    InOrderWithout(fifo[d], expires, clock + expire[d], IndexOf(fifo[d], r));
    MinusFacts(fifo[d], r);
  }

  lemma ViewsAdd(sort: seq<seq<Req>>, fifo: seq<seq<Req>>, next: seq<Option<Req>>, d: nat, i: nat, r: Req)
    requires Views(sort, fifo, next, d, None) && Place(sort[d], i, r) && r !in fifo[d]
    ensures Views(sort[d := Insert(sort[d], i, r)], fifo[d := fifo[d] + [r]], next, d, None)
  {
    InsertFacts(sort[d], i, r);
    assert NoDup(fifo[d] + [r]);
    hide Insert, Sorted, NoDup;
  }

  lemma EmptyViews(sort: seq<seq<Req>>, fifo: seq<seq<Req>>, next: seq<Option<Req>>)
    requires Views(sort, fifo, next, READ, None) && fifo[READ] == [] && fifo[WRITE] == []
    ensures fifo == [[], []] && sort == [[], []]
  {
    HeadIn(sort[READ]);
    HeadIn(sort[WRITE]);
  }

  lemma NextIsQueued(sort: seq<seq<Req>>, fifo: seq<seq<Req>>, next: seq<Option<Req>>)
    requires Views(sort, fifo, next, READ, None)
    ensures |sort| == |fifo| == |next| == 2 && (next[READ].None? || next[WRITE].None?)
    ensures forall d: nat | d < 2 && next[d].Some? :: next[d].value in sort[d] && fifo[d] != []
  {
  }

  /** With nothing pending, the directions are alike. */
  lemma ViewsAny(sort: seq<seq<Req>>, fifo: seq<seq<Req>>, next: seq<Option<Req>>, d: nat, e: nat)
    requires Views(sort, fifo, next, d, None) && e < 2
    ensures Views(sort, fifo, next, e, None) && NoDup(fifo[e])
  {
    hide Sorted, NoDup;
  }

  /** The FIFO once a request at the same sector has left and r has joined. */
  lemma AddedMembers(was: seq<Req>, fifo: seq<Req>, tree: seq<Req>, alias: Option<Req>, i: nat, r: Req)
    requires NoDup(was) && Agree(tree, fifo, None) && Place(tree, i, r)
    requires match alias
             case None => fifo == was
             case Some(a) => a in was && a.sector == r.sector && fifo == Minus(was, a)
    ensures r !in fifo && forall x :: x in fifo + [r] <==> x == r || (x in was && x.sector != r.sector)
    ensures forall x | x in fifo :: x in was
    ensures forall x :: alias == Some(x) <==> x in was && x.sector == r.sector
  {
    hide Minus, Sorted, NoDup;
    if alias.Some? { MinusFacts(was, alias.value); }
    PlaceSectors(tree, i, r);
    hide Place;
  }

  lemma KeptMembers(wasTree: seq<Req>, was: seq<Req>, fifo: seq<Req>, tree: seq<Req>, alias: Option<Req>, i: nat,
                    r: Req)
    requires Agree(wasTree, was, Some(r)) && r in was && Agree(tree, fifo, Some(r)) && Place(tree, i, r)
    requires match alias
             case None => fifo == was
             case Some(a) => a in wasTree && a in was && a.sector == r.sector && fifo == Minus(was, a)
    ensures forall x :: x in fifo <==> x == r || (x in was && x.sector != r.sector)
    ensures forall x :: alias == Some(x) <==> x in was && x != r && x.sector == r.sector
  {
    hide Minus, Sorted, NoDup;
    if alias.Some? { MinusFacts(was, alias.value); }
    PlaceSectors(tree, i, r);
    hide Place;
  }

  /** A renamed request is not queued yet. */
  lemma IsNew(sort: seq<seq<Req>>, fifo: seq<seq<Req>>, next: seq<Option<Req>>, expires: map<nat, int>,
              expire: seq<nat>, clock: int, d: nat, r: Req, s: Req)
    requires Views(sort, fifo, next, d, None) && Timed(fifo, expires, expire, clock)
    requires r in sort[d] && s.id == r.id && s != r
    ensures s !in fifo[d]
  {
    hide Sorted, NoDup, InOrder, OtherIds;
  }

  lemma TimedAdd(fifo: seq<seq<Req>>, expires: map<nat, int>, expire: seq<nat>, clock: int, now: int, d: nat, r: Req)
    requires Timed(fifo, expires, expire, clock) && clock <= now && d < 2
    requires forall x | x in fifo[READ] || x in fifo[WRITE] :: x.id != r.id
    ensures Timed(fifo[d := fifo[d] + [r]], expires[r.id := now + expire[d]], expire, now)
  {
    hide InOrder, UniqueIds, OtherIds;
    InOrderAppend(fifo[d], expires, clock + expire[d], r, now + expire[d]);
    InOrderElse(fifo[1 - d], expires, clock + expire[1 - d], now + expire[1 - d], r.id, now + expire[d]);
    IdsAppend(fifo[d], fifo[1 - d], r);
  }

  lemma IdsAppend(q: seq<Req>, p: seq<Req>, r: Req)
    requires UniqueIds(q) && (OtherIds(q, p) || OtherIds(p, q))
    requires (forall x | x in q :: x.id != r.id) && (forall x | x in p :: x.id != r.id)
    ensures UniqueIds(q + [r]) && OtherIds(q + [r], p) && OtherIds(p, q + [r])
  {
  }

  lemma InOrderElse(fifo: seq<Req>, expires: map<nat, int>, bound: int, later: int, id: nat, t: int)
    requires InOrder(fifo, expires, bound) && bound <= later && forall x | x in fifo :: x.id != id
    ensures InOrder(fifo, expires[id := t], later)
  {
    forall i | 0 <= i < |fifo| ensures fifo[i].id != id {
      assert fifo[i] in fifo;
    }
  }

  // Merges.

  /** A request taken out of the tree and renamed everywhere else. */
  lemma ViewsRenamed(sort: seq<seq<Req>>, fifo: seq<seq<Req>>, next: seq<Option<Req>>, d: nat, r: Req, s: Req)
    requires Views(sort, fifo, next, d, None) && r in sort[d] && s !in fifo[d]
    ensures r in fifo[d] && NoDup(fifo[d])
    ensures var n := if next[d] == Some(r) then next[d := Some(s)] else next;
            Views(sort[d := Minus(sort[d], r)], fifo[d := Renamed(fifo[d], r, s)], n, d, Some(s))
  {
    hide Renamed, NoDup;
    AgreeMinus(sort[d], fifo[d], None, r);
    RenamedFacts(fifo[d], r, s);
    hide Minus, Sorted;
  }

  lemma TimedRenamed(fifo: seq<seq<Req>>, expires: map<nat, int>, expire: seq<nat>, clock: int, d: nat, r: Req, s: Req)
    requires Timed(fifo, expires, expire, clock) && d < 2 && r in fifo[d] && NoDup(fifo[d])
    requires s !in fifo[d] && s.id == r.id
    ensures Timed(fifo[d := Renamed(fifo[d], r, s)], expires, expire, clock)
  {
    hide NoDup, UniqueIds, OtherIds, InOrder;
    InOrderRenamed(fifo[d], expires, clock + expire[d], IndexOf(fifo[d], r), s);
    IdsRenamed(fifo[d], fifo[1 - d], r, s);
  }

  lemma InOrderRenamed(fifo: seq<Req>, expires: map<nat, int>, bound: int, i: nat, s: Req)
    requires InOrder(fifo, expires, bound) && i < |fifo| && s.id == fifo[i].id
    ensures InOrder(fifo[i := s], expires, bound)
  {
  }

  lemma IdsRenamed(q: seq<Req>, p: seq<Req>, r: Req, s: Req)
    requires UniqueIds(q) && (OtherIds(q, p) || OtherIds(p, q)) && r in q && s.id == r.id && s !in q && NoDup(q)
    ensures UniqueIds(Renamed(q, r, s)) && OtherIds(Renamed(q, r, s), p) && OtherIds(p, Renamed(q, r, s))
  {
    hide Renamed, NoDup;
    RenamedFacts(q, r, s);
  }

  /** A pending request gets into the tree. */
  lemma ViewsInsert(sort: seq<seq<Req>>, fifo: seq<seq<Req>>, next: seq<Option<Req>>, d: nat, i: nat, r: Req)
    requires Views(sort, fifo, next, d, Some(r)) && Place(sort[d], i, r) && r in fifo[d]
    ensures Views(sort[d := Insert(sort[d], i, r)], fifo, next, d, None) && r in Insert(sort[d], i, r)
  {
    InsertFacts(sort[d], i, r);
    hide Insert, Sorted, NoDup;
  }

  lemma InOrderBehind(q: seq<Req>, expires: map<nat, int>, bound: int, i: nat, r: Req)
    requires InOrder(q, expires, bound) && i < |q| && r.id in expires && expires[r.id] == expires[q[i].id]
    ensures InOrder(Insert(q, i + 1, r), expires, bound)
  {
    var t := Insert(q, i + 1, r);
    assert forall k | 0 <= k < |t| :: t[k] == if k <= i then q[k] else if k == i + 1 then r else q[k - 1];
  }

  /** r inherits the earlier deadline of n and stands behind it: still in order. */
  lemma InOrderMoved(q: seq<Req>, expires: map<nat, int>, bound: int, r: Req, n: Req)
    requires InOrder(q, expires, bound) && NoDup(q) && UniqueIds(q) && r in q && n in q && r != n
    ensures n in Minus(q, r) && n.id in expires
    ensures InOrder(MovedBehind(q, r, n), expires[r.id := expires[n.id]], bound)
  {
    hide InOrder, NoDup, Insert, UniqueIds, RemoveAt;
    MinusFacts(q, r);
    var p := Minus(q, r);
    InOrderWithout(q, expires, bound, IndexOf(q, r));
    hide Minus;
    IdsBut(q, p, r);
    MemberTimed(q, expires, bound, n);
    InOrderElse(p, expires, bound, bound, r.id, expires[n.id]);
    InOrderBehind(p, expires[r.id := expires[n.id]], bound, IndexOf(p, n), r);
  }

  lemma IdsBut(q: seq<Req>, p: seq<Req>, r: Req)
    requires UniqueIds(q) && r in q && forall x | x in p :: x in q && x != r
    ensures forall x | x in p :: x.id != r.id
  {
  }

  lemma MemberTimed(q: seq<Req>, expires: map<nat, int>, bound: int, n: Req)
    requires InOrder(q, expires, bound) && n in q
    ensures n.id in expires
  {
  }

  lemma TimedMoved(fifo: seq<seq<Req>>, expires: map<nat, int>, expire: seq<nat>, clock: int, d: nat, r: Req, n: Req)
    requires Timed(fifo, expires, expire, clock) && d < 2 && NoDup(fifo[d]) && r in fifo[d] && n in fifo[d] && r != n
    ensures n in Minus(fifo[d], r) && n.id in expires
    ensures Timed(fifo[d := MovedBehind(fifo[d], r, n)], expires[r.id := expires[n.id]], expire, clock)
  {
    hide InOrder, NoDup, MovedBehind, Minus;
    InOrderMoved(fifo[d], expires, clock + expire[d], r, n);
    MovedFacts(fifo[d], r, n);
    InOrderElse(fifo[1 - d], expires, clock + expire[1 - d], clock + expire[1 - d], r.id, expires[n.id]);
  }

  /** The head of the FIFO has the earliest deadline, the first of the tree the lowest sector. */
  lemma FindFacts(sort: seq<seq<Req>>, fifo: seq<seq<Req>>, next: seq<Option<Req>>, expires: map<nat, int>,
                  expire: seq<nat>, clock: int, d: nat)
    requires Views(sort, fifo, next, READ, None) && Timed(fifo, expires, expire, clock) && d < 2 && fifo[d] != []
    ensures fifo[d][0] in sort[d] && sort[d] != [] && sort[d][0] in sort[d]
    ensures forall x | x in fifo[d] :: x.id in expires && expires[fifo[d][0].id] <= expires[x.id]
    ensures forall x | x in sort[d] :: sort[d][0].sector <= x.sector
  {
    hide UniqueIds, OtherIds;
    assert fifo[d][0] in fifo[d];
    HeadCheckIsExact(fifo[d], expires, clock + expire[d], clock);
  }

  ghost predicate Expired(fifo: seq<Req>, expires: map<nat, int>, now: int) {
    exists x | x in fifo :: x.id in expires && now > expires[x.id]
  }

  /** The right request of a direction to start with: if any has expired, one with the earliest
      deadline; otherwise the next in sector order, or the lowest. */
  ghost predicate Best(tree: seq<Req>, fifo: seq<Req>, next: Option<Req>, expires: map<nat, int>, now: int, r: Req) {
    if Expired(fifo, expires, now) then
      r.id in expires && forall x | x in fifo :: x.id in expires && expires[r.id] <= expires[x.id]
    else
      match next
      case Some(n) => r == n
      case None => forall x | x in tree :: r.sector <= x.sector
  }

  lemma ExpiredMember(fifo: seq<Req>, expires: map<nat, int>, now: int)
    requires forall i | 0 <= i < |fifo| :: fifo[i].id in expires
    ensures Expired(fifo, expires, now) <==>
            exists i | 0 <= i < |fifo| :: now > expires[fifo[i].id]
  {
    if i :| 0 <= i < |fifo| && now > expires[fifo[i].id] {
      assert fifo[i] in fifo;
    }
  }

  lemma TimedLater(fifo: seq<seq<Req>>, expires: map<nat, int>, expire: seq<nat>, clock: int, now: int)
    requires Timed(fifo, expires, expire, clock) && clock <= now
    ensures Timed(fifo, expires, expire, now)
  {
    hide UniqueIds, OtherIds;
  }

  lemma ViewsMoved(sort: seq<seq<Req>>, fifo: seq<seq<Req>>, next: seq<Option<Req>>, d: nat, r: Req, n: Req)
    requires Views(sort, fifo, next, d, None) && r in sort[d] && n in sort[d] && r != n
    ensures r in fifo[d] && n in fifo[d] && NoDup(fifo[d]) && n in Minus(fifo[d], r)
    ensures Views(sort, fifo[d := MovedBehind(fifo[d], r, n)], next, d, None)
  {
    hide NoDup, MovedBehind, Minus, Sorted;
    MovedFacts(fifo[d], r, n);
  }

  /** The pick says which direction has a next request, and whether it starts where the last ended. */
  predicate Describes(p: Pick, next: seq<Option<Req>>, last: nat)
    requires |next| == 2
  {
    match p.next
    case NoNext => next[READ].None? && next[WRITE].None?
    case NextRead => next[WRITE].None? && next[READ].Some? && (p.sequential <==> next[READ].value.sector == last)
    case NextWrite => next[WRITE].Some? && (p.sequential <==> next[WRITE].value.sector == last)
  }

  /** struct deadline_data; the settings stay fixed. writesStarved is the setting read as an
      unsigned int, as the comparison with starved reads it. */
  class DeadlineData {
    const expire: seq<nat>
    const fifoBatch: nat
    const writesStarved: nat
    var sort: seq<seq<Req>>
    var fifo: seq<seq<Req>>
    var next: seq<Option<Req>>
    var batching: nat
    var last: nat
    var starved: nat
    var nr: map<nat, nat>             // nr_sectors, by request id
    var expires: map<nat, int>        // fifo time, by request id
    var dispatched: seq<Req>          // what went to elv_dispatch_add_tail, in order
    ghost var clock: int              // the time of the latest call
    ghost var passed: nat             // reads picked since a write was picked, or none was queued

    /** All but the rationing, with one request of direction d perhaps pending. */
    ghost predicate Consistent(d: nat, pending: Option<Req>)
      reads this
    {
      Views(sort, fifo, next, d, pending) && Timed(fifo, expires, expire, clock)
    }

    ghost function Counts(): Counters
      reads this`starved, this`batching, this`passed
    {
      Counters(starved, batching, passed)
    }

    /** Deadline's promise to writes: of the dispatches since a write was last picked, or since
        no write was queued, at most (writes_starved + 1) * fifo_batch picked a read. The settings
        that break it are those of DeadlineRation.BoundHoldsIff. */
    lemma WriteStarvationBound()
      requires Valid() && Fair(writesStarved, fifoBatch)
      ensures passed <= Bound(writesStarved, fifoBatch)
    {
      RationBounds(Counts(), writesStarved, fifoBatch);
    }

    ghost predicate Valid()
      reads this
    {
      Consistent(READ, None) && Ration(Counts(), writesStarved, fifoBatch)
    }

    function End(r: Req): nat
      reads this`nr
    {
      r.sector + (if r.id in nr then nr[r.id] else 0)
    }

    /** deadline_init_queue */
    constructor (expire: seq<nat>, fifoBatch: nat, writesStarved: nat, now: int)
      requires |expire| == 2 && fifoBatch <= INT_MAX && writesStarved <= UINT_MAX
      ensures Valid() && fifo == [[], []] && dispatched == [] && passed == 0
    {
      this.expire, this.fifoBatch, this.writesStarved := expire, fifoBatch, writesStarved;
      sort, fifo, next := [[], []], [[], []], [None, None];
      batching, last, starved := 0, 0, 0;
      nr, expires, dispatched := map[], map[], [];
      clock, passed := now, 0;
      new;
      FreshRation(Counts(), writesStarved, fifoBatch);
    }

    /** deadline_del_rq_rb */
    method DelRqRb(d: nat, r: Req)
      requires d < 2 && |sort| == 2 && |next| == 2 && r in sort[d]
      modifies this`sort, this`next
      ensures sort == old(sort)[d := Minus(old(sort)[d], r)]
      ensures next == if old(next)[d] == Some(r) then old(next)[d := RbNext(old(sort)[d], r)] else old(next)
    {
      if next[d] == Some(r) {
        next := next[d := RbNext(sort[d], r)];
      }
      sort := sort[d := Minus(sort[d], r)];
    }

    /** deadline_remove_request */
    method RemoveRequest(d: nat, r: Req, ghost pending: Option<Req>)
      requires Consistent(d, pending) && r in sort[d]
      modifies this`sort, this`fifo, this`next
      ensures Consistent(d, pending)
      ensures sort == old(sort)[d := Minus(old(sort)[d], r)]
      ensures r in old(fifo)[d] && fifo == old(fifo)[d := Minus(old(fifo)[d], r)]
      ensures |next| == 2 && next[1 - d] == old(next)[1 - d]
      ensures if old(next)[d] == Some(r) then Follows(old(sort)[d], r, next[d]) else next[d] == old(next)[d]
    {
      hide Timed, Minus, RbNext, Follows, Sorted;
      ViewsMinus(sort, fifo, next, d, pending, r);
      TimedMinus(fifo, expires, expire, clock, d, r);
      hide NoDup;
      fifo := fifo[d := Minus(fifo[d], r)];
      DelRqRb(d, r);
    }

    /** deadline_move_request */
    method MoveRequest(d: nat, r: Req, ghost pending: Option<Req>)
      requires Consistent(d, pending) && r in sort[d]
      modifies this`sort, this`fifo, this`next, this`last, this`dispatched
      ensures Consistent(d, pending)
      ensures sort == old(sort)[d := Minus(old(sort)[d], r)]
      ensures r in old(fifo)[d] && fifo == old(fifo)[d := Minus(old(fifo)[d], r)]
      ensures |next| == 2 && next[1 - d].None? && Follows(old(sort)[d], r, next[d])
      ensures last == r.sector + (if r.id in nr then nr[r.id] else 0) && dispatched == old(dispatched) + [r]
    {
      hide Agree, Timed, Minus, RbNext, Follows;
      ViewsRestarted(sort, fifo, next, d, pending, r);
      var n := RbNext(sort[d], r);
      next := [None, None];
      next := next[d := n];
      last := End(r);
      RemoveRequest(d, r, pending);
      dispatched := dispatched + [r];
    }

    /** deadline_add_rq_rb: a request at the same sector is dispatched first. One is enough:
        no two requests in the tree share a sector. */
    method AddRqRb(d: nat, r: Req, ghost pending: Option<Req>)
      returns (ghost i: nat, ghost alias: Option<Req>, ghost tree: seq<seq<Req>>)
      requires Consistent(d, pending)
      modifies this`sort, this`fifo, this`next, this`last, this`dispatched
      ensures Views(tree, fifo, next, d, pending) && Timed(fifo, expires, expire, clock)
      ensures Place(tree[d], i, r) && sort == tree[d := Insert(tree[d], i, r)]
      ensures match alias
              case None =>
                && tree == old(sort) && fifo == old(fifo) && next == old(next) && dispatched == old(dispatched)
              case Some(a) =>
                && a in old(sort)[d] && a.sector == r.sector
                && tree == old(sort)[d := Minus(old(sort)[d], a)]
                && a in old(fifo)[d] && fifo == old(fifo)[d := Minus(old(fifo)[d], a)]
                && next[1 - d].None? && Follows(old(sort)[d], a, next[d])
                && dispatched == old(dispatched) + [a]
    {
      hide RbNext, Minus, Insert, Timed, Follows;
      alias := None;
      var at, same := Descend(sort[d], r.sector);
      while same.Some?
        invariant Consistent(d, pending)
        invariant same.Some? ==> alias.None? && same.value in sort[d] && same.value.sector == r.sector
        invariant same.None? ==> Place(sort[d], at, r)
        invariant match alias
                  case None =>
                    && sort == old(sort) && fifo == old(fifo) && next == old(next) && dispatched == old(dispatched)
                  case Some(a) =>
                    && a in old(sort)[d] && a.sector == r.sector
                    && sort == old(sort)[d := Minus(old(sort)[d], a)]
                    && a in old(fifo)[d] && fifo == old(fifo)[d := Minus(old(fifo)[d], a)]
                    && next[1 - d].None? && Follows(old(sort)[d], a, next[d])
                    && dispatched == old(dispatched) + [a]
        decreases alias.None?
      {
        alias := same;
        SortedNoDup(sort[d]);
        MinusFacts(sort[d], same.value);
        OneAlias(sort[d], same.value);
        MoveRequest(d, same.value, pending);
        at, same := Descend(sort[d], r.sector);
      }
      tree, i := sort, at;
      sort := sort[d := Insert(sort[d], at, r)];
    }

    /** deadline_add_request */
    method AddRequest(d: nat, r: Req, len: nat, now: int)
      requires Valid() && d < 2 && clock <= now
      requires forall x | x in fifo[READ] || x in fifo[WRITE] :: x.id != r.id
      modifies this
      ensures Valid() && fifo[1 - d] == old(fifo)[1 - d]
      ensures r in fifo[d] && expires == old(expires)[r.id := now + expire[d]] && nr == old(nr)[r.id := len]
      ensures (forall a | a in old(fifo)[d] :: a.sector != r.sector) ==> next == old(next)
      ensures forall a | a in old(fifo)[d] && a.sector == r.sector ::
                next[1 - d].None? && Follows(old(sort)[d], a, next[d])
      ensures forall x :: x in fifo[d] <==> x == r || (x in old(fifo)[d] && x.sector != r.sector)
      ensures forall x :: x in dispatched <==> x in old(dispatched) || (x in old(fifo)[d] && x.sector == r.sector)
    {
      hide Agree, InOrder, UniqueIds, OtherIds, Insert, Minus, RbNext, Follows, Sorted, NoDup, Place;
      assert |expire| == 2;
      ViewsAny(sort, fifo, next, READ, d);
      ghost var f := fifo[d];
      ghost var i, alias, tree := AddRqRb(d, r, None);
      AddedMembers(f, fifo[d], tree[d], alias, i, r);
      ViewsAdd(tree, fifo, next, d, i, r);
      TimedAdd(fifo, expires, expire, clock, now, d, r);
      nr := nr[r.id := len];
      expires := expires[r.id := now + expire[d]];
      fifo := fifo[d := fifo[d] + [r]];
      clock := now;
      ViewsAny(sort, fifo, next, d, READ);
    }

    /** deadline_merged_request after a front merge of n sectors into r, which now starts n
        sectors earlier. */
    method FrontMerged(d: nat, r: Req, n: nat) returns (s: Req)
      requires Valid() && d < 2 && r in sort[d] && 0 < n <= r.sector
      modifies this`sort, this`fifo, this`next, this`last, this`dispatched, this`nr
      ensures Valid() && fifo[1 - d] == old(fifo)[1 - d]
      ensures s == Req(r.id, r.sector - n) && s in sort[d]
      ensures forall x :: x in fifo[d] <==> x == s || (x in old(fifo)[d] && x != r && x.sector != s.sector)
      ensures forall x :: x in dispatched <==>
                x in old(dispatched) || (x in old(fifo)[d] && x != r && x.sector == s.sector)
      ensures nr == old(nr)[r.id := old(if r.id in nr then nr[r.id] else 0) + n]
    {
      hide Agree, InOrder, UniqueIds, OtherIds, Insert, Minus, RbNext, Follows, Sorted, NoDup, Place, Renamed;
      s := Req(r.id, r.sector - n);
      ViewsAny(sort, fifo, next, READ, d);
      IsNew(sort, fifo, next, expires, expire, clock, d, r, s);
      ViewsRenamed(sort, fifo, next, d, r, s);
      TimedRenamed(fifo, expires, expire, clock, d, r, s);
      RenamedFacts(fifo[d], r, s);
      nr := nr[r.id := (if r.id in nr then nr[r.id] else 0) + n];
      if next[d] == Some(r) {
        next := next[d := Some(s)];
      }
      fifo := fifo[d := Renamed(fifo[d], r, s)];
      sort := sort[d := Minus(sort[d], r)];
      ghost var t, f := sort[d], fifo[d];
      ghost var i, alias, tree := AddRqRb(d, s, Some(s));
      KeptMembers(t, f, fifo[d], tree[d], alias, i, s);
      ViewsInsert(tree, fifo, next, d, i, s);
      ViewsAny(sort, fifo, next, d, READ);
    }

    /** deadline_merged_requests: n is merged into r, which takes over the earlier deadline. */
    method MergedRequests(d: nat, r: Req, n: Req)
      requires Valid() && d < 2 && r in sort[d] && n in sort[d] && r != n
      modifies this`sort, this`fifo, this`next, this`expires, this`nr
      ensures Valid() && fifo[1 - d] == old(fifo)[1 - d] && sort == old(sort)[d := Minus(old(sort)[d], n)]
      ensures forall x :: x in fifo[d] <==> x in old(fifo)[d] && x != n
      ensures r.id in old(expires) && n.id in old(expires)
      ensures expires == if old(expires[n.id] < expires[r.id]) then old(expires)[r.id := old(expires)[n.id]] else old(expires)
      ensures nr == old(nr)[r.id := old((if r.id in nr then nr[r.id] else 0) + (if n.id in nr then nr[n.id] else 0))]
      ensures if old(next)[d] == Some(n) then Follows(old(sort)[d], n, next[d]) else next == old(next)
    {
      hide Agree, InOrder, UniqueIds, OtherIds, Minus, RbNext, Sorted, NoDup, MovedBehind;
      ViewsAny(sort, fifo, next, READ, d);
      ViewsMoved(sort, fifo, next, d, r, n);
      TimedMoved(fifo, expires, expire, clock, d, r, n);
      MovedFacts(fifo[d], r, n);
      MemberTimed(fifo[d], expires, clock + expire[d], r);
      ghost var f := fifo[d];
      nr := nr[r.id := (if r.id in nr then nr[r.id] else 0) + (if n.id in nr then nr[n.id] else 0)];
      if expires[n.id] < expires[r.id] {
        fifo := fifo[d := MovedBehind(fifo[d], r, n)];
        expires := expires[r.id := expires[n.id]];
      }
      ghost var g := fifo[d];
      ViewsAny(sort, fifo, next, d, d);
      RemoveRequest(d, n, None);
      MinusFacts(g, n);
      ViewsAny(sort, fifo, next, d, READ);
    }

    /** deadline_check_fifo */
    function CheckFifo(d: nat, now: int): (expired: bool)
      requires Consistent(READ, None) && d < 2 && fifo[d] != []
      reads this
      ensures expired <==> exists i | 0 <= i < |fifo[d]| :: now > expires[fifo[d][i].id]
    {
      HeadCheckIsExact(fifo[d], expires, clock + expire[d], now);
      now > expires[fifo[d][0].id]
    }

    /** The first part of deadline_dispatch_requests: a batch goes on while it is sequential and
        not used up. */
    method ContinueBatch() returns (d: nat, rq: Option<Req>, ghost sequential: bool)
      requires |next| == 2 && batching <= UINT_MAX && fifoBatch <= INT_MAX
      modifies this`batching
      ensures d == if next[WRITE].Some? then WRITE else READ
      ensures sequential <==> next[d].Some? && next[d].value.sector == last
      ensures batching == if next[d].None? || sequential then old(batching) else Wrap(old(batching) + fifoBatch)
      ensures rq == if batching < fifoBatch then next[d] else None
    {
      d := if next[WRITE].Some? then WRITE else READ;
      rq := next[d];
      sequential := rq.Some? && rq.value.sector == last;
      if rq.Some? {
        if last != rq.value.sector {
          batching := Wrap(batching + fifoBatch);
        }
        if batching >= fifoBatch {
          rq := None;
        }
      }
    }

    /** Reads go first, but writes that were passed over too often go now. */
    method ChooseDirection(haveReads: bool, haveWrites: bool) returns (d: nat)
      requires (haveReads || haveWrites) && starved <= writesStarved
      modifies this`starved
      ensures d == if haveReads && (!haveWrites || old(starved) < writesStarved) then READ else WRITE
      ensures starved == if d == WRITE then 0 else if haveWrites then old(starved) + 1 else old(starved)
    {
      d := READ;
      if haveReads {
        if haveWrites {
          starved := starved + 1;
          if starved > writesStarved {
            starved, d := 0, WRITE;
          }
        }
      } else {
        starved, d := 0, WRITE;
      }
    }

    /** dispatch_find_request: an expired request first, then the next in sort order, else the
        lowest. */
    method FindRequest(d: nat, now: int) returns (r: Req, ghost restart: bool)
      requires Consistent(READ, None) && d < 2 && fifo[d] != []
      modifies this`batching
      ensures r in sort[d]
      ensures batching == (if restart then 0 else old(batching))
      ensures restart <==> Expired(fifo[d], expires, now) || next[d].None?
      ensures Best(sort[d], fifo[d], next[d], expires, now, r)
    {
      hide Agree, InOrder, UniqueIds, OtherIds;
      FindFacts(sort, fifo, next, expires, expire, clock, d);
      ExpiredMember(fifo[d], expires, now);
      restart := CheckFifo(d, now) || next[d].None?;
      if CheckFifo(d, now) {
        batching := 0;
        r := fifo[d][0];
      } else if next[d].Some? {
        r := next[d].value;
      } else {
        batching := 0;
        r := sort[d][0];
      }
    }

    /** The choice that deadline_dispatch_requests makes: what it does to the counters is a step of
        DeadlineRation. */
    method Select(now: int) returns (n: nat, d: nat, rq: Option<Req>, ghost p: Pick)
      requires Valid()
      modifies this`batching, this`starved, this`passed
      ensures n == if fifo[READ] == [] && fifo[WRITE] == [] then 0 else 1
      ensures n == 0 ==> Counts() == old(Counts())
      ensures n == 1 ==> && d < 2 && rq.Some? && rq.value in sort[d]
                         && Finds(p, old(Counts()), d, rq.value, now)
                         && Counts() == Picked(old(Counts()), p, writesStarved, fifoBatch)
    {
      hide Views, Timed, Ration, Wrap, Best, Expired;
      NextIsQueued(sort, fifo, next);
      RationRange(Counts(), writesStarved, fifoBatch);
      ghost var sequential;
      var haveReads, haveWrites := fifo[READ] != [], fifo[WRITE] != [];
      d, rq, sequential := ContinueBatch();
      p := Pick(haveReads, haveWrites,
                if next[WRITE].Some? then NextWrite else if next[READ].Some? then NextRead else NoNext,
                sequential, false);
      if rq.None? {
        if !haveReads && !haveWrites {
          n := 0;
          return;
        }
        d := ChooseDirection(haveReads, haveWrites);
        ghost var restart;
        var r;
        r, restart := FindRequest(d, now);
        rq, p := Some(r), p.(restart := restart);
      }
      n := 1;
      batching := Wrap(batching + 1);
      passed := if d == WRITE || !haveWrites then 0 else passed + 1;
    }

    /** The pick p describes the queues, and r of direction d is what it leads to: the next request
        while the batch lasts, else, reads before writes that were not passed over too often, the
        best one to start with. */
    ghost predicate Finds(p: Pick, c: Counters, d: nat, r: Req, now: int)
      requires |fifo| == 2 && |sort| == 2 && |next| == 2 && d < 2
      reads this`fifo, this`sort, this`next, this`expires, this`last
    {
      && Possible(c, p, writesStarved, fifoBatch)
      && p.haveReads == (fifo[READ] != []) && p.haveWrites == (fifo[WRITE] != [])
      && Describes(p, next, last)
      && d == (if PicksRead(c, p, writesStarved, fifoBatch) then READ else WRITE)
      && if Batches(c, p, fifoBatch) then next[d] == Some(r)
         else && Best(sort[d], fifo[d], next[d], expires, now, r)
              && (p.restart <==> Expired(fifo[d], expires, now) || next[d].None?)
    }

    /** deadline_dispatch_requests: one request is dispatched if any is queued. */
    method Dispatch(now: int) returns (n: nat, ghost d: nat, ghost r: Req, ghost p: Pick)
      requires Valid() && clock <= now
      modifies this
      ensures Valid() && clock == now
      ensures n == if old(fifo)[READ] == [] && old(fifo)[WRITE] == [] then 0 else 1
      ensures n == 0 ==> fifo == old(fifo) && sort == old(sort) && dispatched == old(dispatched)
                         && Counts() == old(Counts())
      ensures n == 1 ==> && d < 2 && r in old(sort)[d] && r in old(fifo)[d]
                         && sort == old(sort)[d := Minus(old(sort)[d], r)]
                         && fifo == old(fifo)[d := Minus(old(fifo)[d], r)]
                         && dispatched == old(dispatched) + [r]
                         && old(Finds(p, Counts(), d, r, now))
                         && next[1 - d].None? && Follows(old(sort)[d], r, next[d])
                         && last == r.sector + (if r.id in nr then nr[r.id] else 0) && nr == old(nr)
                         && Counts() == Picked(old(Counts()), p, writesStarved, fifoBatch)
    {
      hide Agree, Timed, Minus, RbNext, Follows, Ration, Best;
      TimedLater(fifo, expires, expire, clock, now);
      clock := now;
      var dir, rq;
      n, dir, rq, p := Select(now);
      d, r := dir, Req(0, 0);
      if n == 1 {
        r := rq.value;
        PickKeepsRation(old(Counts()), p, writesStarved, fifoBatch);
        ViewsAny(sort, fifo, next, READ, dir);
        MoveRequest(dir, rq.value, None);
        ViewsAny(sort, fifo, next, dir, READ);
      }
    }

    /** elv_drain_elevator: dispatch until nothing is left, whatever time passes in between. */
    method Drain(start: int, tick: nat -> nat) returns (n: nat)
      requires Valid() && clock <= start
      modifies this
      ensures Valid() && fifo == [[], []] && sort == [[], []]
      ensures n == |old(fifo)[READ]| + |old(fifo)[WRITE]| && |dispatched| == |old(dispatched)| + n
      ensures forall x :: x in dispatched <==>
                x in old(dispatched) || x in old(fifo)[READ] || x in old(fifo)[WRITE]
    {
      hide Agree, Timed, Minus, RbNext, Follows, Ration;
      n := 0;
      var more, now := 1, start;
      while more == 1
        invariant Valid() && clock <= now && |fifo| == 2
        invariant n + |fifo[READ]| + |fifo[WRITE]| == |old(fifo)[READ]| + |old(fifo)[WRITE]|
        invariant |dispatched| == |old(dispatched)| + n
        invariant forall x :: x in dispatched || x in fifo[READ] || x in fifo[WRITE] <==>
                    x in old(dispatched) || x in old(fifo)[READ] || x in old(fifo)[WRITE]
        invariant more != 1 ==> fifo[READ] == [] && fifo[WRITE] == []
        decreases |fifo[READ]| + |fifo[WRITE]|, more
      {
        ghost var f := fifo;
        ViewsAny(sort, fifo, next, READ, READ);
        ViewsAny(sort, fifo, next, READ, WRITE);
        ghost var d, r, p;
        more, d, r, p := Dispatch(now);
        if more == 1 {
          n := n + 1;
          MinusFacts(f[d], r);
        }
        now := now + tick(n);
      }
      EmptyViews(sort, fifo, next);
    }
  }
}
