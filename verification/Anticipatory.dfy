/** The next-request cache of the anticipatory scheduler: kernel/linux/block/as-iosched.c,
    one data direction. The rb-tree is a sequence in strictly ascending sector order. */
module Anticipatory {
  import opened Collections
  import opened RequestTree

  const MAXBACK: nat := 1024 * 1024
  const BACK_PENALTY: nat := 2

  /** as_choose_req: is a request at s behind the head by more than MAXBACK? */
  predicate Wraps(last: nat, s: nat) {
    s < last && s + MAXBACK < last
  }

  function Distance(last: nat, s: nat): nat {
    if s >= last then s - last
    else if s + MAXBACK >= last then (last - s) * BACK_PENALTY
    else 0
  }

  /** as_choose_req */
  function Choose(last: nat, rq1: Option<Req>, rq2: Option<Req>): Option<Req> {
    if rq1.None? || rq1 == rq2 then rq2
    else if rq2.None? then rq1
    else
      var s1, s2 := rq1.value.sector, rq2.value.sector;
      var d1, d2 := Distance(last, s1), Distance(last, s2);
      if !Wraps(last, s1) && Wraps(last, s2) then rq1
      else if !Wraps(last, s2) && Wraps(last, s1) then rq2
      else if Wraps(last, s1) && Wraps(last, s2) then if s1 <= s2 then rq1 else rq2
      else if d1 < d2 then rq1
      else if d2 < d1 then rq2
      else if s1 >= s2 then rq1 else rq2
  }

  /** A request lies at or ahead of the head, up to 2^20 sectors behind it, or farther behind. */
  datatype Side = Ahead | Near | Far

  function SideOf(last: nat, s: nat): Side {
    if last <= s then Ahead else if last <= s + 1048576 then Near else Far
  }

  /** What the scheduler prefers, in sectors: ahead, the nearest; behind, the nearest; of one ahead
      and one behind, the one ahead unless it is more than twice as far; farther behind than 2^20
      sectors comes last, and there the lowest first. */
  predicate Better(last: nat, a: Req, b: Req) {
    match (SideOf(last, a.sector), SideOf(last, b.sector))
    case (Ahead, Ahead) => a.sector < b.sector
    case (Ahead, Near) => a.sector - last <= 2 * (last - b.sector)
    case (Near, Ahead) => 2 * (last - a.sector) < b.sector - last
    case (Near, Near) => b.sector < a.sector
    case (Far, Far) => a.sector < b.sector
    case (Far, _) => false
    case (_, Far) => true
  }

  /** as_choose_req takes the better of two requests at distinct sectors, whichever way round. */
  lemma ChooseTakesBetter(last: nat, a: Req, b: Req)
    requires a.sector != b.sector
    ensures Choose(last, Some(a), Some(b)) == if Better(last, a, b) then Some(a) else Some(b)
    ensures Choose(last, Some(b), Some(a)) == if Better(last, a, b) then Some(a) else Some(b)
    ensures Better(last, a, b) != Better(last, b, a)
  {
  }

  /** On distinct sectors the preference is a strict total order, so "best" is meaningful. */
  lemma ChooseIsStrictTotalOrder(last: nat, a: Req, b: Req, c: Req)
    requires a.sector != b.sector && b.sector != c.sector && a.sector != c.sector
    ensures Better(last, a, b) != Better(last, b, a)
    ensures Better(last, a, b) && Better(last, b, c) ==> Better(last, a, c)
    ensures Choose(last, Some(a), Some(b)) == if Better(last, a, b) then Some(a) else Some(b)
  {
    ChooseTakesBetter(last, a, b);
  }

  /** next is preferred to every other queued request. */
  predicate IsBest(last: nat, tree: seq<Req>, next: Option<Req>) {
    match next
    case None => tree == []
    case Some(n) => n in tree && forall r | r in tree && r != n :: Better(last, n, r)
  }

  /** as_find_next_rq on the request at index i: only the tree neighbours are looked at. */
  function FindNext(last: nat, tree: seq<Req>, i: nat): Option<Req>
    requires i < |tree|
  {
    var prev := if i > 0 then Some(tree[i - 1]) else None;
    var next := if i + 1 < |tree| then Some(tree[i + 1])
                else if i != 0 then Some(tree[0]) else None;
    Choose(last, next, prev)
  }

  // Looking at the neighbours finds the optimum.

  /** The head stands right behind (or at, or behind) the request at index i. */
  predicate HeadAt(last: nat, tree: seq<Req>, i: nat)
    requires i < |tree|
  {
    && (forall k | 0 <= k < i :: tree[k].sector < last)
    && (forall k | i < k < |tree| :: tree[k].sector >= last)
  }

  lemma FindNextAtHead(last: nat, tree: seq<Req>, i: nat)
    requires Sorted(tree) && i < |tree| && HeadAt(last, tree, i)
    ensures IsBest(last, RemoveAt(tree, i), FindNext(last, tree, i))
  {
    var rest := RemoveAt(tree, i);
    var best := FindNext(last, tree, i);
    forall k | 0 <= k < |tree| && k != i
      ensures best.Some? && (tree[k] == best.value || Better(last, best.value, tree[k]))
    {
    }
    Members(tree, i);
  }

  /** Of two requests far behind the head, the lower one is better. */
  lemma WrappedFirst(last: nat, tree: seq<Req>, i: nat)
    requires Sorted(tree) && i < |tree| && Wraps(last, tree[i].sector)
    ensures i == 0 || !Better(last, tree[i], tree[0])
  {
  }

  /** When the best request itself goes, the best of the rest is one of its neighbours. */
  lemma FindNextAfterBest(last: nat, tree: seq<Req>, i: nat)
    requires Sorted(tree) && i < |tree| && IsBest(last, tree, Some(tree[i]))
    ensures IsBest(last, RemoveAt(tree, i), FindNext(last, tree, i))
  {
    forall k | 0 <= k < |tree| && k != i ensures Better(last, tree[i], tree[k]) {
      assert tree[k] in tree;
    }
    if Wraps(last, tree[i].sector) {
      WrappedFirst(last, tree, i);
      Members(tree, i);
      forall k | 0 < k < |tree|
        ensures tree[k] == tree[1] || Better(last, tree[1], tree[k])
      {
      }
    } else {
      FindNextAtHead(last, tree, i);
    }
  }

  /** What the tree must look like around the request at index i for its neighbours to include
      the best request once the head stands at its end: nothing starts inside it; or what comes
      next does, near enough not to wrap, and is better than what follows; or everything wraps. */
  predicate NeighboursSuffice(end: nat, tree: seq<Req>, i: nat)
    requires i < |tree|
  {
    || i + 1 == |tree|
    || tree[i + 1].sector >= end
    || (!Wraps(end, tree[i + 1].sector) && (i + 2 == |tree| || Better(end, tree[i + 1], tree[i + 2])))
    || (Wraps(end, tree[|tree| - 1].sector) && i <= 1)
  }

  /** The index in the tree of a request of RemoveAt(tree, i) with an index of its own. */
  lemma BestByIndex(end: nat, tree: seq<Req>, i: nat, b: nat)
    requires Sorted(tree) && i < |tree| && b < |tree| && b != i
    ensures IsBest(end, RemoveAt(tree, i), Some(tree[b])) <==>
              forall k | 0 <= k < |tree| && k != i && k != b :: Better(end, tree[b], tree[k])
  {
    Members(tree, i);
    if IsBest(end, RemoveAt(tree, i), Some(tree[b])) {
      forall k | 0 <= k < |tree| && k != i && k != b ensures Better(end, tree[b], tree[k]) {
        assert tree[k] in tree;
      }
    }
  }

  /** The next request starts inside the dispatched one, not far behind the head. */
  lemma NearSuffices(end: nat, tree: seq<Req>, i: nat)
    requires Sorted(tree) && i + 1 < |tree| && tree[i + 1].sector < end && !Wraps(end, tree[i + 1].sector)
    ensures IsBest(end, RemoveAt(tree, i), FindNext(end, tree, i)) <==> NeighboursSuffice(end, tree, i)
  {
    assert FindNext(end, tree, i) == Some(tree[i + 1]);
    BestByIndex(end, tree, i, i + 1);
    hide RemoveAt, IsBest, FindNext;
    if i + 2 == |tree| || Better(end, tree[i + 1], tree[i + 2]) {
      forall k | 0 <= k < |tree| && k != i && k != i + 1 ensures Better(end, tree[i + 1], tree[k]) {
      }
    }
    assert !Wraps(end, tree[|tree| - 1].sector);
  }

  /** The next request starts inside the dispatched one, far behind the head. */
  lemma FarSuffices(end: nat, tree: seq<Req>, i: nat)
    requires Sorted(tree) && i + 1 < |tree| && Wraps(end, tree[i + 1].sector)
    ensures IsBest(end, RemoveAt(tree, i), FindNext(end, tree, i)) <==> NeighboursSuffice(end, tree, i)
  {
    var b, n := if i == 0 then 1 else i - 1, |tree| - 1;
    assert FindNext(end, tree, i) == Some(tree[b]);
    BestByIndex(end, tree, i, b);
    hide RemoveAt, IsBest, FindNext;
    if Wraps(end, tree[n].sector) && i <= 1 {
      forall k | 0 <= k < |tree| && k != i && k != b ensures Better(end, tree[b], tree[k]) {
      }
    } else if i > 1 {
      assert !Better(end, tree[b], tree[0]);
    } else {
      assert !Better(end, tree[b], tree[n]);
    }
  }

  /** The neighbours of a dispatched request include the best of the rest, if and only if the
      condition holds. */
  lemma NeighboursSufficeIff(end: nat, tree: seq<Req>, i: nat)
    requires Sorted(tree) && i < |tree| && tree[i].sector <= end
    ensures IsBest(end, RemoveAt(tree, i), FindNext(end, tree, i)) <==> NeighboursSuffice(end, tree, i)
  {
    if i + 1 == |tree| || tree[i + 1].sector >= end {
      FindNextAtHead(end, tree, i);
    } else if Wraps(end, tree[i + 1].sector) {
      FarSuffices(end, tree, i);
    } else {
      NearSuffices(end, tree, i);
    }
  }

  /** A request that starts inside the dispatched one, and one right at its end. */
  lemma OverlapBreaksTheCache()
    ensures exists tree: seq<Req>, i: nat, end: nat ::
              Sorted(tree) && i < |tree| && tree[i].sector <= end
              && !IsBest(end, RemoveAt(tree, i), FindNext(end, tree, i))
  {
    var tree := [Req(0, 0), Req(1, 5), Req(2, 10)];
    NeighboursSufficeIff(10, tree, 0);
  }

  // The scheduler.

  /** The cache points into the tree and is empty only with it. */
  predicate Cached(tree: seq<Req>, next: Option<Req>) {
    match next
    case None => tree == []
    case Some(n) => n in tree
  }

  lemma FindNextCached(last: nat, tree: seq<Req>, i: nat)
    requires Sorted(tree) && i < |tree|
    ensures Cached(RemoveAt(tree, i), FindNext(last, tree, i))
  {
    Members(tree, i);
  }

  /** Dropping a request that is not the best keeps the best. */
  lemma BestWithoutOther(last: nat, tree: seq<Req>, next: Req, r: Req)
    requires Sorted(tree) && r in tree && next in tree && next != r
    ensures next in Minus(tree, r)
    ensures IsBest(last, tree, Some(next)) ==> IsBest(last, Minus(tree, r), Some(next))
  {
    Members(tree, IndexOf(tree, r));
  }

  /** Where as_find_next_rq ends up once r is gone. */
  lemma FindNextMinus(last: nat, tree: seq<Req>, r: Req)
    requires Sorted(tree) && r in tree
    ensures Cached(Minus(tree, r), FindNext(last, tree, IndexOf(tree, r)))
    ensures IsBest(last, tree, Some(r)) ==> IsBest(last, Minus(tree, r), FindNext(last, tree, IndexOf(tree, r)))
  {
    FindNextCached(last, tree, IndexOf(tree, r));
    if IsBest(last, tree, Some(r)) { FindNextAfterBest(last, tree, IndexOf(tree, r)); }
  }

  /** The cache after as_remove_queued_request. */
  lemma CacheWithout(last: nat, tree: seq<Req>, next: Option<Req>, r: Req)
    requires Sorted(tree) && r in tree
    requires Cached(tree, next) || (next != Some(r) && Cached(Minus(tree, r), next))
    ensures var next' := if next == Some(r) then FindNext(last, tree, IndexOf(tree, r)) else next;
            && Cached(Minus(tree, r), next') && next' != Some(r)
            && (IsBest(last, tree, next) ==> IsBest(last, Minus(tree, r), next'))
  {
    FindNextMinus(last, tree, r);
    SortedNoDup(tree);
    MinusFacts(tree, r);
    if next.Some? && next.value != r && next.value in tree { BestWithoutOther(last, tree, next.value, r); }
  }

  lemma FindNextElse(last: nat, tree: seq<Req>, r: Req)
    requires Sorted(tree) && r in tree
    ensures FindNext(last, tree, IndexOf(tree, r)) != Some(r)
  {
  }

  /** The neighbours suffice when r is dispatched and the head stands at its end. */
  predicate Suffices(end: nat, tree: seq<Req>, r: Req)
    requires r in tree
  {
    NeighboursSuffice(end, tree, IndexOf(tree, r))
  }

  lemma FindNextDispatched(tree: seq<Req>, r: Req, end: nat)
    requires Sorted(tree) && r in tree && r.sector <= end
    ensures IsBest(end, Minus(tree, r), FindNext(end, tree, IndexOf(tree, r))) <==> Suffices(end, tree, r)
  {
    NeighboursSufficeIff(end, tree, IndexOf(tree, r));
  }

  // Requests that do not overlap.

  function EndOf(nr: map<nat, nat>, r: Req): nat {
    r.sector + (if r.id in nr then nr[r.id] else 0)
  }

  /** No queued request starts inside another. */
  predicate Separate(tree: seq<Req>, nr: map<nat, nat>) {
    forall x, y | x in tree && y in tree && x.sector < y.sector :: EndOf(nr, x) <= y.sector
  }

  lemma SeparateSuffices(tree: seq<Req>, nr: map<nat, nat>, r: Req)
    requires Sorted(tree) && Separate(tree, nr) && r in tree
    ensures Suffices(EndOf(nr, r), tree, r)
  {
    var i := IndexOf(tree, r);
    assert i + 1 < |tree| ==> tree[i + 1] in tree;
  }

  lemma SeparateMinus(tree: seq<Req>, nr: map<nat, nat>, r: Req)
    requires Sorted(tree) && Separate(tree, nr) && r in tree
    ensures Separate(Minus(tree, r), nr)
  {
    SortedNoDup(tree);
    MinusFacts(tree, r);
  }

  // Adding.

  /** Adding one request: the better of it and the cached one is the best of all. */
  lemma BestWithNew(last: nat, tree: seq<Req>, next: Option<Req>, i: nat, r: Req)
    requires Sorted(tree) && i <= |tree| && Cached(tree, next)
    requires forall k | 0 <= k < i :: tree[k].sector < r.sector
    requires forall k | i <= k < |tree| :: r.sector < tree[k].sector
    ensures Cached(Insert(tree, i, r), Choose(last, Some(r), next))
    ensures IsBest(last, tree, next) ==> IsBest(last, Insert(tree, i, r), Choose(last, Some(r), next))
  {
    InsertFacts(tree, i, r);
    if next.Some? && IsBest(last, tree, next) {
      var n := next.value;
      forall x | x in tree
        ensures x.sector != r.sector
        ensures x != n && Better(last, r, n) ==> Better(last, r, x)
      {
        if x.sector != n.sector && x.sector != r.sector { ChooseIsStrictTotalOrder(last, r, n, x); }
        var k :| 0 <= k < |tree| && tree[k] == x;
        var m :| 0 <= m < |tree| && tree[m] == n;
      }
      var m :| 0 <= m < |tree| && tree[m] == n;
      ChooseTakesBetter(last, r, n);
    }
  }

  lemma TreeSorted(tree: seq<Req>, fifo: seq<Req>)
    requires SameRequests(tree, fifo)
    ensures Sorted(tree) && NoDup(tree)
  {
    SortedNoDup(tree);
  }

  /** as_data for one direction. */
  class Queue {
    var tree: seq<Req>            // sort_list
    var fifo: seq<Req>            // fifo_list
    var nr: map<nat, nat>         // nr_sectors, by request id
    var next: Option<Req>         // next_rq
    var last: nat                 // last_sector
    var dispatched: seq<Req>      // what went to elv_dispatch_sort, in order
    ghost var apart: bool         // history: no queued request has ever started inside another

    ghost predicate Linked()
      reads this
    {
      SameRequests(tree, fifo) && Cached(tree, next)
    }

    ghost predicate Valid()
      reads this
    {
      Linked() && (apart ==> Separate(tree, nr) && Optimal())
    }

    /** The cached request is the best of all queued requests. */
    ghost predicate Optimal()
      reads this
    {
      IsBest(last, tree, next)
    }

    function End(r: Req): nat
      reads this
    {
      EndOf(nr, r)
    }

    /** Over every run in which no queued request starts inside another, the cache is optimal. */
    lemma ApartRunsAreOptimal()
      requires Valid() && apart
      ensures forall r | r in tree && Some(r) != next :: next.Some? && Better(last, next.value, r)
    {
    }

    constructor ()
      ensures Valid() && apart && Optimal() && tree == [] && fifo == [] && dispatched == []
    {
      tree, fifo, nr, next, last, dispatched, apart := [], [], map[], None, 0, [], true;
    }

    /** as_remove_queued_request; in as_move_to_dispatch the cache has already moved on. */
    method RemoveQueued(r: Req)
      requires SameRequests(tree, fifo) && r in tree
      requires Cached(tree, next) || (next != Some(r) && Cached(Minus(tree, r), next))
      modifies this`tree, this`fifo, this`next
      ensures Linked()
      ensures tree == Minus(old(tree), r) && r in old(fifo) && fifo == Minus(old(fifo), r)
      ensures next != Some(r) && (old(next) != Some(r) ==> next == old(next))
      ensures old(Optimal()) ==> Optimal()
    {
      hide Minus, FindNext, SameRequests, IsBest, Cached, IndexOf;
      TreeSorted(tree, fifo);
      MinusSame(tree, fifo, r);
      CacheWithout(last, tree, next, r);
      if next == Some(r) {
        next := FindNext(last, tree, IndexOf(tree, r));
      }
      fifo := Minus(fifo, r);
      tree := Minus(tree, r);
    }

    /** as_move_to_dispatch */
    method MoveToDispatch(r: Req)
      requires Valid() && r in tree
      modifies this`tree, this`fifo, this`next, this`last, this`dispatched
      ensures Valid()
      ensures tree == Minus(old(tree), r) && r in old(fifo) && fifo == Minus(old(fifo), r)
      ensures dispatched == old(dispatched) + [r]
      ensures last == r.sector + if r.id in nr then nr[r.id] else 0
      ensures Optimal() <==> old(Suffices(End(r), tree, r))
    {
      hide Minus, FindNext, SameRequests, IsBest, Cached, Suffices, Separate, IndexOf;
      last := End(r);
      TreeSorted(tree, fifo);
      FindNextMinus(last, tree, r);
      FindNextElse(last, tree, r);
      FindNextDispatched(tree, r, last);
      if apart { SeparateSuffices(tree, nr, r); SeparateMinus(tree, nr, r); }
      next := FindNext(last, tree, IndexOf(tree, r));
      RemoveQueued(r);
      dispatched := dispatched + [r];
    }

    /** as_add_request: an alias of the new request is dispatched first; one is enough, since
        no two queued requests share a sector. */
    method Add(r: Req, len: nat)
      requires Valid() && forall x | x in tree :: x.id != r.id
      modifies this
      ensures Valid() && r in tree
      ensures forall x :: x in tree <==> x == r || (x in old(tree) && x.sector != r.sector)
      ensures forall x :: x in dispatched <==> x in old(dispatched) || (x in old(tree) && x.sector == r.sector)
      ensures apart == (old(apart) && Separate(tree, nr)) && nr == old(nr)[r.id := len]
      ensures (forall a | a in old(tree) :: a.sector != r.sector) && old(Optimal()) ==> Optimal()
      ensures (exists a | a in old(tree) && a.sector == r.sector :: old(Suffices(End(a), tree, a))) ==> Optimal()
    {
      hide Minus, Insert, SameRequests, IsBest, Cached, Suffices, Separate, NoDup;
      TreeSorted(tree, fifo);
      var i, alias := Descend(tree, r.sector);
      if alias.Some? {
        MinusFacts(tree, alias.value);
        OneAlias(tree, alias.value);
        MoveToDispatch(alias.value);
        TreeSorted(tree, fifo);
        i, alias := Descend(tree, r.sector);
        if alias.Some? {
          assert false;
        }
      }
      nr := nr[r.id := len];
      InsertFacts(tree, i, r);
      InsertSame(tree, fifo, i, r);
      BestWithNew(last, tree, next, i, r);
      tree := Insert(tree, i, r);
      fifo := fifo + [r];
      next := Choose(last, Some(r), next);
      apart := apart && Separate(tree, nr);
    }

    /** A back merge into r: only its length changes. */
    method BackMerged(r: Req, extra: nat)
      requires Valid() && r in tree && r.id in nr
      modifies this`nr, this`apart
      ensures Valid() && nr == old(nr)[r.id := old(nr)[r.id] + extra]
      ensures apart == (old(apart) && Separate(tree, nr)) && (old(Optimal()) ==> Optimal())
    {
      nr := nr[r.id := nr[r.id] + extra];
      apart := apart && Separate(tree, nr);
    }

    /** The forced part of as_dispatch_request for one direction: everything goes. */
    method DumpAll() returns (n: nat)
      requires Valid()
      modifies this
      ensures Valid() && tree == [] && fifo == [] && n == |old(tree)|
      ensures |dispatched| == |old(dispatched)| + n
      ensures forall x :: x in dispatched <==> x in old(dispatched) || x in old(tree)
    {
      n := 0;
      while next.Some?
        invariant Valid() && n + |tree| == |old(tree)|
        invariant |dispatched| == |old(dispatched)| + n
        invariant forall x :: x in dispatched || x in tree <==> x in old(dispatched) || x in old(tree)
        decreases |tree|
      {
        SortedNoDup(tree);
        MinusFacts(tree, next.value);
        MoveToDispatch(next.value);
        n := n + 1;
      }
      HeadIn(fifo);
    }
  }

  /** The forced part of as_dispatch_request: both directions, synchronous first. */
  method ForcedDispatch(sync: Queue, async: Queue) returns (dispatched: nat)
    requires sync != async && sync.Valid() && async.Valid()
    modifies sync, async
    ensures sync.Valid() && async.Valid()
    ensures sync.tree == [] && sync.fifo == [] && async.tree == [] && async.fifo == []
    ensures dispatched == |old(sync.tree)| + |old(async.tree)|
    ensures forall x :: x in sync.dispatched <==> x in old(sync.dispatched) || x in old(sync.tree)
    ensures forall x :: x in async.dispatched <==> x in old(async.dispatched) || x in old(async.tree)
    ensures |sync.dispatched| + |async.dispatched| == |old(sync.dispatched)| + |old(async.dispatched)| + dispatched
  {
    var a := sync.DumpAll();
    var b := async.DumpAll();
    dispatched := a + b;
  }
}
