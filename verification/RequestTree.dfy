/** What the I/O schedulers share: requests in a sector-sorted tree and in a FIFO. The rb-tree of
    kernel/linux/block/elevator.c is a sequence in strictly ascending sector order. */
module RequestTree {
  import opened Collections

  /** A queued request; its length is kept apart, since back merges change it in place. */
  datatype Req = Req(id: nat, sector: nat)

  /** n is what follows r in sector order: the lowest request above it, or none if there is none. */
  ghost predicate Follows(tree: seq<Req>, r: Req, n: Option<Req>) {
    match n
    case Some(x) => x in tree && r.sector < x.sector && forall y | y in tree && r.sector < y.sector :: x.sector <= y.sector
    case None => forall y | y in tree :: y.sector <= r.sector
  }

  /** Likewise for what precedes r. */
  ghost predicate Precedes(tree: seq<Req>, r: Req, p: Option<Req>) {
    match p
    case Some(x) => x in tree && x.sector < r.sector && forall y | y in tree && y.sector < r.sector :: y.sector <= x.sector
    case None => forall y | y in tree :: r.sector <= y.sector
  }

  lemma HeadIn(q: seq<Req>)
    ensures q == [] || q[0] in q
  {
  }

  predicate Sorted(tree: seq<Req>) {
    forall i, j | 0 <= i < j < |tree| :: tree[i].sector < tree[j].sector
  }

  lemma SortedNoDup(tree: seq<Req>)
    requires Sorted(tree)
    ensures NoDup(tree)
  {
  }

  lemma Members(tree: seq<Req>, i: nat)
    requires Sorted(tree) && i < |tree|
    ensures forall r :: r in RemoveAt(tree, i) <==> r in tree && r != tree[i]
    ensures Sorted(RemoveAt(tree, i))
  {
    SortedNoDup(tree);
    RemovedNoDup(tree, i);
    WithoutSorted(tree, i);
    hide Sorted, NoDup, RemoveAt;
    forall r ensures r in RemoveAt(tree, i) <==> r in tree && r != tree[i] {
      RemovedMembers(tree, i, r);
    }
  }

  lemma WithoutSorted(tree: seq<Req>, i: nat)
    requires Sorted(tree) && i < |tree|
    ensures Sorted(RemoveAt(tree, i))
  {
  }

  /** Tree and FIFO hold the same requests. */
  predicate SameRequests(tree: seq<Req>, fifo: seq<Req>) {
    && Sorted(tree) && NoDup(fifo)
    && (forall r | r in tree :: r in fifo)
    && (forall r | r in fifo :: r in tree)
  }

  lemma MinusSame(tree: seq<Req>, fifo: seq<Req>, r: Req)
    requires SameRequests(tree, fifo) && r in tree
    ensures r in fifo && SameRequests(Minus(tree, r), Minus(fifo, r))
  {
    SortedNoDup(tree);
    MinusFacts(tree, r);
    MinusFacts(fifo, r);
    Members(tree, IndexOf(tree, r));
  }

  function Insert(tree: seq<Req>, i: nat, r: Req): seq<Req>
    requires i <= |tree|
  {
    tree[..i] + [r] + tree[i..]
  }

  /** Where a request belongs: everything before i is at a lower sector, the rest at a higher. */
  predicate Place(tree: seq<Req>, i: nat, r: Req) {
    && i <= |tree|
    && (forall k | 0 <= k < i :: tree[k].sector < r.sector)
    && (forall k | i <= k < |tree| :: r.sector < tree[k].sector)
  }

  lemma PlaceSectors(tree: seq<Req>, i: nat, r: Req)
    requires Place(tree, i, r)
    ensures forall x | x in tree :: x.sector != r.sector
  {
  }

  lemma InsertFacts(tree: seq<Req>, i: nat, r: Req)
    requires Sorted(tree) && i <= |tree|
    requires forall k | 0 <= k < i :: tree[k].sector < r.sector
    requires forall k | i <= k < |tree| :: r.sector < tree[k].sector
    ensures Sorted(Insert(tree, i, r)) && r !in tree
    ensures forall x :: x in Insert(tree, i, r) <==> x in tree || x == r
  {
    var t := Insert(tree, i, r);
    assert forall k | 0 <= k < |tree| :: tree[k] == t[if k < i then k else k + 1];
    assert t[i] == r;
  }

  lemma InsertSame(tree: seq<Req>, fifo: seq<Req>, i: nat, r: Req)
    requires SameRequests(tree, fifo) && i <= |tree|
    requires forall k | 0 <= k < i :: tree[k].sector < r.sector
    requires forall k | i <= k < |tree| :: r.sector < tree[k].sector
    ensures SameRequests(Insert(tree, i, r), fifo + [r])
  {
    InsertFacts(tree, i, r);
  }

  lemma OneAlias(tree: seq<Req>, a: Req)
    requires Sorted(tree) && a in tree
    ensures forall x | x in tree && x.sector == a.sector :: x == a
  {
  }

  /** The descent of elv_rb_add: the place of a sector, or the request that has it. */
  method Descend(tree: seq<Req>, sector: nat) returns (i: nat, alias: Option<Req>)
    requires Sorted(tree)
    ensures alias.Some? ==> alias.value in tree && alias.value.sector == sector
    ensures alias.None? ==> && i <= |tree|
                            && (forall k | 0 <= k < i :: tree[k].sector < sector)
                            && (forall k | i <= k < |tree| :: sector < tree[k].sector)
  {
    i, alias := 0, None;
    var hi := |tree|;
    while i < hi
      invariant 0 <= i <= hi <= |tree| && alias.None?
      invariant forall k | 0 <= k < i :: tree[k].sector < sector
      invariant forall k | hi <= k < |tree| :: sector < tree[k].sector
    {
      var mid := (i + hi) / 2;
      if sector < tree[mid].sector {
        hi := mid;
      } else if sector > tree[mid].sector {
        i := mid + 1;
      } else {
        alias := Some(tree[mid]);
        return;
      }
    }
  }

  /** Tree and FIFO hold the same requests, but for one that is on the FIFO
      and, for the moment, not in the tree. */
  predicate Agree(tree: seq<Req>, fifo: seq<Req>, pending: Option<Req>) {
    && Sorted(tree) && NoDup(fifo)
    && (forall r | r in tree :: r in fifo && Some(r) != pending)
    && (forall r | r in fifo :: r in tree || Some(r) == pending)
  }

  lemma AgreeMinus(tree: seq<Req>, fifo: seq<Req>, pending: Option<Req>, r: Req)
    requires Agree(tree, fifo, pending) && r in tree
    ensures r in fifo && Agree(Minus(tree, r), Minus(fifo, r), pending)
    ensures |Minus(fifo, r)| == |fifo| - 1 && |Minus(tree, r)| == |tree| - 1
    ensures forall x :: x in Minus(tree, r) <==> x in tree && x != r
    ensures forall x :: x in Minus(fifo, r) <==> x in fifo && x != r
  {
    SortedNoDup(tree);
    MinusFacts(tree, r);
    MinusFacts(fifo, r);
    Members(tree, IndexOf(tree, r));
    hide Minus, Sorted, NoDup;
  }

  /** q with r renamed; the request keeps its place. */
  function Renamed(q: seq<Req>, r: Req, s: Req): seq<Req>
    requires r in q
  {
    q[IndexOf(q, r) := s]
  }

  lemma RenamedFacts(q: seq<Req>, r: Req, s: Req)
    requires NoDup(q) && r in q && s !in q
    ensures NoDup(Renamed(q, r, s))
    ensures forall x :: x in Renamed(q, r, s) <==> x == s || (x in q && x != r)
  {
    var i, t := IndexOf(q, r), Renamed(q, r, s);
    forall x ensures x in t <==> x == s || (x in q && x != r) {
      if x in q && x != r {
        var k :| 0 <= k < |q| && q[k] == x;
        assert t[k] == x;
      }
      if x in t && x != s {
        var k :| 0 <= k < |t| && t[k] == x;
        assert q[k] == x;
      }
      assert t[i] == s;
    }
  }

  /** list_move of r to just behind n */
  function MovedBehind(q: seq<Req>, r: Req, n: Req): seq<Req>
    requires r in q && n in Minus(q, r)
  {
    var p := Minus(q, r);
    Insert(p, IndexOf(p, n) + 1, r)
  }

  lemma InsertNoDup(q: seq<Req>, i: nat, r: Req)
    requires NoDup(q) && r !in q && i <= |q|
    ensures NoDup(Insert(q, i, r))
    ensures forall x :: x in Insert(q, i, r) <==> x in q || x == r
  {
    var t := Insert(q, i, r);
    assert forall k | 0 <= k < |q| :: q[k] == t[if k < i then k else k + 1];
    assert t[i] == r;
  }

  lemma MovedFacts(q: seq<Req>, r: Req, n: Req)
    requires NoDup(q) && r in q && n in q && r != n
    ensures n in Minus(q, r) && NoDup(MovedBehind(q, r, n))
    ensures forall x :: x in MovedBehind(q, r, n) <==> x in q
  {
    hide Minus, NoDup, Insert;
    MinusFacts(q, r);
    InsertNoDup(Minus(q, r), IndexOf(Minus(q, r), n) + 1, r);
  }
}
