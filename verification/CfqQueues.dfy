/** The queues of CFQ and their bookkeeping: kernel/linux/block/cfq-iosched.c. */
module CfqQueues {
  import opened Collections
  import opened RequestTree
  import opened CfqRotation

  /** struct cfq_queue; queued counts the asynchronous and the synchronous requests. */
  datatype Cfqq = Cfqq(tree: seq<Req>, fifo: seq<Req>, queued: seq<nat>, next: Option<Req>, onRr: bool)

  /** The settings and request flags that cfq_choose_req looks at */
  datatype Taste = Taste(sync: nat -> bool, meta: nat -> bool, backMax: nat, backPenalty: nat)

  function Kind(t: Taste, r: Req): (b: nat)
    ensures b < 2
  {
    if t.sync(r.id) then 1 else 0
  }

  function Distance(t: Taste, last: nat, s: nat): nat {
    if s >= last then s - last
    else if s + t.backMax * 2 >= last then (last - s) * t.backPenalty
    else 0
  }

  predicate Wraps(t: Taste, last: nat, s: nat) {
    s < last && s + t.backMax * 2 < last
  }

  /** cfq_choose_req: one of the two, and none only of none */
  function Choose(t: Taste, last: nat, a: Option<Req>, b: Option<Req>): (c: Option<Req>)
    ensures (c == a || c == b) && (c.None? ==> a.None? && b.None?)
  {
    if a.None? || a == b then b
    else if b.None? then a
    else if t.sync(a.value.id) != t.sync(b.value.id) then if t.sync(a.value.id) then a else b
    else if t.meta(a.value.id) != t.meta(b.value.id) then if t.meta(a.value.id) then a else b
    else
      var s1, s2 := a.value.sector, b.value.sector;
      var d1, d2 := Distance(t, last, s1), Distance(t, last, s2);
      match (Wraps(t, last, s1), Wraps(t, last, s2))
      case (false, false) => if d1 < d2 then a else if d2 < d1 then b else if s1 >= s2 then a else b
      case (false, true) => a
      case (true, false) => b
      case (true, true) => if s1 <= s2 then a else b
  }

  /** What CFQ prefers, in sectors: synchronous requests, then metadata; then ahead of the head the
      nearest, behind it the nearest; of one ahead and one behind, the one ahead unless it is farther
      than the penalty times the way back; what is too far behind comes last, the lowest first. */
  predicate Preferred(t: Taste, last: nat, a: Req, b: Req) {
    if t.sync(a.id) != t.sync(b.id) then t.sync(a.id)
    else if t.meta(a.id) != t.meta(b.id) then t.meta(a.id)
    else if a.sector + 2 * t.backMax < last then b.sector + 2 * t.backMax < last && a.sector < b.sector
    else if b.sector + 2 * t.backMax < last then true
    else if last <= a.sector && last <= b.sector then a.sector < b.sector
    else if a.sector < last && b.sector < last then b.sector < a.sector
    else if last <= a.sector then a.sector - last <= (last - b.sector) * t.backPenalty
    else (last - a.sector) * t.backPenalty < b.sector - last
  }

  /** cfq_choose_req takes the preferred one of two requests, whichever way round. */
  lemma ChooseTakesPreferred(t: Taste, last: nat, a: Req, b: Req)
    requires a.sector != b.sector
    ensures Choose(t, last, Some(a), Some(b)) == if Preferred(t, last, a, b) then Some(a) else Some(b)
    ensures Choose(t, last, Some(b), Some(a)) == if Preferred(t, last, a, b) then Some(a) else Some(b)
  {
    if a.sector < b.sector < last {
      NearerBehind(last, t.backPenalty, a.sector, b.sector);
    } else if b.sector < a.sector < last {
      NearerBehind(last, t.backPenalty, b.sector, a.sector);
    }
  }

  lemma NearerBehind(last: nat, penalty: nat, a: nat, b: nat)
    requires a < b < last
    ensures (last - b) * penalty <= (last - a) * penalty
  {
    assert (last - a) * penalty == (last - b) * penalty + (b - a) * penalty;
  }

  /** cfq_find_next_rq: a neighbour in the tree, or the first one */
  function FindNext(t: Taste, last: nat, tree: seq<Req>, r: Req): (n: Option<Req>)
    requires r in tree
  {
    var i := IndexOf(tree, r);
    var next := if i + 1 < |tree| then Some(tree[i + 1]) else if i > 0 then Some(tree[0]) else None;
    var prev := if i > 0 then Some(tree[i - 1]) else None;
    Choose(t, last, next, prev)
  }

  lemma FindNextOther(t: Taste, last: nat, tree: seq<Req>, r: Req)
    requires Sorted(tree) && r in tree
    ensures match FindNext(t, last, tree, r)
            case None => Minus(tree, r) == []
            case Some(n) => n in tree && n != r
  {
  }

  /** What follows r in sector order, or the lowest of all if nothing does. */
  ghost predicate FollowsRound(tree: seq<Req>, r: Req, n: Option<Req>) {
    if Follows(tree, r, None) then
      match n
      case Some(x) => x != r && x in tree && forall y | y in tree :: x.sector <= y.sector
      case None => forall y | y in tree :: y == r
    else Follows(tree, r, n)
  }

  /** The successor is the preferred one of the two neighbours in sector order. */
  lemma FindNextIsNeighbour(t: Taste, last: nat, tree: seq<Req>, r: Req, next: Option<Req>, prev: Option<Req>)
    requires Sorted(tree) && r in tree && FollowsRound(tree, r, next) && Precedes(tree, r, prev)
    ensures FindNext(t, last, tree, r) ==
              if next.None? || prev.None? || next == prev then (if next.Some? then next else prev)
              else if Preferred(t, last, next.value, prev.value) then next else prev
  {
    hide Preferred, Choose;
    var i := IndexOf(tree, r);
    assert Follows(tree, r, None) <==> i + 1 == |tree|;
    assert prev == if i > 0 then Some(tree[i - 1]) else None;
    assert next == if i + 1 < |tree| then Some(tree[i + 1]) else if i > 0 then Some(tree[0]) else None;
    ChooseOne(t, last, next, prev);
    if next.Some? && prev.Some? && next != prev { ChooseTakesPreferred(t, last, next.value, prev.value); }
  }

  lemma ChooseOne(t: Taste, last: nat, a: Option<Req>, b: Option<Req>)
    ensures a.None? || a == b ==> Choose(t, last, a, b) == b
    ensures b.None? ==> Choose(t, last, a, b) == a
  {
  }

  // How many of a kind.

  /** Requests that are synchronous (b == 1) or not (b == 0). */
  function Count(t: Taste, q: seq<Req>, b: nat): nat {
    if q == [] then 0 else (if t.sync(q[0].id) == (b == 1) then 1 else 0) + Count(t, q[1..], b)
  }

  lemma {:induction false} CountSplit(t: Taste, p: seq<Req>, q: seq<Req>, b: nat)
    ensures Count(t, p + q, b) == Count(t, p, b) + Count(t, q, b)
    decreases |p|
  {
    if p == [] {
      assert p + q == q;
    } else {
      CountSplit(t, p[1..], q, b);
      assert (p + q)[1..] == p[1..] + q;
    }
  }

  lemma CountOne(t: Taste, r: Req, b: nat)
    requires b < 2
    ensures Count(t, [r], b) == if Kind(t, r) == b then 1 else 0
  {
    assert [r][1..] == [];
  }

  lemma CountInsert(t: Taste, q: seq<Req>, i: nat, r: Req, b: nat)
    requires i <= |q| && b < 2
    ensures Count(t, Insert(q, i, r), b) == Count(t, q, b) + if Kind(t, r) == b then 1 else 0
  {
    CountOne(t, r, b);
    CountSplit(t, q[..i], [r], b);
    CountSplit(t, q[..i] + [r], q[i..], b);
    CountSplit(t, q[..i], q[i..], b);
    assert q[..i] + q[i..] == q;
  }

  lemma CountMinus(t: Taste, q: seq<Req>, r: Req, b: nat)
    requires r in q && b < 2
    ensures Count(t, q, b) == Count(t, Minus(q, r), b) + if Kind(t, r) == b then 1 else 0
  {
    var i := IndexOf(q, r);
    var rest := RemoveAt(q, i);
    assert rest[..i] == q[..i] && rest[i..] == q[i + 1..];
    assert Insert(rest, i, r) == q;
    CountInsert(t, rest, i, r, b);
  }

  /** The two counters together are the size of the tree. */
  lemma {:induction false} CountBoth(t: Taste, q: seq<Req>)
    ensures Count(t, q, 0) + Count(t, q, 1) == |q|
  {
    if q != [] { CountBoth(t, q[1..]); }
  }

  // One queue.

  function Add1(queued: seq<nat>, b: nat): seq<nat>
    requires |queued| == 2 && b < 2
  {
    queued[b := queued[b] + 1]
  }

  function Sub1(queued: seq<nat>, b: nat): seq<nat>
    requires |queued| == 2 && b < 2 && queued[b] > 0
  {
    queued[b := queued[b] - 1]
  }

  /** The queue's views agree, given that one request may be counted but not yet in the tree. */
  ghost predicate Sound(t: Taste, q: Cfqq, pending: Option<Req>) {
    && Agree(q.tree, q.fifo, pending)
    && |q.queued| == 2
    && (forall b | 0 <= b < 2 ::
          q.queued[b] == Count(t, q.tree, b) + if pending.Some? && Kind(t, pending.value) == b then 1 else 0)
    && match q.next
       case None => q.tree == []
       case Some(n) => n in q.tree || q.next == pending
  }

  lemma SoundMinus(t: Taste, last: nat, q: Cfqq, pending: Option<Req>, r: Req)
    requires Sound(t, q, pending) && r in q.tree
    ensures |q.queued| == 2 && r in q.fifo && q.queued[Kind(t, r)] > 0
    ensures var next := if q.next == Some(r) then FindNext(t, last, q.tree, r) else q.next;
            Sound(t, q.(tree := Minus(q.tree, r), fifo := Minus(q.fifo, r), queued := Sub1(q.queued, Kind(t, r)), next := next),
                  pending)
  {
    hide Count, Minus, FindNext, Kind;
    AgreeMinus(q.tree, q.fifo, pending, r);
    FindNextOther(t, last, q.tree, r);
    CountMinus(t, q.tree, r, 0);
    CountMinus(t, q.tree, r, 1);
    hide Sorted, NoDup, Agree;
    HeadIn(q.tree);
  }

  /** The pending request gets into the tree, and stays or becomes the next one if it is chosen. */
  lemma SoundInsert(t: Taste, last: nat, q: Cfqq, r: Req, i: nat)
    requires Sound(t, q, Some(r)) && Place(q.tree, i, r)
    ensures var q' := q.(tree := Insert(q.tree, i, r), next := Choose(t, last, q.next, Some(r)));
            && q'.tree != [] && r in q'.tree && q'.next.Some?
            && (r in q.fifo ==> Sound(t, q', None))
            && (r !in q.fifo ==> Sound(t, q'.(fifo := q.fifo + [r]), None))
  {
    hide Count, Kind, Choose;
    InsertFacts(q.tree, i, r);
    CountInsert(t, q.tree, i, r, 0);
    CountInsert(t, q.tree, i, r, 1);
    if r !in q.fifo { AppendNoDup(q.fifo, r); }
    hide Sorted, NoDup, Insert;
  }

  lemma AppendNoDup(q: seq<Req>, r: Req)
    requires NoDup(q) && r !in q
    ensures NoDup(q + [r])
  {
  }

  /** A request that is taken out of the tree to be put back under another sector. */
  lemma SoundRenamed(t: Taste, q: Cfqq, r: Req, s: Req)
    requires Sound(t, q, None) && r in q.tree && s !in q.fifo && Kind(t, s) == Kind(t, r)
    ensures r in q.fifo && s in Renamed(q.fifo, r, s)
    ensures Sound(t, q.(tree := Minus(q.tree, r), fifo := Renamed(q.fifo, r, s),
                        next := if q.next == Some(r) then Some(s) else q.next), Some(s))
  {
    hide Count, Minus, Kind, Renamed;
    AgreeMinus(q.tree, q.fifo, None, r);
    CountMinus(t, q.tree, r, 0);
    CountMinus(t, q.tree, r, 1);
    RenamedFacts(q.fifo, r, s);
    hide Sorted, NoDup;
  }

  // The service lists.

  const LISTS: nat := 11    // the eight levels of rr_list, and then
  const BUSY: nat := 8      // busy_rr
  const CUR: nat := 9       // cur_rr
  const IDLE: nat := 10     // idle_rr

  lemma {:induction false} DropOnce(q: seq<nat>, k: nat)
    requires NoDup(q)
    ensures NoDup(Drop(q, k))
  {
    if q != [] {
      DropOnce(q[1..], k);
      var t := Drop(q[1..], k);
      assert q[0] !in t;
      assert NoDup([q[0]] + t);
    }
  }

  /** list_del */
  function Unlink(lists: seq<seq<nat>>, k: nat): (r: seq<seq<nat>>)
    ensures |r| == |lists| && forall l | 0 <= l < |r| :: r[l] == Drop(lists[l], k)
  {
    seq(|lists|, l requires 0 <= l < |lists| => Drop(lists[l], k))
  }

  function Link(lists: seq<seq<nat>>, l: nat, at: nat, k: nat): seq<seq<nat>>
    requires l < |lists| && at <= |lists[l]|
  {
    lists[l := lists[l][..at] + [k] + lists[l][at..]]
  }

  /** slot says on which one list a queue is. */
  ghost predicate Places(lists: seq<seq<nat>>, slot: map<nat, nat>) {
    && |lists| == LISTS
    && (forall k | k in slot :: slot[k] < LISTS && k in lists[slot[k]])
    && (forall l, k | 0 <= l < LISTS && k in lists[l] :: k in slot && slot[k] == l)
    && (forall l | 0 <= l < LISTS :: NoDup(lists[l]))
  }

  /** A queue is on one service list iff it is marked; busy counts them. */
  ghost predicate Service(queues: map<nat, Cfqq>, lists: seq<seq<nat>>, slot: map<nat, nat>, busy: nat) {
    && Places(lists, slot) && busy == |slot|
    && (forall k :: k in slot <==> k in queues && queues[k].onRr)
  }

  lemma ServiceKept(queues: map<nat, Cfqq>, lists: seq<seq<nat>>, slot: map<nat, nat>, busy: nat, k: nat, q: Cfqq)
    requires Service(queues, lists, slot, busy) && k in queues && q.onRr == queues[k].onRr
    ensures Service(queues[k := q], lists, slot, busy)
  {
    hide Places;
  }

  lemma PlacesUnlink(lists: seq<seq<nat>>, slot: map<nat, nat>, k: nat)
    requires Places(lists, slot) && k in slot
    ensures Places(Unlink(lists, k), slot - {k})
  {
    hide NoDup, Drop, Unlink;
    forall l | 0 <= l < LISTS ensures NoDup(Unlink(lists, k)[l]) {
      DropOnce(lists[l], k);
    }
    var t := Unlink(lists, k);
    forall j | j in slot - {k} ensures j in t[slot[j]] {
      assert j in lists[slot[j]];
    }
    forall l, j | 0 <= l < LISTS && j in t[l] ensures j in slot - {k} && slot[j] == l {
      assert j in lists[l];
    }
  }

  lemma PlacesLink(lists: seq<seq<nat>>, slot: map<nat, nat>, k: nat, l: nat, at: nat)
    requires Places(lists, slot) && k !in slot && l < LISTS && at <= |lists[l]|
    ensures Places(Link(lists, l, at, k), slot[k := l])
  {
    hide NoDup;
    LinkFacts(lists[l], at, k);
    var t := Link(lists, l, at, k);
    forall m, j | 0 <= m < LISTS && j in t[m] ensures j in slot[k := l] && slot[k := l][j] == m {
      assert j in lists[m] || (m == l && j == k);
    }
  }

  lemma ServiceUnlink(queues: map<nat, Cfqq>, lists: seq<seq<nat>>, slot: map<nat, nat>, busy: nat, k: nat)
    requires Service(queues, lists, slot, busy) && k in queues && queues[k].onRr
    ensures busy > 0
    ensures Service(queues[k := queues[k].(onRr := false)], Unlink(lists, k), slot - {k}, busy - 1)
  {
    hide Places, Unlink;
    PlacesUnlink(lists, slot, k);
    RemovedSize(slot, k);
  }

  lemma RemovedSize(m: map<nat, nat>, k: nat)
    requires k in m
    ensures |m - {k}| == |m| - 1
  {
    assert m.Keys == (m - {k}).Keys + {k};
  }

  lemma ServiceLink(queues: map<nat, Cfqq>, lists: seq<seq<nat>>, slot: map<nat, nat>, busy: nat, k: nat, l: nat, at: nat)
    requires Service(queues, lists, slot, busy) && k in queues && !queues[k].onRr && l < LISTS && at <= |lists[l]|
    ensures Service(queues[k := queues[k].(onRr := true)], Link(lists, l, at, k), slot[k := l], busy + 1)
  {
    hide Places, Link;
    PlacesLink(lists, slot, k, l, at);
    assert slot[k := l].Keys == slot.Keys + {k};
  }

  /** list_splice_init of level p onto the front of the current list */
  function Splice(lists: seq<seq<nat>>, p: nat): seq<seq<nat>>
    requires |lists| == LISTS && p < CUR
  {
    lists[p := []][CUR := lists[p] + lists[CUR]]
  }

  function Spliced(slot: map<nat, nat>, p: nat): map<nat, nat> {
    map k | k in slot :: if slot[k] == p then CUR else slot[k]
  }

  lemma PlacesSplice(lists: seq<seq<nat>>, slot: map<nat, nat>, p: nat)
    requires Places(lists, slot) && p < CUR
    ensures Places(Splice(lists, p), Spliced(slot, p))
  {
    hide NoDup;
    var t := Splice(lists, p);
    assert forall k | k in lists[p] :: k in slot && slot[k] == p;
    OnceJoined(lists[p], lists[CUR]);
    OnceNone();
    forall k | k in slot ensures k in t[Spliced(slot, p)[k]] {
      assert k in lists[slot[k]];
    }
    forall l, k | 0 <= l < LISTS && k in t[l] ensures k in slot && Spliced(slot, p)[k] == l {
      assert k in lists[l] || (l == CUR && k in lists[p]);
    }
  }

  lemma OnceNone()
    ensures NoDup<nat>([])
  {
  }

  lemma OnceJoined(p: seq<nat>, q: seq<nat>)
    requires NoDup(p) && NoDup(q) && forall k | k in p :: k !in q
    ensures NoDup(p + q)
  {
    forall i, j | 0 <= i < j < |p + q| ensures (p + q)[i] != (p + q)[j] {
      assert i < |p| <= j ==> (p + q)[i] in p && (p + q)[j] in q;
    }
  }

  lemma ServiceSplice(queues: map<nat, Cfqq>, lists: seq<seq<nat>>, slot: map<nat, nat>, busy: nat, p: nat)
    requires Service(queues, lists, slot, busy) && p < CUR
    ensures Service(queues, Splice(lists, p), Spliced(slot, p), busy)
  {
    hide Places, Splice;
    PlacesSplice(lists, slot, p);
    assert Spliced(slot, p).Keys == slot.Keys;
  }

  /** Level p is the next one with work, k turns after turn i, and moves to the current list; the
      rotation goes on behind it. */
  ghost predicate MovesUp(lists: seq<seq<nat>>, lists': seq<seq<nat>>, i: nat, i': nat, p: nat, k: nat) {
    && |lists| == LISTS && p < CFQ_PRIO_LISTS
    && Serves(lists[..CFQ_PRIO_LISTS], i, k, p) && Call(i, i', lists[..CFQ_PRIO_LISTS], p)
    && lists' == Splice(lists, p) && lists'[CUR] == lists[p] + lists[CUR] && lists[p] != []
  }

  lemma MovesUpBy(lists: seq<seq<nat>>, i: nat, p: nat, k: nat)
    requires |lists| == LISTS && i < TURNS && p < CFQ_PRIO_LISTS && Serves(lists[..CFQ_PRIO_LISTS], i, k, p)
    ensures MovesUp(lists, Splice(lists, p), i, (i + k + 1) % TURNS, p, k)
  {
    ServesCall(lists[..CFQ_PRIO_LISTS], i, k, p, (i + k + 1) % TURNS);
    hide Serves, Call;
  }

  lemma ServiceNew(queues: map<nat, Cfqq>, lists: seq<seq<nat>>, slot: map<nat, nat>, busy: nat, k: nat, q: Cfqq)
    requires Service(queues, lists, slot, busy) && k !in queues && !q.onRr
    ensures Service(queues[k := q], lists, slot, busy)
  {
    hide Places;
  }

  lemma LinkFacts(q: seq<nat>, at: nat, k: nat)
    requires at <= |q|
    ensures forall x :: x in q[..at] + [k] + q[at..] <==> x in q || x == k
    ensures NoDup(q) && k !in q ==> NoDup(q[..at] + [k] + q[at..])
  {
    var t := q[..at] + [k] + q[at..];
    forall x ensures x in t <==> x in q || x == k {
      LinkMember(q, at, k, x);
    }
    if NoDup(q) && k !in q { LinkNoDup(q, at, k); }
  }

  lemma LinkMember(q: seq<nat>, at: nat, k: nat, x: nat)
    requires at <= |q|
    ensures x in q[..at] + [k] + q[at..] <==> x in q || x == k
  {
    assert q == q[..at] + q[at..];
  }

  lemma LinkNoDup(q: seq<nat>, at: nat, k: nat)
    requires at <= |q| && NoDup(q) && k !in q
    ensures NoDup(q[..at] + [k] + q[at..])
  {
    var t := q[..at] + [k] + q[at..];
    assert forall i | 0 <= i < |t| :: t[i] == if i < at then q[i] else if i == at then k else q[i - 1];
  }

  /** A queue at rest: its views agree, and it is marked for service iff it has requests. */
  ghost predicate AtRest(t: Taste, q: Cfqq) {
    Sound(t, q, None) && (q.onRr <==> q.tree != [])
  }

  /** A request about to be added, counted ahead. */
  lemma SoundPending(t: Taste, q: Cfqq, r: Req)
    requires Sound(t, q, None) && r !in q.tree
    ensures Sound(t, q.(queued := Add1(q.queued, Kind(t, r))), Some(r))
  {
    hide Count, Kind, Sorted, NoDup;
  }

  /** What cfq_remove_request leaves of a queue, but for the mark. */
  function Removed(t: Taste, last: nat, q: Cfqq, r: Req): Cfqq
    requires r in q.tree && r in q.fifo && |q.queued| == 2 && q.queued[Kind(t, r)] > 0
  {
    q.(tree := Minus(q.tree, r), fifo := Minus(q.fifo, r), queued := Sub1(q.queued, Kind(t, r)),
       next := if q.next == Some(r) then FindNext(t, last, q.tree, r) else q.next)
  }

  /** What cfq_get_queue allocates */
  const NEW_CFQQ := Cfqq([], [], [0, 0], None, false)

  lemma NewSound(t: Taste)
    ensures AtRest(t, NEW_CFQQ)
  {
  }

  /** struct cfq_data, as far as queues and service lists go. tail gives the end sector of the
      dispatch queue's last request after each dispatch. */
  class CfqData {
    const taste: Taste
    const tail: nat -> nat
    var queues: map<nat, Cfqq>
    var lists: seq<seq<nat>>
    var busy: nat
    var curPrio: nat
    var curEndPrio: nat
    var last: nat
    var dispatched: seq<Req>
    ghost var slot: map<nat, nat>

    ghost predicate Served()
      reads this`queues, this`lists, this`slot, this`busy, this`curPrio, this`curEndPrio
    {
      Service(queues, lists, slot, busy) && curPrio <= curEndPrio < CFQ_PRIO_LISTS
    }

    /** All is well but for queue k, which may have a request pending. */
    ghost predicate Pending(k: nat, pending: Option<Req>)
      reads this`queues, this`lists, this`slot, this`busy, this`curPrio, this`curEndPrio
    {
      && Served() && k in queues && Sound(taste, queues[k], pending)
      && forall j | j in queues && j != k :: AtRest(taste, queues[j])
    }

    ghost predicate Valid()
      reads this`queues, this`lists, this`slot, this`busy, this`curPrio, this`curEndPrio
    {
      Served() && forall j | j in queues :: AtRest(taste, queues[j])
    }

    constructor (taste: Taste, tail: nat -> nat)
      ensures Valid() && queues == map[] && dispatched == []
    {
      this.taste, this.tail := taste, tail;
      queues, lists, busy, last, dispatched, slot := map[], seq(LISTS, _ => []), 0, 0, [], map[];
      curPrio, curEndPrio := 0, 0;
    }

    /** cfq_get_queue: the queue of a task and priority, made on first use. RemoveAt memory for
        it, and if the caller may not wait, there is none. */
    method GetQueue(k: nat, memory: bool) returns (found: bool)
      requires Valid()
      modifies this`queues
      ensures Valid() && (found <==> k in queues) && (memory ==> found)
      ensures if k in old(queues) || !memory then queues == old(queues)
              else k in queues && queues == old(queues)[k := queues[k]] && queues[k].fifo == []
    {
      hide Service, Sound;
      found := k in queues || memory;
      if k !in queues && memory {
        NewSound(taste);
        ServiceNew(queues, lists, slot, busy, k, NEW_CFQQ);
        queues := queues[k := NEW_CFQQ];
      }
    }

    /** The turn of the rotation that the cursors stand for. */
    ghost function Now(): nat
      requires curPrio <= curEndPrio < CFQ_PRIO_LISTS
      reads this`curPrio, this`curEndPrio
    {
      Turn(curPrio, curEndPrio)
    }

    /** The search of cfq_get_next_prio_level: the cursors end up at the turn to be served. */
    method Search(ghost levels: seq<seq<nat>>) returns (prio: int, ghost k: nat)
      requires |lists| == LISTS && levels == lists[..CFQ_PRIO_LISTS] && curPrio <= curEndPrio < CFQ_PRIO_LISTS
      modifies this`curPrio, this`curEndPrio
      ensures curPrio <= curEndPrio < CFQ_PRIO_LISTS
      ensures prio == -1 <==> forall p | 0 <= p < CFQ_PRIO_LISTS :: levels[p] == []
      ensures prio != -1 ==> && 0 <= prio <= curEndPrio
                             && Serves(levels, old(Now()), k, prio)
                             && Turn(prio, curEndPrio) == (old(Now()) + k) % TURNS
    {
      hide Turn, Level, NextRow, SCHEDULE;
      ghost var start := Turn(curPrio, curEndPrio);
      prio, k := -1, 0;
      var wrap := false;
      while true
        invariant curPrio <= curEndPrio < CFQ_PRIO_LISTS && prio == -1
        invariant Turn(curPrio, curEndPrio) == (start + k) % TURNS
        invariant forall j | 0 <= j < k :: levels[Level(start, j)] == []
        invariant curPrio == 0 || k == 0
        invariant wrap ==> curPrio == 0 && k >= Row(curEndPrio)
        decreases !wrap, CFQ_PRIO_LISTS - curEndPrio
      {
        var p := curPrio;
        ghost var row := k;
        while p <= curEndPrio
          invariant curPrio <= p <= curEndPrio + 1 && k == row + (p - curPrio)
          invariant (if p <= curEndPrio then Turn(p, curEndPrio) else NextRow(curEndPrio)) == (start + k) % TURNS
          invariant forall j | 0 <= j < k :: levels[Level(start, j)] == []
          modifies {}
        {
          AtTurn(start, k, p, curEndPrio);
          if lists[p] != [] {
            prio := p;
            return;
          }
          p, k := p + 1, k + 1;
        }
        RowStep(curEndPrio);
        curPrio := 0;
        if curEndPrio + 1 == CFQ_PRIO_LISTS {
          curEndPrio := 0;
          if wrap {
            AllEmpty(levels, start, k);
            break;
          }
          wrap := true;
        } else {
          curEndPrio := curEndPrio + 1;
        }
      }
    }

    /** The cursors move on by one turn. */
    method Advance(prio: nat)
      requires prio <= curEndPrio < CFQ_PRIO_LISTS
      modifies this`curPrio, this`curEndPrio
      ensures curPrio <= curEndPrio < CFQ_PRIO_LISTS
      ensures Now() == if prio < old(curEndPrio) then Turn(prio + 1, old(curEndPrio)) else NextRow(old(curEndPrio))
    {
      RowStep(curEndPrio);
      hide Turn, SCHEDULE;
      curPrio := prio + 1;
      if curPrio > curEndPrio {
        curEndPrio := curPrio;
        curPrio := 0;
      }
      if curEndPrio == CFQ_PRIO_LISTS {
        curPrio, curEndPrio := 0, 0;
      }
    }

    method MoveUp(p: nat)
      requires Valid() && p < CFQ_PRIO_LISTS
      modifies this`lists, this`slot
      ensures Valid() && |old(lists)| == LISTS && lists == Splice(old(lists), p)
    {
      hide Service, Places, AtRest, Sound, Splice, Spliced;
      ServiceLists(queues, lists, slot, busy);
      ServiceSplice(queues, lists, slot, busy, p);
      lists, slot := Splice(lists, p), Spliced(slot, p);
    }

    /** cfq_get_next_prio_level: the next level with work, in the order of the schedule, moves to
        the front of the current list; or there is none. */
    method GetNextPrioLevel() returns (prio: int, ghost k: nat)
      requires Valid()
      modifies this`lists, this`slot, this`curPrio, this`curEndPrio
      ensures Valid() && |old(lists)| == LISTS
      ensures prio == -1 <==> forall p | 0 <= p < CFQ_PRIO_LISTS :: old(lists)[p] == []
      ensures prio == -1 ==> lists == old(lists)
      ensures prio != -1 ==> 0 <= prio && MovesUp(old(lists), lists, old(Now()), Now(), prio, k)
    {
      hide Service, Sound, Turn, NextRow, Level, SCHEDULE, Serves, MovesUp, Splice, Spliced, AtRest;
      ServiceLists(queues, lists, slot, busy);
      ghost var start, levels := Now(), lists[..CFQ_PRIO_LISTS];
      prio, k := Search(levels);
      assert forall p | 0 <= p < CFQ_PRIO_LISTS :: levels[p] == lists[p];
      if prio == -1 {
        return;
      }
      AtTurn(start, k, prio, curEndPrio);
      MovesUpBy(lists, start, prio, k);
      Advance(prio);
      MoveUp(prio);
    }

    /** The choice of cfq_set_active_queue: the current list, else the next level, else the busy
        list, else, after a grace period, the idle list. What is chosen has requests. */
    method NextActive(grace: bool) returns (k: Option<nat>, ghost l: nat)
      requires Valid()
      modifies this`lists, this`slot, this`curPrio, this`curEndPrio
      ensures Valid() && |old(lists)| == LISTS
      ensures k.Some? ==> && k.value in queues && queues[k.value].tree != []
                          && l < LISTS && old(lists)[l] != [] && k.value == old(lists)[l][0]
                          && (l != CUR ==> old(lists)[CUR] == [])
                          && (l == BUSY || l == IDLE ==> forall m | 0 <= m < l :: old(lists)[m] == [])
                          && (l < CFQ_PRIO_LISTS ==> exists n :: Serves(old(lists)[..CFQ_PRIO_LISTS], old(Now()), n, l))
      ensures k.None? <==> (forall m | 0 <= m < IDLE :: old(lists)[m] == []) && (old(lists)[IDLE] == [] || !grace)
    {
      hide Service, Sound, Turn, Level, SCHEDULE, Serves, Call;
      ServiceLists(queues, lists, slot, busy);
      k, l := None, CUR;
      if lists[CUR] == [] {
        var prio;
        ghost var turns;
        prio, turns := GetNextPrioLevel();
        ServiceLists(queues, lists, slot, busy);
        if prio != -1 { l := prio; }
      }
      if lists[CUR] != [] {
        k := Some(lists[CUR][0]);
      } else if lists[BUSY] != [] {
        k, l := Some(lists[BUSY][0]), BUSY;
      } else if lists[IDLE] != [] && grace {
        k, l := Some(lists[IDLE][0]), IDLE;
      }
    }

    /** cfq_del_cfqq_rr */
    method DelRr(k: nat)
      requires Served() && k in queues && queues[k].onRr
      modifies this`queues, this`lists, this`busy, this`slot
      ensures Served() && queues == old(queues)[k := old(queues)[k].(onRr := false)] && lists == Unlink(old(lists), k)
    {
      hide Service, Unlink;
      ServiceUnlink(queues, lists, slot, busy, k);
      queues := queues[k := queues[k].(onRr := false)];
      lists := Unlink(lists, k);
      busy := busy - 1;
      slot := slot - {k};
    }

    /** cfq_add_cfqq_rr: onto list l; where in the list is a matter of policy. */
    method AddRr(k: nat, l: nat, at: nat)
      requires Served() && k in queues && !queues[k].onRr && l < LISTS
      modifies this`queues, this`lists, this`busy, this`slot
      ensures Served() && queues == old(queues)[k := old(queues)[k].(onRr := true)]
      ensures |lists| == |old(lists)| == LISTS && lists == old(lists)[l := lists[l]]
      ensures var pos := if at <= |old(lists)[l]| then at else |old(lists)[l]|;
              lists[l] == old(lists)[l][..pos] + [k] + old(lists)[l][pos..]
    {
      hide Service;
      ServiceLists(queues, lists, slot, busy);
      var pos := if at <= |lists[l]| then at else |lists[l]|;
      ServiceLink(queues, lists, slot, busy, k, l, pos);
      queues := queues[k := queues[k].(onRr := true)];
      lists := Link(lists, l, pos, k);
      busy := busy + 1;
      slot := slot[k := l];
    }

    /** cfq_resort_rr_list: a marked queue goes to another place; others are left alone. */
    method Resort(k: nat, l: nat, at: nat)
      requires Valid() && k in queues && l < LISTS
      modifies this`queues, this`lists, this`busy, this`slot
      ensures Valid() && queues == old(queues) && busy == old(busy)
      ensures |lists| == LISTS && (queues[k].onRr ==> k in lists[l])
      ensures !queues[k].onRr ==> lists == old(lists)
      ensures |lists| == |old(lists)| && forall m, j | 0 <= m < LISTS && j != k :: j in lists[m] <==> j in old(lists)[m]
    {
      hide Service, Sound;
      ServiceLists(queues, lists, slot, busy);
      if queues[k].onRr {
        DelRr(k);
        AddRr(k, l, at);
        assert queues == old(queues);
      }
      SameBusy(old(queues), old(lists), old(slot), old(busy), lists, slot, busy);
    }

    /** cfq_remove_request, with cfq_del_rq_rb */
    method RemoveRequest(k: nat, r: Req, ghost pending: Option<Req>)
      requires Pending(k, pending) && r in queues[k].tree
      modifies this`queues, this`lists, this`busy, this`slot
      ensures Pending(k, pending) && (queues[k].tree == [] ==> !queues[k].onRr)
      ensures lists == old(lists) || lists == Unlink(old(lists), k)
      ensures var q := old(queues)[k];
              && r in q.fifo && q.queued[Kind(taste, r)] > 0
              && queues == old(queues)[k := Removed(taste, last, q, r).(onRr := q.onRr && Minus(q.tree, r) != [])]
    {
      hide Service, Sound, FindNext, Minus, Kind;
      var q := queues[k];
      SoundMinus(taste, last, q, pending, r);
      var rest := Removed(taste, last, q, r);
      ServiceKept(queues, lists, slot, busy, k, rest);
      queues := queues[k := rest];
      if rest.onRr && rest.tree == [] {
        DelRr(k);
        SoundMark(taste, rest, pending, false);
      }
    }

    /** cfq_dispatch_insert */
    method DispatchInsert(k: nat, r: Req, ghost pending: Option<Req>)
      requires Pending(k, pending) && r in queues[k].tree
      modifies this`queues, this`lists, this`busy, this`slot, this`dispatched, this`last
      ensures Pending(k, pending) && (queues[k].tree == [] ==> !queues[k].onRr)
      ensures lists == old(lists) || lists == Unlink(old(lists), k)
      ensures dispatched == old(dispatched) + [r]
      ensures var q := old(queues)[k];
              && r in q.fifo && q.queued[Kind(taste, r)] > 0
              && queues == old(queues)[k := Removed(taste, old(last), q, r).(onRr := q.onRr && Minus(q.tree, r) != [])]
    {
      hide Service, Sound, Minus, FindNext, Kind, Unlink;
      RemoveRequest(k, r, pending);
      dispatched := dispatched + [r];
      last := tail(|dispatched|);
    }

    /** The first half of cfq_add_rq_rb: a request at the same sector is dispatched; one is
        enough, since no two requests in the tree share a sector. */
    method DispatchAlias(k: nat, r: Req) returns (place: nat, ghost alias: Option<Req>)
      requires Pending(k, Some(r))
      modifies this
      ensures Pending(k, Some(r)) && Place(queues[k].tree, place, r)
      ensures queues == old(queues)[k := queues[k]]
      ensures match alias
              case None => queues[k].fifo == old(queues)[k].fifo && dispatched == old(dispatched)
              case Some(a) => && a in old(queues)[k].tree && a.sector == r.sector && a in old(queues)[k].fifo
                              && queues[k].fifo == Minus(old(queues)[k].fifo, a) && dispatched == old(dispatched) + [a]
    {
      hide Service, Sound, Minus, FindNext, Kind;
      alias := None;
      SoundSorted(taste, queues[k], Some(r));
      var same;
      place, same := Descend(queues[k].tree, r.sector);
      while same.Some?
        invariant Pending(k, Some(r)) && queues == old(queues)[k := queues[k]]
        invariant same.None? ==> Place(queues[k].tree, place, r)
        invariant same.Some? ==> alias.None? && same.value in queues[k].tree && same.value.sector == r.sector
        invariant match alias
                  case None => queues == old(queues) && dispatched == old(dispatched)
                  case Some(a) => && a in old(queues)[k].tree && a.sector == r.sector && a in old(queues)[k].fifo
                                  && queues[k].fifo == Minus(old(queues)[k].fifo, a)
                                  && dispatched == old(dispatched) + [a]
        decreases alias.None?
      {
        alias := same;
        SoundSorted(taste, queues[k], Some(r));
        OneAlias(queues[k].tree, same.value);
        SortedNoDup(queues[k].tree);
        MinusFacts(queues[k].tree, same.value);
        DispatchInsert(k, same.value, Some(r));
        SoundSorted(taste, queues[k], Some(r));
        place, same := Descend(queues[k].tree, r.sector);
      }
    }

    /** cfq_add_rq_rb. q is the queue just before the request gets into its tree, at i. */
    method AddRqRb(k: nat, r: Req, l: nat, at: nat) returns (ghost q: Cfqq, ghost i: nat, ghost alias: Option<Req>)
      requires Served() && k in queues && l < LISTS && forall j | j in queues && j != k :: AtRest(taste, queues[j])
      requires |queues[k].queued| == 2
      requires Sound(taste, queues[k].(queued := Add1(queues[k].queued, Kind(taste, r))), Some(r))
      modifies this
      ensures Served() && Sound(taste, q, Some(r)) && Place(q.tree, i, r)
      ensures queues == old(queues)[k := q.(tree := Insert(q.tree, i, r), next := Choose(taste, last, q.next, Some(r)), onRr := true)]
      ensures match alias
              case None => q.fifo == old(queues)[k].fifo && dispatched == old(dispatched)
              case Some(a) => && a in old(queues)[k].tree && a.sector == r.sector && a in old(queues)[k].fifo
                              && q.fifo == Minus(old(queues)[k].fifo, a) && dispatched == old(dispatched) + [a]
    {
      hide Service, Sound, Minus, Insert, Choose, FindNext, Kind, Place;
      var counted := queues[k].(queued := Add1(queues[k].queued, Kind(taste, r)));
      ServiceKept(queues, lists, slot, busy, k, counted);
      queues := queues[k := counted];
      var place;
      place, alias := DispatchAlias(k, r);
      q, i := queues[k], place;
      PlaceIn(queues[k].tree, place, r);
      var tree := Insert(queues[k].tree, place, r);
      ServiceKept(queues, lists, slot, busy, k, queues[k].(tree := tree));
      queues := queues[k := queues[k].(tree := tree)];
      if !queues[k].onRr {
        AddRr(k, l, at);
      }
      var next := Choose(taste, last, queues[k].next, Some(r));
      ServiceKept(queues, lists, slot, busy, k, queues[k].(next := next));
      queues := queues[k := queues[k].(next := next)];
    }

    /** cfq_insert_request */
    method InsertRequest(k: nat, r: Req, l: nat, at: nat)
      requires Valid() && k in queues && l < LISTS && r !in queues[k].tree
      modifies this
      ensures Valid() && k in queues && queues == old(queues)[k := queues[k]] && r in queues[k].tree
      ensures forall x :: x in queues[k].fifo <==> x == r || (x in old(queues)[k].fifo && x.sector != r.sector)
      ensures forall x :: x in dispatched <==>
                x in old(dispatched) || (x in old(queues)[k].fifo && x.sector == r.sector)
    {
      hide Service, Sound, Minus, Insert, Choose, FindNext, Kind, Place;
      ghost var f := queues[k].fifo;
      RestFacts(taste, queues[k], r);
      SoundPending(taste, queues[k], r);
      ghost var q, i, alias := AddRqRb(k, r, l, at);
      PlaceIn(q.tree, i, r);
      InsertedMembers(taste, q, f, alias, i, r);
      SoundInsert(taste, last, q, r, i);
      var full := queues[k].(fifo := queues[k].fifo + [r]);
      ServiceKept(queues, lists, slot, busy, k, full);
      queues := queues[k := full];
      SoundMark(taste, q.(tree := Insert(q.tree, i, r), next := Choose(taste, last, q.next, Some(r)), fifo := q.fifo + [r]), None, true);
    }

    /** cfq_reposition_rq_rb after a front merge of n sectors into r. */
    method Reposition(k: nat, r: Req, n: nat, l: nat, at: nat) returns (s: Req)
      requires Valid() && k in queues && l < LISTS && r in queues[k].tree && 0 < n <= r.sector
      requires forall x | x in queues[k].fifo && x.id == r.id :: x == r
      modifies this
      ensures Valid() && k in queues && queues == old(queues)[k := queues[k]]
      ensures s == Req(r.id, r.sector - n) && s in queues[k].tree
      ensures forall x :: x in queues[k].fifo <==>
                x == s || (x in old(queues)[k].fifo && x != r && x.sector != s.sector)
      ensures forall x :: x in dispatched <==>
                x in old(dispatched) || (x in old(queues)[k].fifo && x != r && x.sector == s.sector)
    {
      hide Service, Sound, Minus, Insert, Choose, FindNext, Place, Renamed;
      s := Req(r.id, r.sector - n);
      RestFacts(taste, queues[k], r);
      SoundRenamed(taste, queues[k], r, s);
      RenamedFacts(queues[k].fifo, r, s);
      ghost var f := Renamed(queues[k].fifo, r, s);
      var b := Kind(taste, r);
      var q0 := queues[k].(tree := Minus(queues[k].tree, r), fifo := Renamed(queues[k].fifo, r, s),
                           next := if queues[k].next == Some(r) then Some(s) else queues[k].next);
      SoundMinus(taste, last, queues[k], None, r);
      var less := q0.(queued := Sub1(queues[k].queued, b));
      ServiceKept(queues, lists, slot, busy, k, less);
      queues := queues[k := less];
      assert less.(queued := Add1(less.queued, b)) == q0;
      ghost var t := less.tree;
      ghost var q, i, alias := AddRqRb(k, s, l, at);
      PlaceIn(q.tree, i, s);
      RepositionedMembers(taste, q, q0, f, alias, i, s);
      SoundInsert(taste, last, q, s, i);
      SoundMark(taste, q.(tree := Insert(q.tree, i, s), next := Choose(taste, last, q.next, Some(s))), None, true);
    }

    /** cfq_merged_requests: n is merged into r, which moves up in the FIFO if n is older. */
    method MergedRequests(k: nat, r: Req, n: Req, older: bool)
      requires Valid() && k in queues && r in queues[k].tree && n in queues[k].tree && r != n
      modifies this`queues, this`lists, this`busy, this`slot
      ensures Valid() && k in queues && queues == old(queues)[k := queues[k]]
      ensures queues[k].tree == Minus(old(queues)[k].tree, n)
      ensures forall x :: x in queues[k].fifo <==> x in old(queues)[k].fifo && x != n
    {
      hide Service, Sound, Minus, FindNext, Kind, MovedBehind;
      ghost var f := queues[k].fifo;
      SoundMoved(taste, queues[k], r, n);
      if older {
        var moved := queues[k].(fifo := MovedBehind(queues[k].fifo, r, n));
        ServiceKept(queues, lists, slot, busy, k, moved);
        queues := queues[k := moved];
      }
      RestFacts(taste, queues[k], r);
      ghost var g := queues[k].fifo;
      RemoveRequest(k, n, None);
      MinusFacts(g, n);
    }

    /** The inner loop of cfq_forced_dispatch_cfqqs: everything in one queue goes. */
    method DrainQueue(k: nat) returns (n: nat)
      requires Valid() && k in queues
      modifies this
      ensures Valid() && k in queues && queues == old(queues)[k := queues[k]]
      ensures queues[k].tree == [] && queues[k].fifo == [] && !queues[k].onRr
      ensures n == |old(queues)[k].fifo| && |dispatched| == |old(dispatched)| + n
      ensures forall x :: x in dispatched <==> x in old(dispatched) || x in old(queues)[k].fifo
      ensures Shrunk(old(lists), lists)
    {
      hide Service, Sound, Minus, FindNext, Kind;
      n := 0;
      while queues[k].next.Some?
        invariant Valid() && k in queues && queues == old(queues)[k := queues[k]] && Shrunk(old(lists), lists)
        invariant n + |queues[k].fifo| == |old(queues)[k].fifo| && |dispatched| == |old(dispatched)| + n
        invariant forall x :: x in dispatched || x in queues[k].fifo <==> x in old(dispatched) || x in old(queues)[k].fifo
        decreases |queues[k].fifo|
      {
        var r := queues[k].next.value;
        NextQueued(taste, queues[k]);
        MinusFacts(queues[k].fifo, r);
        DispatchInsert(k, r, None);
        n := n + 1;
      }
      NextQueued(taste, queues[k]);
    }

    /** cfq_forced_dispatch_cfqqs, for list l */
    method ForcedCfqqs(l: nat) returns (n: nat)
      requires Valid() && l < LISTS
      modifies this
      ensures Valid() && Drained(old(queues), old(dispatched), queues, dispatched) && Shrunk(old(lists), lists)
      ensures l < |lists| && lists[l] == [] && |dispatched| == |old(dispatched)| + n
    {
      hide Service, Sound, Drained, Shrunk;
      ServiceLists(queues, lists, slot, busy);
      var chain, i := lists[l], 0;
      n := 0;
      DrainedNone(queues, dispatched, lists);
      while i < |chain|
        invariant Valid() && i <= |chain| && Drained(old(queues), old(dispatched), queues, dispatched)
        invariant Shrunk(old(lists), lists)
        invariant forall j | 0 <= j < |chain| :: chain[j] in queues
        invariant forall j | 0 <= j < i :: queues[chain[j]].tree == []
        invariant |dispatched| == |old(dispatched)| + n
      {
        ghost var q, d, ls := queues, dispatched, lists;
        var m := DrainQueue(chain[i]);
        DrainedMore(old(queues), old(dispatched), q, d, queues, dispatched, chain[i]);
        ShrunkMore(old(lists), ls, lists);
        n, i := n + m, i + 1;
      }
      ServiceLists(queues, lists, slot, busy);
      ListEmpty(queues, lists, slot, busy, old(lists), l);
    }

    /** cfq_forced_dispatch: everything goes, and no queue is left for service. */
    method ForcedDispatch() returns (n: nat)
      requires Valid()
      modifies this
      ensures Valid() && busy == 0 && queues.Keys == old(queues).Keys
      ensures forall k | k in queues :: queues[k].tree == [] && queues[k].fifo == []
      ensures Drained(old(queues), old(dispatched), queues, dispatched)
      ensures |dispatched| == |old(dispatched)| + n
    {
      hide Service, Sound, Drained, Shrunk;
      n := 0;
      var l := 0;
      DrainedNone(queues, dispatched, lists);
      ServiceLists(queues, lists, slot, busy);
      while l < LISTS
        invariant l <= LISTS && Valid() && Drained(old(queues), old(dispatched), queues, dispatched)
        invariant |lists| == LISTS && forall m | 0 <= m < l :: lists[m] == []
        invariant |dispatched| == |old(dispatched)| + n
      {
        ghost var q, d, ls := queues, dispatched, lists;
        var m := ForcedCfqqs(l);
        DrainedAgain(old(queues), old(dispatched), q, d, queues, dispatched);
        ShrunkEmpty(ls, lists, l);
        n, l := n + m, l + 1;
      }
      NothingListed(queues, lists, slot, busy);
      DrainedFacts(old(queues), old(dispatched), queues, dispatched);
      forall k | k in queues ensures queues[k].tree == [] && queues[k].fifo == [] {
        RestEmpty(taste, queues[k]);
      }
    }
  }

  /** Every request has stayed where it was or has been dispatched, and nothing else has. */
  ghost predicate Drained(queues: map<nat, Cfqq>, dispatched: seq<Req>, queues': map<nat, Cfqq>, dispatched': seq<Req>) {
    && queues'.Keys == queues.Keys
    && (forall k | k in queues :: queues'[k] == queues[k] || (queues'[k].tree == [] && queues'[k].fifo == []))
    && (forall k, x | k in queues && x in queues[k].fifo :: x in queues'[k].fifo || x in dispatched')
    && (forall x | x in dispatched :: x in dispatched')
    && (forall x | x in dispatched' :: x in dispatched || exists k | k in queues :: x in queues[k].fifo)
  }

  lemma DrainedNone(queues: map<nat, Cfqq>, dispatched: seq<Req>, lists: seq<seq<nat>>)
    ensures Drained(queues, dispatched, queues, dispatched) && Shrunk(lists, lists)
  {
  }

  lemma DrainedAgain(q0: map<nat, Cfqq>, d0: seq<Req>, q1: map<nat, Cfqq>, d1: seq<Req>, q2: map<nat, Cfqq>, d2: seq<Req>)
    requires Drained(q0, d0, q1, d1) && Drained(q1, d1, q2, d2)
    ensures Drained(q0, d0, q2, d2)
  {
    forall x | x in d2 ensures x in d0 || exists k | k in q0 :: x in q0[k].fifo {
      if x !in d1 {
        var k :| k in q1 && x in q1[k].fifo;
        assert q1[k] == q0[k];
      }
    }
  }

  lemma DrainedMore(q0: map<nat, Cfqq>, d0: seq<Req>, q1: map<nat, Cfqq>, d1: seq<Req>, q2: map<nat, Cfqq>, d2: seq<Req>,
                    k: nat)
    requires Drained(q0, d0, q1, d1) && k in q1 && k in q2 && q2 == q1[k := q2[k]] && q2[k].tree == [] && q2[k].fifo == []
    requires forall x :: x in d2 <==> x in d1 || x in q1[k].fifo
    ensures Drained(q0, d0, q2, d2)
  {
    assert Drained(q1, d1, q2, d2);
    DrainedAgain(q0, d0, q1, d1, q2, d2);
  }

  lemma DrainedFacts(q0: map<nat, Cfqq>, d0: seq<Req>, q1: map<nat, Cfqq>, d1: seq<Req>)
    requires Drained(q0, d0, q1, d1)
    ensures q1.Keys == q0.Keys
  {
  }

  lemma ServiceLists(queues: map<nat, Cfqq>, lists: seq<seq<nat>>, slot: map<nat, nat>, busy: nat)
    requires Service(queues, lists, slot, busy)
    ensures |lists| == LISTS && forall l, k | 0 <= l < LISTS && k in lists[l] :: k in queues && queues[k].onRr
  {
  }

  /** Queues without requests are on no list. */
  lemma ListEmpty(queues: map<nat, Cfqq>, lists: seq<seq<nat>>, slot: map<nat, nat>, busy: nat, was: seq<seq<nat>>, l: nat)
    requires Service(queues, lists, slot, busy) && Shrunk(was, lists) && l < LISTS
    requires forall k | k in queues :: queues[k].onRr <==> queues[k].tree != []
    requires forall j | 0 <= j < |was[l]| :: was[l][j] in queues && queues[was[l][j]].tree == []
    ensures lists[l] == []
  {
    FirstIn(lists[l]);
    StillListed(queues, lists, slot, busy, was, l, First(lists[l]));
    hide Service, Shrunk;
  }

  function First(q: seq<nat>): nat {
    if q == [] then 0 else q[0]
  }

  lemma FirstIn(q: seq<nat>)
    ensures q == [] || First(q) in q
  {
  }

  lemma StillListed(queues: map<nat, Cfqq>, lists: seq<seq<nat>>, slot: map<nat, nat>, busy: nat, was: seq<seq<nat>>,
                    l: nat, k: nat)
    requires Service(queues, lists, slot, busy) && Shrunk(was, lists) && l < LISTS
    ensures k in lists[l] ==> k in queues && queues[k].onRr && k in was[l]
  {
  }

  lemma ShrunkMore(a: seq<seq<nat>>, b: seq<seq<nat>>, c: seq<seq<nat>>)
    requires Shrunk(a, b) && Shrunk(b, c)
    ensures Shrunk(a, c)
  {
  }

  lemma ShrunkEmpty(a: seq<seq<nat>>, b: seq<seq<nat>>, n: nat)
    requires Shrunk(a, b) && n <= |a| && forall m | 0 <= m < n :: a[m] == []
    ensures |a| == |b| && forall m | 0 <= m < n :: b[m] == []
  {
    forall m | 0 <= m < n ensures b[m] == [] {
      FirstIn(b[m]);
    }
  }

  lemma SlotListed(lists: seq<seq<nat>>, slot: map<nat, nat>, k: nat)
    requires Places(lists, slot)
    ensures k in slot ==> slot[k] < LISTS && lists[slot[k]] != []
  {
  }

  lemma NothingListed(queues: map<nat, Cfqq>, lists: seq<seq<nat>>, slot: map<nat, nat>, busy: nat)
    requires Service(queues, lists, slot, busy) && forall l | 0 <= l < LISTS :: lists[l] == []
    ensures busy == 0 && forall k | k in queues :: !queues[k].onRr
  {
    forall k ensures k !in slot {
      SlotListed(lists, slot, k);
    }
    assert slot == map[];
  }

  lemma RestEmpty(t: Taste, q: Cfqq)
    requires AtRest(t, q) && !q.onRr
    ensures q.tree == [] && q.fifo == []
  {
    HeadIn(q.fifo);
  }

  /** Queues have only left the lists. */
  ghost predicate Shrunk(lists: seq<seq<nat>>, lists': seq<seq<nat>>) {
    |lists| == |lists'| && forall l, k | 0 <= l < |lists| && k in lists'[l] :: k in lists[l]
  }

  lemma NextQueued(t: Taste, q: Cfqq)
    requires Sound(t, q, None)
    ensures NoDup(q.fifo)
    ensures match q.next
            case None => q.tree == [] && q.fifo == []
            case Some(r) => r in q.tree && r in q.fifo
  {
    HeadIn(q.fifo);
  }

  lemma SoundMoved(t: Taste, q: Cfqq, r: Req, n: Req)
    requires Sound(t, q, None) && r in q.tree && n in q.tree && r != n
    ensures r in q.fifo && n in Minus(q.fifo, r) && Sound(t, q.(fifo := MovedBehind(q.fifo, r, n)), None)
    ensures NoDup(MovedBehind(q.fifo, r, n)) && forall x :: x in MovedBehind(q.fifo, r, n) <==> x in q.fifo
  {
    hide Count, MovedBehind, Minus, NoDup, Sorted;
    MovedFacts(q.fifo, r, n);
  }

  lemma PlaceIn(tree: seq<Req>, i: nat, r: Req)
    requires Place(tree, i, r)
    ensures i <= |tree|
  {
  }

  lemma RestFacts(t: Taste, q: Cfqq, r: Req)
    requires Sound(t, q, None)
    ensures |q.queued| == 2 && NoDup(q.fifo) && (r !in q.tree ==> r !in q.fifo)
  {
  }

  lemma InsertedMembers(t: Taste, q: Cfqq, was: seq<Req>, alias: Option<Req>, i: nat, r: Req)
    requires Sound(t, q, Some(r)) && Place(q.tree, i, r) && NoDup(was) && r !in was
    requires match alias
             case None => q.fifo == was
             case Some(a) => a in was && a.sector == r.sector && q.fifo == Minus(was, a)
    ensures r !in q.fifo && forall x :: x in q.fifo + [r] <==> x == r || (x in was && x.sector != r.sector)
    ensures forall x :: alias == Some(x) <==> x in was && x.sector == r.sector
  {
    hide Minus, Count, NoDup, Sorted;
    if alias.Some? { MinusFacts(was, alias.value); }
    PlaceSectors(q.tree, i, r);
    hide Place;
  }

  lemma RepositionedMembers(t: Taste, q: Cfqq, q0: Cfqq, was: seq<Req>, alias: Option<Req>, i: nat, r: Req)
    requires Sound(t, q, Some(r)) && Place(q.tree, i, r) && Sound(t, q0, Some(r)) && q0.fifo == was && r in was
    requires match alias
             case None => q.fifo == was
             case Some(a) => a in q0.tree && a in was && a.sector == r.sector && q.fifo == Minus(was, a)
    ensures r in q.fifo && forall x :: x in q.fifo <==> x == r || (x in was && x.sector != r.sector)
    ensures forall x :: alias == Some(x) <==> x in was && x != r && x.sector == r.sector
  {
    hide Minus, Count, NoDup, Sorted;
    if alias.Some? { MinusFacts(was, alias.value); }
    PlaceSectors(q.tree, i, r);
    hide Place;
  }

  lemma SoundSorted(t: Taste, q: Cfqq, pending: Option<Req>)
    requires Sound(t, q, pending)
    ensures Sorted(q.tree)
  {
  }

  lemma SoundMark(t: Taste, q: Cfqq, pending: Option<Req>, on: bool)
    requires Sound(t, q, pending)
    ensures Sound(t, q.(onRr := on), pending)
  {
  }

  /** The count of marked queues depends only on the marks. */
  lemma SameBusy(queues: map<nat, Cfqq>, lists: seq<seq<nat>>, slot: map<nat, nat>, busy: nat,
                 lists': seq<seq<nat>>, slot': map<nat, nat>, busy': nat)
    requires Service(queues, lists, slot, busy) && Service(queues, lists', slot', busy')
    ensures busy == busy'
  {
    assert slot.Keys == slot'.Keys;
    assert |slot| == |slot.Keys| && |slot'| == |slot'.Keys|;
  }
}
