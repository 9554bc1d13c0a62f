/** Merging bios into requests: __make_request and attempt_merge of
    kernel/linux/block/ll_rw_blk.c with the merge hash of kernel/linux/block/elevator.c. */
module Merge {
  import opened Collections

  /** A run of n sectors to transfer; dev stands for the device and the data direction. */
  datatype Bio = Bio(id: nat, sector: nat, n: nat, dev: nat)

  /** struct request; nomerge stands for the flags that rule merging out. */
  datatype Request = Request(sector: nat, nr: nat, bios: seq<Bio>, dev: nat, special: bool, nomerge: bool)

  function End(r: Request): nat {
    r.sector + r.nr
  }

  function Sum(bios: seq<Bio>): nat {
    if bios == [] then 0 else bios[0].n + Sum(bios[1..])
  }

  /** The bios follow one another on the disk, from sector s. */
  predicate Contiguous(s: nat, bios: seq<Bio>)
    decreases |bios|
  {
    bios != [] ==> bios[0].sector == s && Contiguous(s + bios[0].n, bios[1..])
  }

  /** A request is what its bios are, all for one device and direction. */
  predicate WellFormed(r: Request) {
    && r.bios != [] && Contiguous(r.sector, r.bios) && r.nr == Sum(r.bios)
    && (forall i, j | 0 <= i < j < |r.bios| :: r.bios[i] != r.bios[j])
    && forall b | b in r.bios :: b.dev == r.dev
  }

  lemma {:induction false} Joined(s: nat, a: seq<Bio>, b: seq<Bio>)
    requires Contiguous(s, a) && Contiguous(s + Sum(a), b)
    ensures Contiguous(s, a + b) && Sum(a + b) == Sum(a) + Sum(b)
    decreases |a|
  {
    if a == [] {
      assert a + b == b;
    } else {
      Joined(s + a[0].n, a[1..], b);
      assert (a + b)[1..] == a[1..] + b;
    }
  }

  /** Two requests become one when the second starts where the first ends. */
  lemma JoinedRequests(r: Request, q: Request, both: Request)
    requires WellFormed(r) && WellFormed(q) && q.sector == End(r) && r.dev == q.dev == both.dev
    requires forall b | b in r.bios :: b !in q.bios
    requires both.bios == r.bios + q.bios && both.sector == r.sector && both.nr == r.nr + q.nr
    ensures WellFormed(both) && End(both) == End(q)
  {
    Joined(r.sector, r.bios, q.bios);
    forall i, j | 0 <= i < j < |both.bios| ensures both.bios[i] != both.bios[j] {
      if i < |r.bios| <= j {
        assert r.bios[i] in r.bios && q.bios[j - |r.bios|] in q.bios;
      }
    }
  }

  lemma Single(bio: Bio, r: Request)
    requires r.bios == [bio] && r.sector == bio.sector && r.nr == bio.n && r.dev == bio.dev
    ensures WellFormed(r)
  {
    assert r.bios[1..] == [];
  }

  /** A request grows by a bio at its end, or at its start. */
  lemma Grown(r: Request, bio: Bio, grown: Request)
    requires WellFormed(r) && bio !in r.bios && grown.nr == r.nr + bio.n && grown.dev == r.dev == bio.dev
    ensures End(r) == bio.sector && grown.bios == r.bios + [bio] && grown.sector == r.sector ==> WellFormed(grown)
    ensures bio.sector + bio.n == r.sector && grown.bios == [bio] + r.bios && grown.sector == bio.sector ==>
              WellFormed(grown) && End(grown) == End(r)
  {
    var one := Request(bio.sector, bio.n, [bio], r.dev, false, false);
    if End(r) == bio.sector && grown.bios == r.bios + [bio] && grown.sector == r.sector {
      JoinedRequests(r, one, grown);
    }
    if bio.sector + bio.n == r.sector && grown.bios == [bio] + r.bios && grown.sector == bio.sector {
      JoinedRequests(one, r, grown);
    }
  }

  // Who owns which bio.

  /** owner maps every bio of a live request to that request, and nothing else. */
  ghost predicate Owned(reqs: map<nat, Request>, owner: map<Bio, nat>) {
    && (forall b | b in owner :: owner[b] in reqs && b in reqs[owner[b]].bios)
    && (forall i, b | i in reqs && b in reqs[i].bios :: b in owner && owner[b] == i)
  }

  /** Request q's bios go over to request r. */
  function HandOver(owner: map<Bio, nat>, r: nat, q: nat): map<Bio, nat> {
    map b | b in owner :: if owner[b] == q then r else owner[b]
  }

  lemma OwnedJoined(reqs: map<nat, Request>, owner: map<Bio, nat>, r: nat, q: nat, both: Request)
    requires Owned(reqs, owner) && r in reqs && q in reqs && r != q && both.bios == reqs[r].bios + reqs[q].bios
    ensures Owned((reqs - {q})[r := both], HandOver(owner, r, q))
    ensures HandOver(owner, r, q).Keys == owner.Keys
    ensures forall b | b in reqs[r].bios :: b !in reqs[q].bios
  {
    var after, to := (reqs - {q})[r := both], HandOver(owner, r, q);
    forall i, b | i in after && b in after[i].bios ensures b in to && to[b] == i {
      if i == r {
        assert b in reqs[r].bios || b in reqs[q].bios;
      } else {
        assert b in reqs[i].bios;
      }
    }
    forall b | b in to ensures to[b] in after && b in after[to[b]].bios {
      assert b in owner && b in reqs[owner[b]].bios;
    }
    assert to.Keys == owner.Keys;
    forall b | b in reqs[r].bios ensures b !in reqs[q].bios {
      assert owner[b] == r;
    }
  }

  lemma OwnedGrown(reqs: map<nat, Request>, owner: map<Bio, nat>, r: nat, bio: Bio, grown: Request)
    requires Owned(reqs, owner) && bio !in owner
    requires forall b :: b in grown.bios <==> b == bio || (r in reqs && b in reqs[r].bios)
    ensures Owned(reqs[r := grown], owner[bio := r])
  {
  }

  lemma NotYet(reqs: map<nat, Request>, owner: map<Bio, nat>, r: nat, bio: Bio)
    requires Owned(reqs, owner) && r in reqs && bio !in owner
    ensures bio !in reqs[r].bios
  {
  }

  lemma OwnedSame(reqs: map<nat, Request>, owner: map<Bio, nat>, r: nat, same: Request)
    requires Owned(reqs, owner) && r in reqs && same.bios == reqs[r].bios
    ensures Owned(reqs[r := same], owner)
  {
  }

  // The merge hash.

  const ELV_HASH_ENTRIES: nat := 64

  /** ELV_HASH_FN; hash stands for hash_long. */
  function Bucket(hash: nat -> nat, sector: nat): (k: nat)
    ensures k < ELV_HASH_ENTRIES
  {
    hash(sector / 8) % ELV_HASH_ENTRIES
  }

  predicate Mergeable(r: Request) {
    !r.nomerge
  }

  /** hlist_del_init: off whatever chain it is on */
  function Unhash(table: seq<seq<nat>>, i: nat): (t: seq<seq<nat>>)
    ensures |t| == |table| && forall k | 0 <= k < |t| :: t[k] == Drop(table[k], i)
  {
    seq(|table|, k requires 0 <= k < |table| => Drop(table[k], i))
  }

  /** Every hashed request is held and, but for one that is on the move, on the chain of its end
      sector; every held request that can merge is hashed. */
  ghost predicate HashOk(hash: nat -> nat, table: seq<seq<nat>>, held: set<nat>, reqs: map<nat, Request>,
                         moving: Option<nat>)
  {
    && |table| == ELV_HASH_ENTRIES
    && (forall k, i | 0 <= k < |table| && i in table[k] ::
          i in held && i in reqs && (moving == Some(i) || Bucket(hash, End(reqs[i])) == k))
    && (forall i | i in held :: i in reqs)
    && (forall i | i in held && moving != Some(i) && Mergeable(reqs[i]) ::
          i in table[Bucket(hash, End(reqs[i]))])
  }

  /** A request comes off the hash, whether on the move or not. */
  lemma Unhashed(hash: nat -> nat, table: seq<seq<nat>>, held: set<nat>, reqs: map<nat, Request>, moving: Option<nat>,
                 i: nat)
    requires HashOk(hash, table, held, reqs, moving) && (moving.None? || moving == Some(i))
    ensures HashOk(hash, Unhash(table, i), held, reqs, Some(i))
    ensures forall k | 0 <= k < |table| :: i !in Unhash(table, i)[k]
  {
    hide Unhash, Drop, Bucket;
  }

  /** ... and goes on it at its end sector. */
  lemma Rehashed(hash: nat -> nat, table: seq<seq<nat>>, held: set<nat>, reqs: map<nat, Request>, i: nat)
    requires HashOk(hash, table, held, reqs, Some(i)) && i in held
    requires forall k | 0 <= k < |table| :: i !in table[k]
    ensures var k := Bucket(hash, End(reqs[i]));
            HashOk(hash, table[k := [i] + table[k]], held, reqs, None)
  {
    hide Bucket;
  }

  /** A request that no longer merges need not be hashed. */
  lemma Forgotten(hash: nat -> nat, table: seq<seq<nat>>, held: set<nat>, reqs: map<nat, Request>, i: nat)
    requires HashOk(hash, table, held, reqs, None) && i in held && !Mergeable(reqs[i])
    ensures HashOk(hash, Unhash(table, i), held, reqs, None)
  {
    hide Unhash, Drop, Bucket;
  }

  /** A request that has left the hash leaves the scheduler. */
  lemma LetGo(hash: nat -> nat, table: seq<seq<nat>>, held: set<nat>, reqs: map<nat, Request>, i: nat)
    requires HashOk(hash, table, held, reqs, Some(i)) && forall k | 0 <= k < |table| :: i !in table[k]
    ensures HashOk(hash, table, held - {i}, reqs, None)
    ensures HashOk(hash, table, held - {i}, reqs - {i}, None)
  {
    hide Bucket;
  }

  /** Changing a request sets it on the move; a change that keeps end and flags does not. */
  lemma Changed(hash: nat -> nat, table: seq<seq<nat>>, held: set<nat>, reqs: map<nat, Request>, moving: Option<nat>,
                i: nat, r: Request)
    requires HashOk(hash, table, held, reqs, moving) && (moving.None? || moving == Some(i)) && i in held
    ensures HashOk(hash, table, held, reqs[i := r], Some(i))
    ensures End(r) == End(reqs[i]) && (Mergeable(r) ==> Mergeable(reqs[i])) ==>
              HashOk(hash, table, held, reqs[i := r], moving)
  {
    hide Bucket, Mergeable;
  }

  lemma TakenIn(hash: nat -> nat, table: seq<seq<nat>>, held: set<nat>, reqs: map<nat, Request>, i: nat, r: Request)
    requires HashOk(hash, table, held, reqs, None) && i !in reqs
    ensures HashOk(hash, table, held + {i}, reqs[i := r], Some(i))
    ensures !Mergeable(r) ==> HashOk(hash, table, held + {i}, reqs[i := r], None)
    ensures forall k | 0 <= k < |table| :: i !in table[k]
  {
    hide Bucket, Mergeable;
  }

  /** Each bio belongs to one live request; requests are contiguous; the counts are right. */
  ghost predicate Books(reqs: map<nat, Request>, owner: map<Bio, nat>, held: set<nat>, dispatched: seq<nat>,
                        lastMerge: Option<nat>, nrSorted: int, nextId: nat)
  {
    && Owned(reqs, owner)
    && (forall i | i in reqs :: WellFormed(reqs[i]) && i < nextId)
    && (forall i | i in held :: i in reqs) && (forall i | i in reqs :: i in held || i in dispatched)
    && (forall i | i in dispatched :: i in reqs && i !in held)
    && nrSorted == |held|
    && (lastMerge.Some? ==> lastMerge.value in held)
  }

  lemma BooksNew(reqs: map<nat, Request>, owner: map<Bio, nat>, held: set<nat>, dispatched: seq<nat>,
                 lastMerge: Option<nat>, nrSorted: int, nextId: nat, bio: Bio, r: Request, last: Option<nat>)
    requires last == lastMerge || last == Some(nextId)
    requires Books(reqs, owner, held, dispatched, lastMerge, nrSorted, nextId) && bio !in owner
    requires r.bios == [bio] && r.sector == bio.sector && r.nr == bio.n && r.dev == bio.dev
    ensures nextId !in reqs
    ensures Books(reqs[nextId := r], owner[bio := nextId], held + {nextId}, dispatched, last, nrSorted + 1, nextId + 1)
  {
    hide Owned, WellFormed;
    Single(bio, r);
    OwnedGrown(reqs, owner, nextId, bio, r);
  }

  /** The checks of attempt_merge, but for the device's limits */
  predicate Joinable(a: Request, b: Request) {
    Mergeable(a) && Mergeable(b) && End(a) == b.sector && a.dev == b.dev && !b.special
  }

  /** A bio merged to the front of a request closes the gap to the request before it. */
  predicate FrontJoins(reqs: map<nat, Request>, bio: Bio, prev: Option<nat>, joins: bool) {
    && prev.Some? && joins && prev.value in reqs
    && var p := reqs[prev.value]; !p.nomerge && p.dev == bio.dev && p.sector + p.nr == bio.sector
  }

  lemma OwnerFacts(reqs: map<nat, Request>, owner: map<Bio, nat>, held: set<nat>, dispatched: seq<nat>,
                   lastMerge: Option<nat>, nrSorted: int, nextId: nat, bio: Bio)
    requires Books(reqs, owner, held, dispatched, lastMerge, nrSorted, nextId) && bio in owner
    ensures owner[bio] in reqs && bio in reqs[owner[bio]].bios && reqs[owner[bio]].dev == bio.dev
  {
  }

  datatype Verdict = NoMerge | Back(req: nat) | Front(req: nat)

  /** What the model takes from elsewhere: the limits of the device, the scheduler's veto, its
      neighbours in sector order and its own front-merge lookup. */
  datatype Oracle = Oracle(skip: bool, nomerge: bool, allow: nat -> bool, fits: bool, joins: bool, offer: Option<nat>,
                           latter: nat -> Option<nat>, former: nat -> Option<nat>)

  /** The part of a request queue that merging works on. */
  class MergeQueue {
    const hash: nat -> nat
    var table: seq<seq<nat>>
    var held: set<nat>                // requests in the scheduler
    var reqs: map<nat, Request>       // live requests
    var dispatched: seq<nat>
    var lastMerge: Option<nat>
    var nrSorted: int
    var nextId: nat
    ghost var owner: map<Bio, nat>

    ghost predicate Conserved()
      reads this`held, this`reqs, this`dispatched, this`lastMerge, this`nrSorted, this`nextId, this`owner
    {
      Books(reqs, owner, held, dispatched, lastMerge, nrSorted, nextId)
    }

    ghost predicate Hashed(moving: Option<nat>)
      reads this`table, this`held, this`reqs
    {
      HashOk(hash, table, held, reqs, moving)
    }

    ghost predicate Valid()
      reads this
    {
      Conserved() && Hashed(None)
    }

    constructor (hash: nat -> nat)
      ensures Valid() && reqs == map[] && owner == map[]
    {
      this.hash := hash;
      table := seq(ELV_HASH_ENTRIES, _ => []);
      held, reqs, dispatched, lastMerge, nrSorted, nextId, owner := {}, map[], [], None, 0, 0, map[];
    }

    /** elv_rqhash_add */
    method RqhashAdd(i: nat)
      requires Hashed(Some(i)) && i in held && forall k | 0 <= k < |table| :: i !in table[k]
      modifies this`table
      ensures Hashed(None)
    {
      Rehashed(hash, table, held, reqs, i);
      var k := Bucket(hash, End(reqs[i]));
      table := table[k := [i] + table[k]];
    }

    /** elv_rqhash_reposition */
    method RqhashReposition(i: nat)
      requires (Hashed(Some(i)) || Hashed(None)) && i in held
      modifies this`table
      ensures Hashed(None)
    {
      Unhashed(hash, table, held, reqs, if Hashed(None) then None else Some(i), i);
      table := Unhash(table, i);
      RqhashAdd(i);
    }

    /** elv_rqhash_find: agrees with a scan of all held requests that can merge. */
    method RqhashFind(offset: nat) returns (r: Option<nat>)
      requires Hashed(None)
      modifies this`table
      ensures Hashed(None)
      ensures match r
              case None => forall i | i in held && Mergeable(reqs[i]) :: End(reqs[i]) != offset
              case Some(i) => i in held && i in reqs && Mergeable(reqs[i]) && End(reqs[i]) == offset
    {
      var chain, k := table[Bucket(hash, offset)], 0;
      r := None;
      while k < |chain|
        invariant Hashed(None) && k <= |chain| && r.None?
        invariant forall i | i in chain :: i in held && i in reqs
        invariant forall i | i in held && Mergeable(reqs[i]) && End(reqs[i]) == offset :: i in chain[k..]
      {
        var i := chain[k];
        assert chain[k..] == [i] + chain[k + 1..];
        if !Mergeable(reqs[i]) {
          Forgotten(hash, table, held, reqs, i);
          table := Unhash(table, i);
        } else if End(reqs[i]) == offset {
          r := Some(i);
          return;
        }
        k := k + 1;
      }
    }

    /** elv_rq_merge_ok */
    predicate MergeOk(i: nat, bio: Bio, allow: nat -> bool)
      requires i in reqs
      reads this`reqs
    {
      Mergeable(reqs[i]) && reqs[i].dev == bio.dev && !reqs[i].special && allow(i)
    }

    /** elv_try_merge */
    function TryMerge(i: nat, bio: Bio, allow: nat -> bool): Verdict
      requires i in reqs
      reads this`reqs
    {
      if !MergeOk(i, bio, allow) then NoMerge
      else if End(reqs[i]) == bio.sector then Back(i)
      else if reqs[i].sector == bio.sector + bio.n then Front(i)
      else NoMerge
    }

    /** A held request that may take the bio: one of the same device and direction. */
    ghost predicate Takes(i: nat, bio: Bio)
      reads this`reqs, this`held
    {
      i in held && i in reqs && !reqs[i].nomerge && !reqs[i].special && reqs[i].dev == bio.dev
    }

    /** A merge that keeps the sectors in sequence. */
    ghost predicate Fits(v: Verdict, bio: Bio)
      reads this`reqs, this`held
    {
      match v
      case NoMerge => true
      case Back(i) => Takes(i, bio) && reqs[i].sector + reqs[i].nr == bio.sector
      case Front(i) => Takes(i, bio) && reqs[i].sector == bio.sector + bio.n
    }

    /** No merge is missed: no held request ends where the bio starts, or one that does may not take
        it; neither the last merged request nor the scheduler's offer may. */
    ghost predicate NoneFound(bio: Bio, o: Oracle)
      reads this`reqs, this`held, this`lastMerge
    {
      && (|| (forall i | i in held && i in reqs && !reqs[i].nomerge :: reqs[i].sector + reqs[i].nr != bio.sector)
          || exists i | i in held && i in reqs ::
               reqs[i].sector + reqs[i].nr == bio.sector && !(Takes(i, bio) && o.allow(i)))
      && (lastMerge.Some? && o.allow(lastMerge.value) ==>
            !Fits(Back(lastMerge.value), bio) && !Fits(Front(lastMerge.value), bio))
      && (o.offer.Some? ==> !(Takes(o.offer.value, bio) && o.allow(o.offer.value)))
    }

    /** elv_merge; the scheduler's lookup offers only requests that start where the bio ends. */
    method ElvMerge(bio: Bio, o: Oracle) returns (v: Verdict)
      requires Conserved() && Hashed(None)
      requires o.offer.Some? ==> o.offer.value in held && reqs[o.offer.value].sector == bio.sector + bio.n
      modifies this`table
      ensures Hashed(None) && Fits(v, bio)
      ensures v.Back? ==> o.allow(v.req)
      ensures v.Front? ==> o.allow(v.req) && (lastMerge == Some(v.req) || o.offer == Some(v.req))
      ensures v == NoMerge ==> NoneFound(bio, o)
    {
      hide HashOk, WellFormed, Owned;
      if lastMerge.Some? {
        v := TryMerge(lastMerge.value, bio, o.allow);
        if v != NoMerge {
          return;
        }
      }
      var r := RqhashFind(bio.sector);
      if r.Some? && MergeOk(r.value, bio, o.allow) {
        return Back(r.value);
      }
      if o.offer.Some? && MergeOk(o.offer.value, bio, o.allow) {
        return Front(o.offer.value);
      }
      v := NoMerge;
    }

    /** attempt_merge of q into r, with elv_merge_requests. r may just have grown. */
    method AttemptMerge(r: nat, q: nat, joins: bool, ghost moving: Option<nat>) returns (merged: bool)
      requires Conserved() && Hashed(moving) && (moving.None? || moving == Some(r))
      requires r in held && q in held && r != q
      modifies this`table, this`held, this`reqs, this`lastMerge, this`nrSorted, this`owner
      ensures Conserved() && owner.Keys == old(owner.Keys)
      ensures owner == if merged then HandOver(old(owner), r, q) else old(owner)
      ensures merged == (joins && old(!reqs[r].nomerge && !reqs[q].nomerge && !reqs[q].special && reqs[r].dev == reqs[q].dev
                                       && reqs[r].sector + reqs[r].nr == reqs[q].sector))
      ensures merged ==> && Hashed(None) && q !in reqs && r in held && reqs.Keys == old(reqs.Keys) - {q}
                         && reqs[r].bios == old(reqs[r].bios + reqs[q].bios) && lastMerge == Some(r)
      ensures !merged ==> Hashed(moving) && unchanged(this`table, this`held, this`reqs, this`lastMerge, this`nrSorted, this`owner)
    {
      hide HashOk, WellFormed, Owned, HandOver, Unhash;
      var a, b := reqs[r], reqs[q];
      if !Joinable(a, b) || !joins {
        return false;
      }
      var both := a.(bios := a.bios + b.bios, nr := a.nr + b.nr);
      OwnedJoined(reqs, owner, r, q, both);
      JoinedRequests(a, b, both);
      Changed(hash, table, held, reqs, moving, r, both);
      reqs := reqs[r := both];
      RqhashReposition(r);
      Unhashed(hash, table, held, reqs, None, q);
      LetGo(hash, Unhash(table, q), held, reqs, q);
      table := Unhash(table, q);
      nrSorted := nrSorted - 1;
      lastMerge := Some(r);
      held, reqs := held - {q}, reqs - {q};
      assert reqs == (old(reqs) - {q})[r := both];
      owner := HandOver(owner, r, q);
      merged := true;
    }

    /** elv_merged_request */
    method MergedRequest(r: nat, back: bool)
      requires r in held && (Hashed(None) || (back && Hashed(Some(r))))
      modifies this`table, this`lastMerge
      ensures Hashed(None) && lastMerge == Some(r)
    {
      if back {
        RqhashReposition(r);
      }
      lastMerge := Some(r);
    }

    /** The device's limits rule the merge out: the request takes no more. */
    method Refuse(r: nat)
      requires Conserved() && Hashed(None) && r in held
      modifies this`reqs, this`lastMerge
      ensures Conserved() && Hashed(None) && owner == old(owner)
      ensures reqs == old(reqs)[r := old(reqs)[r].(nomerge := true)]
      ensures lastMerge == if old(lastMerge) == Some(r) then None else old(lastMerge)
    {
      hide HashOk, Owned;
      var no := reqs[r].(nomerge := true);
      OwnedSame(reqs, owner, r, no);
      Changed(hash, table, held, reqs, None, r, no);
      reqs := reqs[r := no];
      if lastMerge == Some(r) {
        lastMerge := None;
      }
    }

    /** The back merge arm of __make_request */
    method BackMerge(r: nat, bio: Bio, next: Option<nat>, joins: bool)
      requires Conserved() && Hashed(None) && Fits(Back(r), bio) && bio !in owner
      requires next.Some? ==> next.value in held && next.value != r
      modifies this`table, this`held, this`reqs, this`lastMerge, this`nrSorted, this`owner
      ensures Conserved() && Hashed(None) && owner.Keys == old(owner.Keys) + {bio}
      ensures bio in owner && owner[bio] == r && lastMerge == Some(r)
      ensures reqs.Keys == if next.Some? && joins && old(Takes(next.value, bio) && reqs[next.value].sector == bio.sector + bio.n)
                           then old(reqs.Keys) - {next.value} else old(reqs.Keys)
    {
      hide HashOk, Owned, WellFormed;
      NotYet(reqs, owner, r, bio);
      var grown := reqs[r].(bios := reqs[r].bios + [bio], nr := reqs[r].nr + bio.n);
      Grown(reqs[r], bio, grown);
      OwnedGrown(reqs, owner, r, bio, grown);
      Changed(hash, table, held, reqs, None, r, grown);
      reqs, owner := reqs[r := grown], owner[bio := r];
      var merged := false;
      if next.Some? {
        merged := AttemptMerge(r, next.value, joins, Some(r));
      }
      if !merged {
        MergedRequest(r, true);
      }
    }

    /** The front merge arm of __make_request */
    method FrontMerge(r: nat, bio: Bio, prev: Option<nat>, joins: bool)
      requires Conserved() && Hashed(None) && Fits(Front(r), bio) && bio !in owner
      requires prev.Some? ==> prev.value in held && prev.value != r
      modifies this`table, this`held, this`reqs, this`lastMerge, this`nrSorted, this`owner
      ensures Conserved() && Hashed(None) && owner.Keys == old(owner.Keys) + {bio}
      ensures reqs.Keys == if FrontJoins(old(reqs), bio, prev, joins) then old(reqs.Keys) - {r} else old(reqs.Keys)
      ensures bio in owner && owner[bio] == if FrontJoins(old(reqs), bio, prev, joins) then prev.value else r
      ensures lastMerge == Some(owner[bio])
    {
      hide HashOk, Owned, WellFormed;
      NotYet(reqs, owner, r, bio);
      var grown := reqs[r].(bios := [bio] + reqs[r].bios, sector := bio.sector, nr := reqs[r].nr + bio.n);
      Grown(reqs[r], bio, grown);
      OwnedGrown(reqs, owner, r, bio, grown);
      Changed(hash, table, held, reqs, None, r, grown);
      reqs, owner := reqs[r := grown], owner[bio := r];
      var merged := false;
      if prev.Some? {
        merged := AttemptMerge(prev.value, r, joins, None);
      }
      if !merged {
        MergedRequest(r, false);
      }
    }

    /** A request of its own: init_request_from_bio and the sorted insertion of elv_insert. */
    method NewRequest(bio: Bio, nomerge: bool)
      requires Conserved() && Hashed(None) && bio !in owner
      modifies this
      ensures Conserved() && Hashed(None) && owner == old(owner)[bio := old(nextId)] && nextId == old(nextId) + 1
      ensures dispatched == old(dispatched) && held == old(held) + {old(nextId)}
      ensures reqs == old(reqs)[old(nextId) := Request(bio.sector, bio.n, [bio], bio.dev, false, nomerge)]
    {
      var i, r := nextId, Request(bio.sector, bio.n, [bio], bio.dev, false, nomerge);
      hide HashOk, Books, Bucket;
      BooksNew(reqs, owner, held, dispatched, lastMerge, nrSorted, nextId, bio, r, lastMerge);
      BooksNew(reqs, owner, held, dispatched, lastMerge, nrSorted, nextId, bio, r, Some(nextId));
      TakenIn(hash, table, held, reqs, i, r);
      nextId := nextId + 1;
      reqs, owner := reqs[i := r], owner[bio := i];
      held := held + {i};
      nrSorted := nrSorted + 1;
      if Mergeable(r) {
        RqhashAdd(i);
        if lastMerge.None? {
          lastMerge := Some(i);
        }
      }
    }

    /** A bio is for the device and direction of the request it is in. */
    lemma Owner(bio: Bio)
      requires Conserved() && bio in owner
      ensures owner[bio] in reqs && bio in reqs[owner[bio]].bios && reqs[owner[bio]].dev == bio.dev
    {
      OwnerFacts(reqs, owner, held, dispatched, lastMerge, nrSorted, nextId, bio);
    }

    /** __make_request for an ordinary bio: it ends up in one request, whatever is merged. The
        verdict says in which, if the device's limits allow; otherwise it gets one of its own. */
    method MakeRequest(bio: Bio, o: Oracle) returns (v: Verdict)
      requires Valid() && bio !in owner
      requires o.offer.Some? ==> o.offer.value in held && reqs[o.offer.value].sector == bio.sector + bio.n
      requires forall i | i in held && o.latter(i).Some? :: o.latter(i).value in held && o.latter(i).value != i
      requires forall i | i in held && o.former(i).Some? :: o.former(i).value in held && o.former(i).value != i
      modifies this
      ensures Valid() && owner.Keys == old(owner.Keys) + {bio}
      ensures owner[bio] in reqs && reqs[owner[bio]].dev == bio.dev && bio in reqs[owner[bio]].bios
      ensures v == NoMerge ==> o.skip || old(NoneFound(bio, o))
      ensures v != NoMerge ==> !o.skip && old(Fits(v, bio)) && o.allow(v.req)
      ensures match if o.fits then v else NoMerge
              case Back(r) => owner[bio] == r && nextId == old(nextId)
              case Front(r) =>
                && owner[bio] == (if FrontJoins(old(reqs), bio, o.former(r), o.joins) then o.former(r).value else r)
                && nextId == old(nextId)
              case NoMerge => owner[bio] == old(nextId) && nextId == old(nextId) + 1
    {
      hide HashOk, MergeQueue.Conserved, MergeQueue.NoneFound;
      v := NoMerge;
      if !o.skip {
        v := ElvMerge(bio, o);
      }
      match v {
        case NoMerge =>
        case Back(r) =>
          if o.fits {
            BackMerge(r, bio, o.latter(r), o.joins);
            Owner(bio);
            return;
          }
          Refuse(r);
        case Front(r) =>
          if o.fits {
            FrontMerge(r, bio, o.former(r), o.joins);
            Owner(bio);
            return;
          }
          Refuse(r);
      }
      NewRequest(bio, o.nomerge);
      Owner(bio);
    }

    /** elv_dispatch_add_tail, and the bookkeeping of elv_dispatch_sort */
    method Dispatch(i: nat)
      requires Valid() && i in held
      modifies this`table, this`held, this`dispatched, this`lastMerge, this`nrSorted
      ensures Valid() && held == old(held) - {i} && dispatched == old(dispatched) + [i]
    {
      hide HashOk, Owned, WellFormed, Unhash;
      if lastMerge == Some(i) {
        lastMerge := None;
      }
      Unhashed(hash, table, held, reqs, None, i);
      LetGo(hash, Unhash(table, i), held, reqs, i);
      table := Unhash(table, i);
      nrSorted := nrSorted - 1;
      held := held - {i};
      dispatched := dispatched + [i];
    }
  }
}
