/** Ending a request bit by bit: __end_that_request_first of kernel/linux/block/ll_rw_blk.c, for
    ordinary requests. */
module PartialCompletion {

  /** struct bio_vec: len bytes of a page from offset on */
  datatype Vec = Vec(page: nat, offset: nat, len: nat)

  /** struct bio: size bytes are left, in the vectors from idx on. */
  datatype Bio = Bio(id: nat, size: nat, idx: nat, vecs: seq<Vec>)

  /** One byte of a transfer: which bio it belongs to and where it is in memory. */
  datatype Byte = Byte(bio: nat, page: nat, at: nat)

  function Sum(vecs: seq<Vec>): nat {
    if vecs == [] then 0 else vecs[0].len + Sum(vecs[1..])
  }

  predicate WellFormed(b: Bio) {
    b.idx <= |b.vecs| && b.size == Sum(b.vecs[b.idx..])
  }

  // The bytes still described.

  function VecBytes(id: nat, v: Vec): (s: seq<Byte>)
    ensures |s| == v.len
  {
    seq(v.len, i requires 0 <= i => Byte(id, v.page, v.offset + i))
  }

  function Bytes(id: nat, vecs: seq<Vec>): (s: seq<Byte>)
    ensures |s| == Sum(vecs)
  {
    if vecs == [] then [] else VecBytes(id, vecs[0]) + Bytes(id, vecs[1..])
  }

  function BioBytes(b: Bio): (s: seq<Byte>)
    requires WellFormed(b)
    ensures |s| == b.size
  {
    Bytes(b.id, b.vecs[b.idx..])
  }

  predicate AllWellFormed(bios: seq<Bio>) {
    forall i | 0 <= i < |bios| :: WellFormed(bios[i])
  }

  function Described(bios: seq<Bio>): seq<Byte>
    requires AllWellFormed(bios)
  {
    if bios == [] then [] else BioBytes(bios[0]) + Described(bios[1..])
  }

  lemma {:induction false} BytesSplit(id: nat, p: seq<Vec>, q: seq<Vec>)
    ensures Bytes(id, p + q) == Bytes(id, p) + Bytes(id, q) && Sum(p + q) == Sum(p) + Sum(q)
    decreases |p|
  {
    if p == [] {
      assert p + q == q;
    } else {
      BytesSplit(id, p[1..], q);
      assert (p + q)[1..] == p[1..] + q;
      Assoc(VecBytes(id, p[0]), Bytes(id, p[1..]), Bytes(id, q));
    }
  }

  lemma Assoc<T>(x: seq<T>, y: seq<T>, z: seq<T>)
    ensures (x + y) + z == x + (y + z)
  {
  }

  /** What bio_iovec(bio) becomes when its first n bytes are done. */
  function Trim(v: Vec, n: nat): Vec
    requires n <= v.len
  {
    v.(offset := v.offset + n, len := v.len - n)
  }

  /** The bio once the k vectors from idx on, and n bytes of the next, are done. */
  function Advanced(b: Bio, k: nat, n: nat): Bio
    requires b.idx + k < |b.vecs| && n <= b.vecs[b.idx + k].len && Sum(b.vecs[b.idx..b.idx + k]) + n <= b.size
  {
    var i := b.idx + k;
    b.(size := b.size - (Sum(b.vecs[b.idx..i]) + n), idx := i, vecs := b.vecs[i := Trim(b.vecs[i], n)])
  }

  /** It describes what it did before, without those bytes at its start. */
  lemma AdvancedBytes(b: Bio, k: nat, n: nat)
    requires WellFormed(b) && b.idx + k < |b.vecs| && n <= b.vecs[b.idx + k].len
    ensures var done := Sum(b.vecs[b.idx..b.idx + k]) + n;
            && done <= b.size && WellFormed(Advanced(b, k, n))
            && BioBytes(Advanced(b, k, n)) == BioBytes(b)[done..]
  {
    hide Bytes, VecBytes, Sum;
    var i := b.idx + k;
    var before, v, after := b.vecs[b.idx..i], b.vecs[i], b.vecs[i + 1..];
    var t := Trim(v, n);
    assert b.vecs[b.idx..] == before + ([v] + after);
    assert b.vecs[i := t][i..] == [t] + after;
    BytesSplit(b.id, before, [v] + after);
    BytesCons(b.id, v, after);
    BytesCons(b.id, t, after);
    TrimBytes(b.id, v, n);
    DropInto(Bytes(b.id, before), VecBytes(b.id, v), Bytes(b.id, after), n);
  }

  lemma BytesCons(id: nat, v: Vec, rest: seq<Vec>)
    ensures Bytes(id, [v] + rest) == VecBytes(id, v) + Bytes(id, rest) && Sum([v] + rest) == v.len + Sum(rest)
  {
    assert ([v] + rest)[1..] == rest;
  }

  lemma TrimBytes(id: nat, v: Vec, n: nat)
    requires n <= v.len
    ensures VecBytes(id, Trim(v, n)) == VecBytes(id, v)[n..]
  {
  }

  lemma DropInto<T>(x: seq<T>, y: seq<T>, z: seq<T>, n: nat)
    requires n <= |y|
    ensures (x + (y + z))[|x| + n..] == y[n..] + z
  {
  }

  // What the bios are told.

  /** Bytes reported to the bio with this id. */
  function Reported(log: seq<(nat, nat)>, id: nat): nat {
    if log == [] then 0
    else Reported(log[..|log| - 1], id) + if log[|log| - 1].0 == id then log[|log| - 1].1 else 0
  }

  /** Bytes left in the bio with this id. */
  function Left(bios: seq<Bio>, id: nat): nat {
    if bios == [] then 0 else (if bios[0].id == id then bios[0].size else 0) + Left(bios[1..], id)
  }

  /** For every bio, what was reported and what is left make up its account. */
  ghost predicate Accounted(log: seq<(nat, nat)>, bios: seq<Bio>, account: nat -> nat) {
    forall id: nat :: Reported(log, id) + Left(bios, id) == account(id)
  }

  lemma ReportWhole(log: seq<(nat, nat)>, bios: seq<Bio>, account: nat -> nat)
    requires Accounted(log, bios, account) && bios != []
    ensures Accounted(log + [(bios[0].id, bios[0].size)], bios[1..], account)
  {
    var entry := (bios[0].id, bios[0].size);
    var longer := log + [entry];
    assert longer[..|longer| - 1] == log;
    forall id: nat ensures Reported(longer, id) + Left(bios[1..], id) == account(id) {
      assert Reported(log, id) + Left(bios, id) == account(id);
    }
  }

  lemma ReportPart(log: seq<(nat, nat)>, bios: seq<Bio>, account: nat -> nat, b: Bio)
    requires Accounted(log, bios, account) && bios != [] && b.id == bios[0].id && b.size <= bios[0].size
    ensures Accounted(log + [(b.id, bios[0].size - b.size)], [b] + bios[1..], account)
  {
    var longer, rest := log + [(b.id, bios[0].size - b.size)], [b] + bios[1..];
    assert longer[..|longer| - 1] == log && rest[1..] == bios[1..];
    forall id: nat ensures Reported(longer, id) + Left(rest, id) == account(id) {
      assert Reported(log, id) + Left(bios, id) == account(id);
    }
  }

  lemma DropHead(bios: seq<Bio>, d: seq<Byte>, t: nat)
    requires AllWellFormed(bios) && bios != [] && t <= |d| && Described(bios) == d[t..]
    ensures AllWellFormed(bios[1..]) && t + bios[0].size <= |d| && Described(bios[1..]) == d[t + bios[0].size..]
  {
    var b := BioBytes(bios[0]);
    assert d[t + |b|..] == d[t..][|b|..];
  }

  lemma ReplaceHead(bios: seq<Bio>, d: seq<Byte>, t: nat, b: Bio, n: nat)
    requires AllWellFormed(bios) && bios != [] && t <= |d| && Described(bios) == d[t..]
    requires WellFormed(b) && n <= bios[0].size && BioBytes(b) == BioBytes(bios[0])[n..]
    ensures AllWellFormed([b] + bios[1..]) && t + n <= |d| && Described([b] + bios[1..]) == d[t + n..]
  {
    var rest := bios[1..];
    assert AllWellFormed(rest) && AllWellFormed([b] + rest);
    DescribedCons(bios[0], rest);
    DescribedCons(b, rest);
    assert bios == [bios[0]] + rest;
    hide Described, BioBytes, WellFormed;
    DropFront(d, t, n, BioBytes(bios[0]), Described(rest));
  }

  lemma DescribedCons(b: Bio, rest: seq<Bio>)
    requires WellFormed(b) && AllWellFormed(rest) && AllWellFormed([b] + rest)
    ensures Described([b] + rest) == BioBytes(b) + Described(rest)
  {
    assert ([b] + rest)[1..] == rest;
  }

  lemma DropFront<T>(d: seq<T>, t: nat, n: nat, x: seq<T>, y: seq<T>)
    requires t <= |d| && d[t..] == x + y && n <= |x|
    ensures t + n <= |d| && d[t + n..] == x[n..] + y
  {
    assert d[t + n..] == d[t..][n..];
  }

  /** The vectors done so far do not exceed what was to be done. */
  lemma {:induction false} SumTake(vecs: seq<Vec>, i: nat)
    requires i <= |vecs|
    ensures Sum(vecs) == Sum(vecs[..i]) + Sum(vecs[i..])
    ensures i < |vecs| ==> Sum(vecs[..i + 1]) == Sum(vecs[..i]) + vecs[i].len
    decreases i
  {
    if i == 0 {
      assert vecs[0..] == vecs;
      if vecs != [] { assert vecs[..1][1..] == []; }
    } else {
      SumTake(vecs[1..], i - 1);
      assert vecs[..i][1..] == vecs[1..][..i - 1];
      if i < |vecs| { assert vecs[..i + 1][1..] == vecs[1..][..i]; }
    }
  }

  lemma VecsLeft(b: Bio, k: nat)
    requires WellFormed(b) && b.idx + k <= |b.vecs|
    ensures Sum(b.vecs[b.idx..b.idx + k]) <= b.size
    ensures Sum(b.vecs[b.idx..b.idx + k]) < b.size ==> b.idx + k < |b.vecs|
    ensures b.idx + k < |b.vecs| ==>
              Sum(b.vecs[b.idx..b.idx + k + 1]) == Sum(b.vecs[b.idx..b.idx + k]) + b.vecs[b.idx + k].len
  {
    var vecs := b.vecs[b.idx..];
    SumTake(vecs, k);
    assert vecs[..k] == b.vecs[b.idx..b.idx + k];
    if k < |vecs| { assert vecs[..k + 1] == b.vecs[b.idx..b.idx + k + 1]; }
    if k == |vecs| { assert vecs[..k] == vecs; }
  }

  lemma HeadFacts(bios: seq<Bio>)
    requires AllWellFormed(bios)
    ensures bios == [] ==> Described(bios) == []
    ensures bios != [] ==> bios[0].idx <= |bios[0].vecs| && Sum(bios[0].vecs[bios[0].idx..bios[0].idx + 0]) == 0
  {
  }

  /** When the call answers that no bio is left: all bytes are done and, unless more bytes were
      offered than there are, no empty bio is left over at the end. */
  predicate Finishes(bios: seq<Bio>, nrBytes: nat)
    requires AllWellFormed(bios)
  {
    var total := |Described(bios)|;
    nrBytes >= total && (nrBytes > total || |bios| <= 1 || bios[|bios| - 1].size > 0)
  }

  lemma NotEnough(start: seq<Bio>, d: seq<Byte>, bios: seq<Bio>, done: nat, n: nat)
    requires AllWellFormed(start) && d == Described(start) && AllWellFormed(bios) && bios != []
    requires done <= |d| && Described(bios) == d[done..] && n < bios[0].size
    ensures !Finishes(start, done + n)
  {
    HeadSize(bios);
  }

  lemma HeadWellFormed(bios: seq<Bio>)
    requires AllWellFormed(bios) && bios != []
    ensures WellFormed(bios[0])
  {
  }

  lemma AllDone(start: seq<Bio>, d: seq<Byte>, nr: nat, k: nat)
    requires AllWellFormed(start) && d == Described(start) && k == |start|
    requires k > 0 ==> nr > 0 || k == 1 || start[k - 1].size > 0
    ensures Finishes(start, |d| + nr)
  {
    hide Described, WellFormed;
  }

  lemma HeadSize(bios: seq<Bio>)
    requires AllWellFormed(bios) && bios != []
    ensures bios[0].size <= |Described(bios)|
  {
  }

  lemma NotFinished(start: seq<Bio>, d: seq<Byte>, bios: seq<Bio>, done: nat, bioBytes: nat, nextIdx: nat, k: nat)
    requires AllWellFormed(start) && d == Described(start) && AllWellFormed(bios) && bios != []
    requires done <= |d| && Described(bios) == d[done..] && k + |bios| == |start|
    requires bios[|bios| - 1] == start[|start| - 1]
    requires if nextIdx > 0 then bioBytes < bios[0].size else bioBytes == 0 && k > 0
    ensures !Finishes(start, done + bioBytes)
  {
    if nextIdx > 0 {
      NotEnough(start, d, bios, done, bioBytes);
    } else {
      LastSize(bios);
    }
  }

  lemma {:induction false} LastSize(bios: seq<Bio>)
    requires AllWellFormed(bios) && bios != []
    ensures bios[|bios| - 1].size <= |Described(bios)|
    decreases |bios|
  {
    if |bios| > 1 { LastSize(bios[1..]); }
  }

  /** An empty bio at the end lingers although every byte is done. */
  lemma EmptyBioLingers()
    ensures exists bios, n :: AllWellFormed(bios) && n == |Described(bios)| && !Finishes(bios, n)
  {
    var full, empty := Bio(0, 1, 0, [Vec(0, 0, 1)]), Bio(1, 0, 0, []);
    assert full.vecs[0..] == full.vecs && full.vecs[1..] == [] && empty.vecs[0..] == [];
    assert WellFormed(full) && WellFormed(empty);
    var bios := [full, empty];
    assert AllWellFormed(bios) && !Finishes(bios, |Described(bios)|);
  }

  /** Without empty bios, the answer tells whether bytes are left. */
  lemma FinishesIff(bios: seq<Bio>, nrBytes: nat)
    requires AllWellFormed(bios) && forall i | 0 <= i < |bios| :: bios[i].size > 0
    ensures Finishes(bios, nrBytes) <==> nrBytes >= |Described(bios)|
  {
  }

  /** The next vector of a bio that is not done altogether: done, or done in part. */
  method EndVec(bio: Bio, k: nat, bioBytes0: nat, nr0: nat) returns (stop: bool, nextIdx: nat, bioBytes: nat, nr: nat)
    requires WellFormed(bio) && bio.idx + k <= |bio.vecs| && bioBytes0 + nr0 < bio.size
    requires bioBytes0 == Sum(bio.vecs[bio.idx..bio.idx + k])
    ensures bio.idx + k < |bio.vecs|
    ensures stop ==> && nextIdx == k && nr == nr0 < bio.vecs[bio.idx + k].len
                     && bioBytes == bioBytes0 + nr0 == Sum(bio.vecs[bio.idx..bio.idx + k]) + nr
    ensures !stop ==> && nextIdx == k + 1 && bioBytes + nr == bioBytes0 + nr0
                      && bioBytes == Sum(bio.vecs[bio.idx..bio.idx + nextIdx])
  {
    VecsLeft(bio, k);
    hide Sum, WellFormed;
    var n := bio.vecs[bio.idx + k].len;
    stop, nextIdx, bioBytes, nr := n > nr0, k, bioBytes0, nr0;
    if n > nr {
      bioBytes := bioBytes + nr;
    } else {
      nextIdx := nextIdx + 1;
      bioBytes := bioBytes + n;
      nr := nr - n;
    }
  }

  /** struct request, with a log of the bio_endio calls made for it */
  class Request {
    var bios: seq<Bio>
    var log: seq<(nat, nat)>
    ghost const account: nat -> nat

    /** The vector index is inside its bio, and no byte is lost or reported twice. */
    ghost predicate Valid()
      reads this
    {
      AllWellFormed(bios) && Accounted(log, bios, account)
    }

    constructor (bios: seq<Bio>)
      requires AllWellFormed(bios)
      ensures Valid() && this.bios == bios && log == [] && forall id: nat :: account(id) == Left(bios, id)
    {
      this.bios, log := bios, [];
      account := (id: nat) => Left(bios, id);
    }

    /** The first bio is done altogether. */
    method EndBio(ghost d: seq<Byte>, ghost done: nat)
      requires Valid() && bios != [] && done <= |d| && Described(bios) == d[done..]
      modifies this
      ensures Valid() && bios == old(bios)[1..] && log == old(log) + [(old(bios)[0].id, old(bios)[0].size)]
      ensures done + old(bios)[0].size <= |d| && Described(bios) == d[done + old(bios)[0].size..]
    {
      hide Accounted, Described, WellFormed;
      ReportWhole(log, bios, account);
      DropHead(bios, d, done);
      log := log + [(bios[0].id, bios[0].size)];
      bios := bios[1..];
    }

    /** The first k vectors of the first bio are done, and nr bytes of the next one. */
    method EndPart(k: nat, nr: nat, bioBytes: nat, ghost d: seq<Byte>, ghost done: nat)
      requires Valid() && bios != [] && done <= |d| && Described(bios) == d[done..]
      requires bios[0].idx + k < |bios[0].vecs| && nr <= bios[0].vecs[bios[0].idx + k].len
      requires bioBytes == Sum(bios[0].vecs[bios[0].idx..bios[0].idx + k]) + nr
      modifies this
      ensures Valid() && |bios| == |old(bios)| && log == old(log) + [(old(bios)[0].id, bioBytes)]
      ensures done + bioBytes <= |d| && Described(bios) == d[done + bioBytes..]
    {
      hide Bytes, Sum, Accounted, Described, WellFormed, BioBytes;
      var bio := bios[0];
      AdvancedBytes(bio, k, nr);
      var b := Advanced(bio, k, nr);
      ReportPart(log, bios, account, b);
      ReplaceHead(bios, d, done, b, bioBytes);
      log := log + [(bio.id, bioBytes)];
      bios := [b] + bios[1..];
    }

    /** __end_that_request_first: the first nrBytes bytes of what is described are done. It
        answers whether a bio is left. */
    method EndFirst(nrBytes: nat) returns (more: bool)
      requires Valid()
      modifies this
      ensures Valid()
      ensures var d := old(Described(bios));
              Described(bios) == d[if nrBytes < |d| then nrBytes else |d|..]
      ensures (more <==> bios != []) && (more <==> !Finishes(old(bios), nrBytes))
    {
      hide Sum, Accounted, Described, WellFormed, Finishes, AllWellFormed, BioBytes, Bytes, Advanced, Trim;
      ghost var d, start, k: nat := Described(bios), bios, 0;
      var nr: nat, bioBytes: nat, nextIdx: nat := nrBytes, 0, 0;
      ghost var done: nat := 0;
      assert d[0..] == d;
      HeadFacts(bios);
      while bios != []
        invariant Valid() && done <= |d| && Described(bios) == d[done..]
        invariant done + bioBytes + nr == nrBytes
        invariant k + |bios| == |start| && (bios != [] ==> bios[|bios| - 1] == start[|start| - 1])
        invariant k > 0 && bios != [] ==> nr > 0
        invariant k > 0 && bios == [] ==> nr > 0 || k == 1 || start[|start| - 1].size > 0
        invariant bios == [] ==> bioBytes == 0
        invariant bios != [] ==> && bios[0].idx + nextIdx <= |bios[0].vecs|
                                 && bioBytes == Sum(bios[0].vecs[bios[0].idx..bios[0].idx + nextIdx])
                                 && (if nextIdx > 0 then bioBytes + nr < bios[0].size else bioBytes == 0)
        decreases |bios|, if bios == [] then 0 else |bios[0].vecs| - nextIdx
      {
        var bio := bios[0];
        if nr >= bio.size {
          EndBio(d, done);
          HeadFacts(bios);
          k, done := k + 1, done + bio.size;
          nr := nr - bio.size;
          nextIdx, bioBytes := 0, 0;
        } else {
          HeadWellFormed(bios);
          var stop;
          stop, nextIdx, bioBytes, nr := EndVec(bio, nextIdx, bioBytes, nr);
          if stop {
            NotEnough(start, d, bios, done, bioBytes);
            break;
          }
        }
        if bios != [] && nr == 0 {
          NotFinished(start, d, bios, done, bioBytes, nextIdx, k);
          break;
        }
      }
      if bios == [] {
        HeadFacts(bios);
        AllDone(start, d, nr, k);
        return false;
      }
      if bioBytes > 0 {
        HeadWellFormed(bios);
        VecsLeft(bios[0], nextIdx);
        EndPart(nextIdx, nr, bioBytes, d, done);
      }
      more := true;
    }
  }
}
