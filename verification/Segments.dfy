/** Segment counting and scatter mapping: blk_recount_segments and blk_rq_map_sg of
    kernel/linux/block/ll_rw_blk.c. */
module Segments {
  import opened Collections

  /** struct bio_vec: where it is in physical memory; high says whether it will be bounced. */
  datatype Vec = Vec(phys: nat, len: nat, high: bool)

  /** What the queue and the architecture impose: the boundary mask and the rules for virtual
      merging are any functions of the vectors. */
  datatype Limits = Limits(cluster: bool, maxSegment: nat, sameWindow: (Vec, Vec) -> bool,
                           virtMergeable: (Vec, Vec) -> bool, virtOversize: nat -> bool, virtStart: Vec -> nat)

  /** struct scatterlist */
  datatype Entry = Entry(phys: nat, len: nat)

  /** BIOVEC_PHYS_MERGEABLE and BIOVEC_SEG_BOUNDARY */
  predicate Adjoin(q: Limits, a: Vec, b: Vec) {
    a.phys + a.len == b.phys && q.sameWindow(a, b)
  }

  // The careful count, bio by bio.

  /** The local variables of blk_recount_segments */
  datatype Count = Count(prev: Option<Vec>, highPrev: bool, segSize: nat, hwSize: nat, phys: nat, hw: nat)

  const FRESH := Count(None, true, 0, 0, 0, 0)

  /** Does the vector join the segment before it? */
  predicate Joins(q: Limits, c: Count, v: Vec) {
    && !v.high && !c.highPrev && q.cluster && c.prev.Some?
    && c.segSize + v.len <= q.maxSegment && Adjoin(q, c.prev.value, v)
    && !q.virtOversize(c.hwSize + v.len)
  }

  function CountVec(q: Limits, c: Count, v: Vec): Count {
    if Joins(q, c, v) then
      c.(prev := Some(v), segSize := c.segSize + v.len, hwSize := c.hwSize + v.len)
    else
      var grows := !v.high && !c.highPrev && c.prev.Some? && q.virtMergeable(c.prev.value, v) &&
                   !q.virtOversize(c.hwSize + v.len);
      Count(Some(v), v.high, v.len, if grows then c.hwSize + v.len else q.virtStart(v) + v.len,
            c.phys + 1, if grows then c.hw else c.hw + 1)
  }

  function Counted(q: Limits, vecs: seq<Vec>): Count {
    if vecs == [] then FRESH else CountVec(q, Counted(q, vecs[..|vecs| - 1]), vecs[|vecs| - 1])
  }

  // The greedy mapping, across bios.

  function MapVec(q: Limits, prev: Option<Vec>, sg: seq<Entry>, v: Vec): seq<Entry> {
    if prev.Some? && sg != [] && q.cluster && sg[|sg| - 1].len + v.len <= q.maxSegment && Adjoin(q, prev.value, v)
    then sg[..|sg| - 1] + [sg[|sg| - 1].(len := sg[|sg| - 1].len + v.len)]
    else sg + [Entry(v.phys, v.len)]
  }

  function Last(vecs: seq<Vec>): Option<Vec> {
    if vecs == [] then None else Some(vecs[|vecs| - 1])
  }

  function Mapped(q: Limits, vecs: seq<Vec>): (sg: seq<Entry>)
    ensures vecs != [] ==> sg != []
    ensures |sg| <= |vecs|
  {
    if vecs == [] then []
    else MapVec(q, Last(vecs[..|vecs| - 1]), Mapped(q, vecs[..|vecs| - 1]), vecs[|vecs| - 1])
  }

  // Of one and the same request.

  function Flat(bios: seq<seq<Vec>>): seq<Vec> {
    if bios == [] then [] else Flat(bios[..|bios| - 1]) + bios[|bios| - 1]
  }

  function TotalCount(q: Limits, bios: seq<seq<Vec>>): nat {
    if bios == [] then 0 else TotalCount(q, bios[..|bios| - 1]) + Counted(q, bios[|bios| - 1]).phys
  }

  /** The mapping is never behind: it has fewer entries than the count, or as many and no more
      in the last. */
  ghost predicate Ahead(sg: seq<Entry>, count: nat, segSize: nat) {
    |sg| < count || (|sg| == count && (sg != [] ==> sg[|sg| - 1].len <= segSize))
  }

  lemma StaysAhead(q: Limits, sg: seq<Entry>, prev: Option<Vec>, base: nat, c: Count, v: Vec)
    requires Ahead(sg, base + c.phys, c.segSize) && (c.prev.Some? ==> prev == c.prev && sg != [])
    ensures Ahead(MapVec(q, prev, sg, v), base + CountVec(q, c, v).phys, CountVec(q, c, v).segSize)
  {
  }

  lemma {:induction false} AheadInBio(q: Limits, before: seq<Vec>, vecs: seq<Vec>, base: nat)
    requires |Mapped(q, before)| <= base
    ensures |Mapped(q, before + vecs)| <= base + Counted(q, vecs).phys
    ensures vecs != [] ==> Ahead(Mapped(q, before + vecs), base + Counted(q, vecs).phys, Counted(q, vecs).segSize)
    ensures vecs != [] ==> Counted(q, vecs).prev == Last(vecs)
    decreases |vecs|
  {
    if vecs == [] {
      assert before + vecs == before;
    } else {
      var init, v := vecs[..|vecs| - 1], vecs[|vecs| - 1];
      AheadInBio(q, before, init, base);
      assert (before + vecs)[..|before + vecs| - 1] == before + init;
      var c, sg := Counted(q, init), Mapped(q, before + init);
      if init == [] {
        FirstOfBio(q, sg, Last(before + init), base, v);
      } else {
        assert Last(before + init) == Last(init);
        StaysAhead(q, sg, Last(before + init), base, c, v);
      }
    }
  }

  /** A bio's first vector is a segment of its own for the count; the mapping may do better. */
  lemma FirstOfBio(q: Limits, sg: seq<Entry>, prev: Option<Vec>, base: nat, v: Vec)
    requires |sg| <= base
    ensures Ahead(MapVec(q, prev, sg, v), base + CountVec(q, FRESH, v).phys, CountVec(q, FRESH, v).segSize)
  {
  }

  /** blk_rq_map_sg never needs more entries than the bios' segment counts add up to. */
  lemma {:induction false} MappingFits(q: Limits, bios: seq<seq<Vec>>)
    ensures |Mapped(q, Flat(bios))| <= TotalCount(q, bios)
    decreases |bios|
  {
    if bios != [] {
      var init := bios[..|bios| - 1];
      MappingFits(q, init);
      AheadInBio(q, Flat(init), bios[|bios| - 1], TotalCount(q, init));
    }
  }

  // What the mapping describes.

  /** The physical addresses of the vectors, byte by byte, and of the entries. */
  function VecAddrs(vecs: seq<Vec>): seq<nat> {
    if vecs == [] then [] else VecAddrs(vecs[..|vecs| - 1]) + Addresses(vecs[|vecs| - 1].phys, vecs[|vecs| - 1].len)
  }

  function EntryAddrs(sg: seq<Entry>): seq<nat> {
    if sg == [] then [] else EntryAddrs(sg[..|sg| - 1]) + Addresses(sg[|sg| - 1].phys, sg[|sg| - 1].len)
  }

  lemma RunJoin(a: nat, m: nat, n: nat)
    ensures Addresses(a, m + n) == Addresses(a, m) + Addresses(a + m, n)
  {
  }

  /** An entry ends where the vector it took last ends. */
  ghost predicate EndsWith(sg: seq<Entry>, prev: Option<Vec>) {
    sg != [] && prev.Some? && sg[|sg| - 1].phys + sg[|sg| - 1].len == prev.value.phys + prev.value.len
  }

  lemma MapVecAddrs(q: Limits, prev: Option<Vec>, sg: seq<Entry>, v: Vec)
    requires sg != [] ==> EndsWith(sg, prev)
    ensures EntryAddrs(MapVec(q, prev, sg, v)) == EntryAddrs(sg) + Addresses(v.phys, v.len)
    ensures EndsWith(MapVec(q, prev, sg, v), Some(v))
  {
    var t := MapVec(q, prev, sg, v);
    var init, e := t[..|t| - 1], t[|t| - 1];
    assert EntryAddrs(t) == EntryAddrs(init) + Addresses(e.phys, e.len);
    if t == sg + [Entry(v.phys, v.len)] {
      assert init == sg;
    } else {
      var last := sg[|sg| - 1];
      assert init == sg[..|sg| - 1];
      RunJoin(last.phys, last.len, v.len);
      hide Addresses, EntryAddrs;
      assert EntryAddrs(init) + (Addresses(last.phys, last.len) + Addresses(v.phys, v.len)) ==
             (EntryAddrs(init) + Addresses(last.phys, last.len)) + Addresses(v.phys, v.len);
    }
  }

  /** The entries describe the request's bytes, in order. */
  lemma {:induction false} MappedAddrs(q: Limits, vecs: seq<Vec>)
    ensures EntryAddrs(Mapped(q, vecs)) == VecAddrs(vecs)
    ensures vecs != [] ==> EndsWith(Mapped(q, vecs), Last(vecs))
    decreases |vecs|
  {
    if vecs != [] {
      var init := vecs[..|vecs| - 1];
      MappedAddrs(q, init);
      MapVecAddrs(q, Last(init), Mapped(q, init), vecs[|vecs| - 1]);
    }
  }

  /** No entry is longer than the queue allows, if no vector is. */
  lemma {:induction false} MappedLimit(q: Limits, vecs: seq<Vec>)
    requires forall i | 0 <= i < |vecs| :: vecs[i].len <= q.maxSegment
    ensures forall i | 0 <= i < |Mapped(q, vecs)| :: Mapped(q, vecs)[i].len <= q.maxSegment
    decreases |vecs|
  {
    if vecs != [] {
      MappedLimit(q, vecs[..|vecs| - 1]);
    }
  }

  // Where segments start, and why.

  /** How many segments start in the list. */
  function Starts(s: seq<bool>): nat {
    if s == [] then 0 else Starts(s[..|s| - 1]) + if s[|s| - 1] then 1 else 0
  }

  /** The size of the segment of vector i, from its start up to that vector. */
  function SizeAt(s: seq<bool>, vecs: seq<Vec>, i: nat): nat
    requires i < |s| == |vecs|
  {
    if s[i] || i == 0 then vecs[i].len else SizeAt(s, vecs, i - 1) + vecs[i].len
  }

  /** Likewise of its hardware segment, which begins at the start of a virtual unit. */
  function HwSizeAt(q: Limits, h: seq<bool>, vecs: seq<Vec>, i: nat): nat
    requires i < |h| == |vecs|
  {
    if h[i] || i == 0 then q.virtStart(vecs[i]) + vecs[i].len else HwSizeAt(q, h, vecs, i - 1) + vecs[i].len
  }

  lemma {:induction false} SizeOfPrefix(s: seq<bool>, vecs: seq<Vec>, b: bool, v: Vec, i: nat)
    requires i < |s| == |vecs|
    ensures SizeAt(s + [b], vecs + [v], i) == SizeAt(s, vecs, i)
  {
    if !s[i] && i > 0 { SizeOfPrefix(s, vecs, b, v, i - 1); }
  }

  lemma {:induction false} HwSizeOfPrefix(q: Limits, h: seq<bool>, vecs: seq<Vec>, b: bool, v: Vec, i: nat)
    requires i < |h| == |vecs|
    ensures HwSizeAt(q, h + [b], vecs + [v], i) == HwSizeAt(q, h, vecs, i)
  {
    if !h[i] && i > 0 { HwSizeOfPrefix(q, h, vecs, b, v, i - 1); }
  }

  /** Two neighbouring vectors share an entry of the mapping, given the entry's size so far. */
  predicate MayShare(q: Limits, a: Vec, b: Vec, size: nat) {
    q.cluster && a.phys + a.len == b.phys && q.sameWindow(a, b) && size + b.len <= q.maxSegment
  }

  /** Exactly where the entries of the mapping start, and what they are. */
  ghost predicate MappedAt(q: Limits, vecs: seq<Vec>, sg: seq<Entry>, s: seq<bool>) {
    && |s| == |vecs| && |sg| == Starts(s)
    && (forall i | 0 < i < |s| :: s[i] <==> !MayShare(q, vecs[i - 1], vecs[i], SizeAt(s, vecs, i - 1)))
    && (sg != [] ==> s != [] && s[0] && sg[|sg| - 1].len == SizeAt(s, vecs, |s| - 1))
  }

  lemma MappedAtNext(q: Limits, vecs: seq<Vec>, sg: seq<Entry>, s: seq<bool>, v: Vec) returns (s': seq<bool>)
    requires MappedAt(q, vecs, sg, s) && (vecs != [] ==> sg != [])
    ensures MappedAt(q, vecs + [v], MapVec(q, Last(vecs), sg, v), s')
  {
    var n := |vecs|;
    var b := n == 0 || !MayShare(q, vecs[n - 1], v, SizeAt(s, vecs, n - 1));
    s' := s + [b];
    assert s'[..n] == s;
    forall i | 0 <= i < n ensures SizeAt(s', vecs + [v], i) == SizeAt(s, vecs, i) {
      SizeOfPrefix(s, vecs, b, v, i);
    }
  }

  /** A vector goes on with the entry of the one before it exactly if clustering is on, they adjoin
      in memory within one window, and the entry stays within the size limit. */
  lemma {:induction false} MappedStarts(q: Limits, vecs: seq<Vec>) returns (s: seq<bool>)
    ensures MappedAt(q, vecs, Mapped(q, vecs), s)
    decreases |vecs|
  {
    if vecs == [] {
      s := [];
    } else {
      var init := vecs[..|vecs| - 1];
      s := MappedStarts(q, init);
      s := MappedAtNext(q, init, Mapped(q, init), s, vecs[|vecs| - 1]);
      assert init + [vecs[|vecs| - 1]] == vecs;
    }
  }

  /** Two neighbouring vectors are counted as one segment, given the sizes so far. */
  predicate CountsAsOne(q: Limits, a: Vec, b: Vec, size: nat, hwSize: nat) {
    !a.high && !b.high && MayShare(q, a, b, size) && !q.virtOversize(hwSize + b.len)
  }

  /** ... and as one hardware segment. */
  predicate HardwareAsOne(q: Limits, a: Vec, b: Vec, size: nat, hwSize: nat) {
    || CountsAsOne(q, a, b, size, hwSize)
    || (!a.high && !b.high && q.virtMergeable(a, b) && !q.virtOversize(hwSize + b.len))
  }

  /** Exactly where the counted segments start: s the physical ones, h the hardware ones. */
  ghost predicate CountedAt(q: Limits, vecs: seq<Vec>, c: Count, s: seq<bool>, h: seq<bool>) {
    && |s| == |h| == |vecs| && c.phys == Starts(s) && c.hw == Starts(h) && c.prev == Last(vecs)
    && (forall i | 0 < i < |s| ::
          var size, hwSize := SizeAt(s, vecs, i - 1), HwSizeAt(q, h, vecs, i - 1);
          && (s[i] <==> !CountsAsOne(q, vecs[i - 1], vecs[i], size, hwSize))
          && (h[i] <==> !HardwareAsOne(q, vecs[i - 1], vecs[i], size, hwSize)))
    && (if vecs == [] then c == FRESH
        else && s[0] && h[0] && c.highPrev == vecs[|vecs| - 1].high
             && c.segSize == SizeAt(s, vecs, |s| - 1) && c.hwSize == HwSizeAt(q, h, vecs, |h| - 1))
  }

  lemma CountedAtNext(q: Limits, vecs: seq<Vec>, c: Count, s: seq<bool>, h: seq<bool>, v: Vec)
    returns (s': seq<bool>, h': seq<bool>)
    requires CountedAt(q, vecs, c, s, h)
    ensures CountedAt(q, vecs + [v], CountVec(q, c, v), s', h')
  {
    var n := |vecs|;
    var b := n == 0 || !CountsAsOne(q, vecs[n - 1], v, c.segSize, c.hwSize);
    var d := n == 0 || !HardwareAsOne(q, vecs[n - 1], v, c.segSize, c.hwSize);
    s', h' := s + [b], h + [d];
    assert s'[..n] == s && h'[..n] == h;
    var more := vecs + [v];
    forall i | 0 <= i < n
      ensures SizeAt(s', more, i) == SizeAt(s, vecs, i)
      ensures HwSizeAt(q, h', more, i) == HwSizeAt(q, h, vecs, i)
    {
      SizeOfPrefix(s, vecs, b, v, i);
      HwSizeOfPrefix(q, h, vecs, d, v, i);
    }
  }

  /** A vector is counted with the segment of the one before it exactly if neither will be bounced,
      they may share an entry, and the hardware segment does not grow too large; with its hardware
      segment also if the two are virtually mergeable. */
  lemma {:induction false} CountedStarts(q: Limits, vecs: seq<Vec>) returns (s: seq<bool>, h: seq<bool>)
    ensures CountedAt(q, vecs, Counted(q, vecs), s, h)
    decreases |vecs|
  {
    if vecs == [] {
      s, h := [], [];
    } else {
      var init := vecs[..|vecs| - 1];
      s, h := CountedStarts(q, init);
      s, h := CountedAtNext(q, init, Counted(q, init), s, h, vecs[|vecs| - 1]);
      assert init + [vecs[|vecs| - 1]] == vecs;
    }
  }

  // The loops.

  /** blk_recount_segments, for the vectors of one bio */
  method RecountSegments(q: Limits, vecs: seq<Vec>) returns (phys: nat, hw: nat)
    ensures phys == Counted(q, vecs).phys && hw == Counted(q, vecs).hw
  {
    var i, prev, highPrev := 0, None, true;
    var segSize: nat, hwSize: nat := 0, 0;
    phys, hw := 0, 0;
    while i < |vecs|
      invariant i <= |vecs| && Count(prev, highPrev, segSize, hwSize, phys, hw) == Counted(q, vecs[..i])
    {
      var v := vecs[i];
      assert vecs[..i + 1][..i] == vecs[..i];
      var apart := v.high || highPrev;
      var join := !apart && q.cluster && segSize + v.len <= q.maxSegment && prev.Some? && Adjoin(q, prev.value, v);
      if join && !q.virtOversize(hwSize + v.len) {
        segSize, hwSize := segSize + v.len, hwSize + v.len;
      } else {
        if !apart && !join && prev.Some? && q.virtMergeable(prev.value, v) && !q.virtOversize(hwSize + v.len) {
          hwSize := hwSize + v.len;
        } else {
          hwSize := q.virtStart(v) + v.len;
          hw := hw + 1;
        }
        phys, segSize, highPrev := phys + 1, v.len, v.high;
      }
      prev := Some(v);
      i := i + 1;
    }
    assert vecs[..i] == vecs;
  }

  lemma OneMore(q: Limits, before: seq<Vec>, vecs: seq<Vec>, i: nat)
    requires i < |vecs|
    ensures var done, more := before + vecs[..i], before + vecs[..i + 1];
            && Mapped(q, more) == MapVec(q, Last(done), Mapped(q, done), vecs[i]) && Last(more) == Some(vecs[i])
            && (Last(done).Some? ==> Mapped(q, done) != [])
  {
    var done, more := before + vecs[..i], before + vecs[..i + 1];
    assert more[..|more| - 1] == done && more[|more| - 1] == vecs[i];
  }

  /** The inner loop of blk_rq_map_sg: one bio */
  method MapBio(q: Limits, vecs: seq<Vec>, prev0: Option<Vec>, sg0: seq<Entry>, ghost before: seq<Vec>)
    returns (prev: Option<Vec>, sg: seq<Entry>)
    requires sg0 == Mapped(q, before) && prev0 == Last(before)
    ensures sg == Mapped(q, before + vecs) && prev == Last(before + vecs)
  {
    hide Mapped, Last;
    prev, sg := prev0, sg0;
    var i := 0;
    assert before + vecs[..0] == before;
    while i < |vecs|
      invariant i <= |vecs| && sg == Mapped(q, before + vecs[..i]) && prev == Last(before + vecs[..i])
    {
      var v := vecs[i];
      OneMore(q, before, vecs, i);
      if prev.Some? && q.cluster && sg[|sg| - 1].len + v.len <= q.maxSegment && Adjoin(q, prev.value, v) {
        var e := sg[|sg| - 1];
        sg := sg[..|sg| - 1] + [e.(len := e.len + v.len)];
      } else {
        sg := sg + [Entry(v.phys, v.len)];
      }
      prev, i := Some(v), i + 1;
    }
    assert vecs[..i] == vecs;
  }

  /** blk_rq_map_sg: it describes the request's bytes in order, with no more entries than the
      segments of its bios. */
  method MapSg(q: Limits, bios: seq<seq<Vec>>) returns (sg: seq<Entry>)
    ensures sg == Mapped(q, Flat(bios))
    ensures |sg| <= TotalCount(q, bios)
    ensures EntryAddrs(sg) == VecAddrs(Flat(bios))
  {
    hide Mapped, Last, TotalCount, EntryAddrs, VecAddrs;
    var prev, b := None, 0;
    sg := [];
    Nothing(q);
    while b < |bios|
      invariant b <= |bios| && sg == Mapped(q, Flat(bios[..b])) && prev == Last(Flat(bios[..b]))
    {
      assert bios[..b + 1][..b] == bios[..b];
      prev, sg := MapBio(q, bios[b], prev, sg, Flat(bios[..b]));
      b := b + 1;
    }
    assert bios[..b] == bios;
    MappingFits(q, bios);
    MappedAddrs(q, Flat(bios));
  }

  lemma Nothing(q: Limits)
    ensures Mapped(q, []) == [] && Last([]) == None
  {
  }
}
