/** The block cipher walk: kernel/linux/crypto/blkcipher.c. It hands the bytes of a source and
    a destination scatter list to a cipher mode, one window at a time. */
module CipherWalk {
  import opened ScatterWalk

  /** Where the window lies: in the lists' own memory, in the bounce page, or in the buffer
      that joins a block split over pages. */
  datatype Kind = Fast | Copy | Slow

  datatype Error = OK | EINVAL

  /** struct blkcipher_walk */
  class BlkcipherWalk<T> {
    const bsize: nat
    const align: nat          // the alignment mask plus one
    const inw: Walk
    const outw: Walk
    var mem: seq<T>
    var buffer: seq<T>        // a destination spot and a source spot of one block each
    var page: seq<T>
    var total: nat
    var nbytes: nat
    var kind: Kind
    var srcAddr: nat
    var dstAddr: nat
    ghost var pos: nat        // bytes done

    /** What the caller must pass: two lists of distinct bytes of memory, the same bytes or none
        in common. */
    ghost predicate Lists()
      reads this`mem
    {
      var s, d := Addrs(inw.list), Addrs(outw.list);
      && inw != outw && bsize > 0 && align > 0
      && InMemory(s, |mem|) && InMemory(d, |mem|) && Distinct(s) && Distinct(d)
      && (s == d || forall a | a in s :: a !in d)
    }

    ghost predicate Valid()
      reads this`mem, this`buffer, this`page, this`total, this`pos
    {
      && Lists() && |buffer| == 2 * bsize && |page| == PAGE_SIZE
      && pos + total <= |Addrs(inw.list)| && pos + total <= |Addrs(outw.list)|
    }

    /** The bytes of the source list, and of the destination list. */
    ghost function Source(): seq<T>
      requires Lists()
      reads this`mem
    {
      Gather(mem, Addrs(inw.list))
    }

    ghost function Target(): seq<T>
      requires Lists()
      reads this`mem
    {
      Gather(mem, Addrs(outw.list))
    }

    /** Both list walks stand at the next byte. */
    ghost predicate AtNext()
      reads this`pos, inw, outw
    {
      inw.Valid() && outw.Valid() && inw.Position() == pos && outw.Position() == pos
    }

    /** The memory that holds the window. */
    function Space(): seq<T>
      reads this
    {
      match kind
      case Fast => mem
      case Copy => page
      case Slow => buffer
    }

    /** Where the list walks stand while a window is out. */
    ghost predicate Standing()
      reads this`pos, this`kind, inw, outw
    {
      && inw.Valid() && outw.Valid() && outw.Position() == pos
      && inw.Position() == (if kind == Slow then pos + bsize else pos)
    }

    /** The window's two ends lie in the space, and can be written without harm. */
    ghost predicate Window()
      requires inw.Valid() && outw.Valid()
      reads this, inw, outw
    {
      && bsize <= nbytes <= total && (kind == Slow ==> nbytes == bsize)
      && (kind != Slow ==> nbytes <= inw.PageLen() && nbytes <= outw.PageLen())
      && (kind == Fast ==> srcAddr == inw.Here() && dstAddr == outw.Here())
      && srcAddr + nbytes <= |Space()| && dstAddr + nbytes <= |Space()|
      && Apart(srcAddr, dstAddr, nbytes)
    }

    /** A window of nbytes bytes is handed out, and it holds the next bytes of the source. */
    ghost predicate Ready()
      reads this, inw, outw
    {
      && Valid() && Standing() && Window()
      && Space()[srcAddr..srcAddr + nbytes] == Source()[pos..pos + nbytes]
    }

    /** The destination list differs from what it was in memory m just by data at p, and no
        other byte of memory differs. */
    ghost predicate Delivered(m: seq<T>, p: nat, data: seq<T>)
      requires Lists()
      reads this`mem
    {
      var ad := Addrs(outw.list);
      && |mem| == |m| && p + |data| <= |ad|
      && Target() == Put(Gather(m, ad), p, data)
      && forall a | 0 <= a < |mem| && a !in ad :: mem[a] == m[a]
    }

    /** A delivery leaves a source that shares no byte with the destination as it was. */
    lemma SourceKept(m: seq<T>, p: nat, data: seq<T>)
      requires Lists() && Delivered(m, p, data)
      ensures Addrs(inw.list) != Addrs(outw.list) ==> Source() == Gather(m, Addrs(inw.list))
    {
      var ad := Addrs(inw.list);
      if ad != Addrs(outw.list) {
        hide Addrs;
        forall k | 0 <= k < |ad| ensures Source()[k] == Gather(m, ad)[k] {
          assert ad[k] in ad;
        }
      }
    }

    /** Nor does it change what lies ahead, if they are the same bytes. */
    lemma AheadKept(m: seq<T>, p: nat, data: seq<T>)
      requires Lists() && Delivered(m, p, data)
      ensures p + |data| <= |Source()| || Addrs(inw.list) != Addrs(outw.list)
      ensures InMemory(Addrs(inw.list), |m|)
      ensures forall k | p + |data| <= k <= |Source()| :: Source()[k..] == Gather(m, Addrs(inw.list))[k..]
    {
      SourceKept(m, p, data);
    }

    /** blkcipher_walk_init, and the start of both list walks */
    constructor (bsize: nat, align: nat, src: seq<Entry>, dst: seq<Entry>, mem: seq<T>,
                 buffer: seq<T>, page: seq<T>, total: nat)
      requires bsize > 0 && align > 0 && |buffer| == 2 * bsize && |page| == PAGE_SIZE
      requires ValidList(src) && ValidList(dst) && src != [] && dst != []
      requires InMemory(Addrs(src), |mem|) && InMemory(Addrs(dst), |mem|)
      requires Distinct(Addrs(src)) && Distinct(Addrs(dst))
      requires Addrs(src) == Addrs(dst) || forall a | a in Addrs(src) :: a !in Addrs(dst)
      requires total <= |Addrs(src)| && total <= |Addrs(dst)|
      ensures Valid() && AtNext() && pos == 0 && fresh(inw) && fresh(outw)
      ensures inw.list == src && outw.list == dst && this.bsize == bsize
      ensures this.mem == mem && this.total == total && nbytes == total
    {
      this.bsize, this.align := bsize, align;
      this.inw := new Walk(src);
      this.outw := new Walk(dst);
      this.mem, this.buffer, this.page := mem, buffer, page;
      this.total, this.nbytes := total, total;
      this.kind, this.srcAddr, this.dstAddr := Fast, 0, 0;
      this.pos := 0;
    }

    /** blkcipher_next_slow: gather one block of the source in the buffer. */
    method NextSlow()
      requires Valid() && AtNext() && bsize <= total
      modifies this`buffer, this`nbytes, this`kind, this`srcAddr, this`dstAddr, inw
      ensures Ready() && kind == Slow
    {
      hide Addrs, Start, Distinct, InMemory, Gather, Walk.PageLen, Walk.Position, Walk.Valid;
      var m, b := inw.CopyChunks(mem, [], bsize, false);
      buffer := Put(buffer, bsize, b);
      dstAddr, srcAddr, nbytes, kind := 0, bsize, bsize, Slow;
      assert Valid();
      assert Standing();
      assert buffer[bsize..bsize + bsize] == b;
    }

    /** blkcipher_next_copy: bounce the next n bytes through the page. */
    method NextCopy(n: nat)
      requires Valid() && AtNext() && bsize <= n <= total && n <= inw.PageLen() && n <= outw.PageLen()
      modifies this`page, this`nbytes, this`kind, this`srcAddr, this`dstAddr
      ensures Ready() && kind == Copy
    {
      hide Addrs, Start, Distinct, InMemory, Gather, Contiguous, Walk.PageLen, Walk.Position, Walk.Valid;
      var _, b := inw.MemcpyDir(mem, [], n, false);
      page := Put(page, 0, b);
      srcAddr, dstAddr, nbytes, kind := 0, 0, n, Copy;
      assert Valid();
      assert Standing();
      assert page[0..n] == b;
    }

    /** What lies ahead of the two list walks can be handed out as it is. */
    lemma FastWindow(n: nat)
      requires Valid() && AtNext() && 0 < n <= inw.PageLen() && n <= outw.PageLen()
      ensures pos + n <= |Addrs(inw.list)| && inw.Here() + n <= |mem| && outw.Here() + n <= |mem|
      ensures Apart(inw.Here(), outw.Here(), n)
      ensures mem[inw.Here()..inw.Here() + n] == Source()[pos..pos + n]
    {
      hide Addrs, Start, Distinct, Gather, Walk.PageLen;
      inw.Ahead(n);
      outw.Ahead(n);
      hide Walk.Here, Walk.Position;
      GatherContiguous(mem, Addrs(inw.list), pos, inw.Here(), n);
      GatherContiguous(mem, Addrs(outw.list), pos, outw.Here(), n);
      WindowsApart(Addrs(inw.list), Addrs(outw.list), pos, inw.Here(), outw.Here(), n);
    }

    /** blkcipher_next_fast: hand out the lists' own memory. */
    method NextFast(n: nat)
      requires Valid() && AtNext() && bsize <= n <= total && n <= inw.PageLen() && n <= outw.PageLen()
      modifies this`nbytes, this`kind, this`srcAddr, this`dstAddr
      ensures Ready() && kind == Fast
    {
      hide Addrs, Start, Distinct, InMemory, Gather, Contiguous, Walk.PageLen, Walk.Position, Walk.Here;
      FastWindow(n);
      var s := inw.Here();
      var d := s;
      if outw.Here() != s {
        d := outw.Here();
      }
      srcAddr, dstAddr, nbytes, kind := s, d, n, Fast;
      assert Valid();
      assert Standing();
      assert Window();
    }

    /** blkcipher_walk_next: the next window, or an error when less than a block is left. */
    method Next() returns (err: Error)
      requires Valid() && AtNext() && total > 0
      modifies this, inw, outw
      ensures Valid() && mem == old(mem) && pos == old(pos)
      ensures old(total) < bsize ==> err == EINVAL && total == 0 && nbytes == 0
      ensures old(total) >= bsize ==> err == OK && total == old(total) && Ready()
    {
      if total < bsize {
        inw.Done(false);
        outw.Done(false);
        total, nbytes := 0, 0;
        return EINVAL;
      }
      err := OK;
      var bounce := inw.offset % align != 0 || outw.offset % align != 0;
      var n := outw.Clamp(inw.Clamp(total));
      if n < bsize {
        NextSlow();
      } else if bounce {
        NextCopy(n);
      } else {
        NextFast(n);
      }
    }

    /** blkcipher_walk_first: nothing to do for an empty request. */
    method First() returns (err: Error)
      requires Valid() && AtNext() && nbytes == total
      modifies this, inw, outw
      ensures Valid() && mem == old(mem) && pos == old(pos)
      ensures if old(total) == 0 then err == OK && nbytes == 0
              else if old(total) < bsize then err == EINVAL && nbytes == 0
              else err == OK && Ready() && total == old(total)
    {
      err := OK;
      if total > 0 {
        err := Next();
      }
    }

    /** blkcipher_done_slow: what the mode left in the buffer goes to the destination list. */
    method DoneSlow(space: seq<T>, ghost data: seq<T>) returns (n: nat)
      requires Ready() && kind == Slow && |data| == bsize
      requires space == Put(Space(), dstAddr, data)
      modifies this`mem, this`buffer, outw
      ensures n == bsize && Valid() && Delivered(old(mem), old(pos), data)
      ensures inw.Valid() && outw.Valid() && outw.Position() == pos + n && inw.Position() == pos + n
    {
      hide Addrs, Start, Distinct, InMemory, Gather, Contiguous;
      buffer := space;
      assert buffer[dstAddr..dstAddr + bsize] == data;
      var m, b := outw.CopyChunks(mem, buffer[dstAddr..dstAddr + bsize], bsize, true);
      mem := m;
      n := bsize;
    }

    /** Writing the destination's own memory ahead of its walk delivers the data. */
    lemma WrittenThrough(data: seq<T>)
      requires Lists() && outw.Valid() && |data| <= outw.PageLen() && outw.Here() + |data| <= |mem|
      ensures var ad, m := Addrs(outw.list), Put(mem, outw.Here(), data);
              && outw.Position() + |data| <= |ad|
              && Gather(m, ad) == Put(Gather(mem, ad), outw.Position(), data)
              && forall a | 0 <= a < |mem| && a !in ad :: m[a] == mem[a]
    {
      hide Addrs, Start, Distinct, Gather, Walk.PageLen;
      outw.Ahead(|data|);
      hide Walk.Here, Walk.Position;
      PutContiguous(mem, Addrs(outw.list), outw.Position(), outw.Here(), data);
      OutsideContiguous(Addrs(outw.list), outw.Position(), outw.Here(), |data|);
    }

    /** blkcipher_done_fast: what the mode wrote is in the destination list already, or in the
        page. */
    method DoneFast(space: seq<T>, left: nat, ghost data: seq<T>) returns (n: nat)
      requires Ready() && kind != Slow && left <= nbytes && |data| == nbytes - left
      requires space == Put(Space(), dstAddr, data)
      modifies this`mem, this`page, inw, outw
      ensures n == |data| && Valid() && Delivered(old(mem), old(pos), data)
      ensures inw.Valid() && outw.Valid() && outw.Position() == pos + n && inw.Position() == pos + n
    {
      hide Addrs, Start, Distinct, InMemory, Gather, Walk.PageLen, Walk.Position, Walk.Valid, Walk.Here;
      n := nbytes - left;
      if kind == Copy {
        page := space;
        assert page[dstAddr..dstAddr + n] == data;
        var m, b := outw.MemcpyDir(mem, page[dstAddr..dstAddr + n], n, true);
        mem := m;
      } else {
        WrittenThrough(data);
        mem := space;
      }
      inw.Advance(n);
      outw.Advance(n);
    }

    /** blkcipher_walk_done: the mode is through with the window but for its last `left` bytes. */
    method Done(space: seq<T>, left: nat, ghost data: seq<T>) returns (err: Error)
      requires Ready() && left <= nbytes && |data| == nbytes - left && (kind == Slow ==> left == 0)
      requires space == Put(Space(), dstAddr, data)
      modifies this, inw, outw
      ensures Valid() && pos == old(pos) + |data| && Delivered(old(mem), old(pos), data)
      ensures Addrs(inw.list) != Addrs(outw.list) ==> Source() == old(Source())
      ensures var rest := old(total) - |data|;
              if rest == 0 then err == OK && nbytes == 0
              else if rest < bsize then err == EINVAL && nbytes == 0
              else err == OK && Ready() && total == rest
    {
      hide Addrs, Start, Distinct, InMemory, Gather, Contiguous, Walk.PageLen, Walk.Position, Walk.Valid, Walk.Here;
      var n;
      if kind == Slow {
        n := DoneSlow(space, data);
      } else {
        n := DoneFast(space, left, data);
      }
      SourceKept(old(mem), pos, data);
      var more := total - n;
      inw.Done(more > 0);
      outw.Done(more > 0);
      pos := pos + |data|;
      total, nbytes := more, more;
      err := OK;
      if more > 0 {
        err := Next();
      }
    }
  }

  /** The two ends of a window are one place, or do not overlap. */
  predicate Apart(s: nat, d: nat, n: nat) {
    s == d || s + n <= d || d + n <= s
  }

  /** Stretches of one list, or of lists that share no byte, are one place or do not overlap. */
  lemma WindowsApart(s: seq<nat>, d: seq<nat>, p: nat, a: nat, b: nat, n: nat)
    requires s == d || forall x | x in s :: x !in d
    requires Contiguous(s, p, a, n) && Contiguous(d, p, b, n) && n > 0
    ensures Apart(a, b, n)
    ensures (s == d ==> a == b) && (s != d ==> a != b)
  {
    if s == d {
      assert s[p] == a && d[p] == b;
    } else {
      assert s[p] in s && d[p] in d;
      OutsideContiguous(s, p, a, n);
      OutsideContiguous(d, p, b, n);
    }
  }
}
