/** Walking a scatter list: kernel/linux/crypto/scatterwalk.c and scatterwalk.h. Memory is
    one sequence of bytes; an entry is a run of bytes that may cross page boundaries. */
module ScatterWalk {
  import opened Collections

  const PAGE_SIZE: nat := 4096

  /** struct scatterlist */
  datatype Entry = Entry(page: nat, offset: nat, length: nat)

  function Addr(e: Entry): nat {
    e.page * PAGE_SIZE + e.offset
  }

  // The flat view: the addresses of the list, byte by byte.

  function Addrs(list: seq<Entry>): seq<nat> {
    if list == [] then [] else Addresses(Addr(list[0]), list[0].length) + Addrs(list[1..])
  }

  /** How many bytes lie in front of entry i. */
  function Start(list: seq<Entry>, i: nat): nat
    requires i <= |list|
  {
    if i == 0 then 0 else list[0].length + Start(list[1..], i - 1)
  }

  lemma {:induction false} StartTotal(list: seq<Entry>)
    ensures |Addrs(list)| == Start(list, |list|)
  {
    if list != [] { StartTotal(list[1..]); }
  }

  lemma {:induction false} StartNext(list: seq<Entry>, i: nat)
    requires i < |list|
    ensures Start(list, i + 1) == Start(list, i) + list[i].length
    ensures Start(list, i + 1) <= |Addrs(list)|
    decreases i
  {
    if i == 0 {
      assert Start(list[1..], 0) == 0;
    } else {
      StartNext(list[1..], i - 1);
    }
  }

  lemma NotLast(list: seq<Entry>, i: nat)
    requires i < |list| && Start(list, i) + list[i].length < |Addrs(list)|
    ensures i + 1 < |list|
  {
    StartNext(list, i);
    StartTotal(list);
  }

  /** A contiguous stretch of the flat view: positions p to p + n are the addresses from a. */
  ghost predicate Contiguous(ad: seq<nat>, p: nat, a: nat, n: nat) {
    p + n <= |ad| && forall j | p <= j < p + n :: ad[j] == a + (j - p)
  }

  /** Inside an entry the flat view is contiguous memory. */
  lemma {:induction false} AddrsInside(list: seq<Entry>, i: nat)
    requires i < |list|
    ensures Contiguous(Addrs(list), Start(list, i), Addr(list[i]), list[i].length)
    decreases i
  {
    if i > 0 { AddrsInside(list[1..], i - 1); }
  }

  ghost predicate Distinct(ad: seq<nat>) {
    forall i, j | 0 <= i < j < |ad| :: ad[i] != ad[j]
  }

  ghost predicate InMemory(ad: seq<nat>, n: nat) {
    forall i | 0 <= i < |ad| :: ad[i] < n
  }

  /** The bytes at the given addresses. */
  ghost function Gather<T>(mem: seq<T>, ad: seq<nat>): (s: seq<T>)
    requires InMemory(ad, |mem|)
    ensures |s| == |ad| && forall k | 0 <= k < |ad| :: s[k] == mem[ad[k]]
  {
    seq(|ad|, k requires 0 <= k < |ad| => mem[ad[k]])
  }

  /** memcpy into memory */
  function Put<T>(mem: seq<T>, a: nat, data: seq<T>): (m: seq<T>)
    requires a + |data| <= |mem|
    ensures |m| == |mem|
    ensures forall k | 0 <= k < |mem| :: m[k] == if a <= k < a + |data| then data[k - a] else mem[k]
  {
    mem[..a] + data + mem[a + |data|..]
  }

  lemma GatherContiguous<T>(mem: seq<T>, ad: seq<nat>, p: nat, a: nat, n: nat)
    requires InMemory(ad, |mem|) && Contiguous(ad, p, a, n)
    ensures a + n <= |mem| || n == 0
    ensures n > 0 ==> Gather(mem, ad)[p..p + n] == mem[a..a + n]
  {
    if n > 0 { assert ad[p + n - 1] == a + (n - 1); }
  }

  /** Writing a contiguous stretch replaces that stretch of the flat view, and nothing else. */
  lemma PutContiguous<T>(mem: seq<T>, ad: seq<nat>, p: nat, a: nat, data: seq<T>)
    requires InMemory(ad, |mem|) && Distinct(ad) && Contiguous(ad, p, a, |data|)
    requires a + |data| <= |mem|
    ensures Gather(Put(mem, a, data), ad) == Put(Gather(mem, ad), p, data)
  {
    var m := Put(mem, a, data);
    var f, g := Gather(mem, ad), Gather(m, ad);
    forall k | 0 <= k < |ad| ensures g[k] == Put(f, p, data)[k] {
      if a <= ad[k] < a + |data| {
        var j := p + (ad[k] - a);
        assert ad[j] == ad[k];
        assert k == j;
      }
    }
  }

  lemma OutsideContiguous(ad: seq<nat>, p: nat, a: nat, n: nat)
    requires Contiguous(ad, p, a, n)
    ensures forall x | a <= x < a + n :: x in ad
  {
    forall x | a <= x < a + n ensures x in ad {
      assert ad[p + (x - a)] == x;
    }
  }

  lemma PutPut<T>(s: seq<T>, p: nat, data: seq<T>, k: nat, n: nat)
    requires k + n <= |data| && p + |data| <= |s|
    ensures Put(Put(s, p, data[..k]), p + k, data[k..k + n]) == Put(s, p, data[..k + n])
  {
  }

  // The walk.

  /** A list as the callers of the walk must pass it: no empty entry. */
  predicate ValidList(list: seq<Entry>) {
    forall i | 0 <= i < |list| :: list[i].length > 0
  }

  function Min(a: nat, b: nat): nat { if a < b then a else b }

  /** struct scatter_walk */
  class Walk {
    const list: seq<Entry>
    var sg: nat
    var offset: nat

    ghost predicate Valid()
      reads this
    {
      && ValidList(list) && sg < |list|
      && list[sg].offset <= offset <= list[sg].offset + list[sg].length
    }

    /** How many bytes of the list have been passed. */
    ghost function Position(): nat
      requires Valid()
      reads this
    {
      Start(list, sg) + (offset - list[sg].offset)
    }

    /** The address the walk stands at. */
    function Here(): nat
      requires sg < |list|
      reads this
    {
      list[sg].page * PAGE_SIZE + offset
    }

    /** scatterwalk_start on the first entry */
    constructor (list: seq<Entry>)
      requires ValidList(list) && list != []
      ensures Valid() && Position() == 0 && this.list == list
    {
      this.list := list;
      sg := 0;
      offset := list[0].offset;
    }

    /** scatterwalk_pagelen: up to the end of the page or of the entry */
    function PageLen(): (n: nat)
      requires Valid()
      reads this
      ensures n <= list[sg].offset + list[sg].length - offset && n <= PAGE_SIZE
      ensures (offset + n) % PAGE_SIZE == 0 || offset + n == list[sg].offset + list[sg].length
    {
      Min(list[sg].offset + list[sg].length - offset, PAGE_SIZE - offset % PAGE_SIZE)
    }

    /** scatterwalk_clamp */
    function Clamp(n: nat): (m: nat)
      requires Valid()
      reads this
      ensures m <= n && m <= PageLen()
    {
      Min(n, PageLen())
    }

    /** The next n bytes of the flat view are the n bytes of memory from here. */
    lemma Ahead(n: nat)
      requires Valid() && n <= list[sg].offset + list[sg].length - offset
      ensures Contiguous(Addrs(list), Position(), Here(), n)
    {
      AddrsInside(list, sg);
    }

    /** scatterwalk_advance */
    method Advance(n: nat)
      requires Valid() && n <= PageLen()
      modifies this`offset
      ensures Valid() && offset == old(offset) + n && Position() == old(Position()) + n
    {
      offset := offset + n;
    }

    /** scatterwalk_pagedone: at the end of a page or of an entry, step on to the next page or
        entry if more bytes follow. No byte is skipped. */
    method PageDone(more: bool)
      requires Valid()
      requires more ==> offset % PAGE_SIZE == 0 || offset == list[sg].offset + list[sg].length
      requires more ==> Position() < |Addrs(list)|
      modifies this
      ensures Valid() && Position() == old(Position())
      ensures more ==> offset < list[sg].offset + list[sg].length
      ensures old(offset == list[sg].offset + list[sg].length) && more ==> sg == old(sg) + 1
    {
      if more {
        var off := (offset + PAGE_SIZE - 1) / PAGE_SIZE * PAGE_SIZE;
        if off >= list[sg].offset + list[sg].length {
          StartNext(list, sg);
          NotLast(list, sg);
          sg := sg + 1;
          offset := list[sg].offset;
        } else {
          offset := off;
        }
      }
    }

    /** memcpy_dir at the walk's place, inside one page */
    method MemcpyDir<T>(mem: seq<T>, chunk: seq<T>, n: nat, out: bool) returns (m: seq<T>, b: seq<T>)
      requires Valid() && InMemory(Addrs(list), |mem|) && Distinct(Addrs(list))
      requires n <= PageLen() && (out ==> |chunk| == n)
      ensures Position() + n <= |Addrs(list)|
      ensures |m| == |mem|
      ensures !out ==> m == mem && b == Gather(mem, Addrs(list))[Position()..Position() + n]
      ensures out ==> b == chunk
      ensures out ==> Gather(m, Addrs(list)) == Put(Gather(mem, Addrs(list)), Position(), chunk)
      ensures forall a | 0 <= a < |mem| && a !in Addrs(list) :: m[a] == mem[a]
    {
      ghost var ad := Addrs(list);
      Ahead(n);
      GatherContiguous(mem, ad, Position(), Here(), n);
      m, b := mem, chunk;
      if n == 0 {
        assert out ==> Put(Gather(mem, ad), Position(), chunk) == Gather(mem, ad);
        b := [];
      } else if out {
        assert Here() + n <= |mem|;
        PutContiguous(mem, ad, Position(), Here(), chunk);
        OutsideContiguous(ad, Position(), Here(), n);
        m := Put(mem, Here(), chunk);
      } else {
        b := mem[Here()..Here() + n];
      }
    }

    /** scatterwalk_copychunks: the next n bytes of the list, into the buffer or out of it. */
    method CopyChunks<T>(mem: seq<T>, buf: seq<T>, n: nat, out: bool) returns (m: seq<T>, b: seq<T>)
      requires Valid() && InMemory(Addrs(list), |mem|) && Distinct(Addrs(list))
      requires Position() + n <= |Addrs(list)| && (out ==> |buf| == n)
      modifies this
      ensures Valid() && Position() == old(Position()) + n
      ensures !out ==> m == mem && b == Gather(mem, Addrs(list))[old(Position())..old(Position()) + n]
      ensures out ==> |m| == |mem| && b == buf
      ensures out ==> Gather(m, Addrs(list)) == Put(Gather(mem, Addrs(list)), old(Position()), buf)
      ensures out ==> forall a | 0 <= a < |mem| && a !in Addrs(list) :: m[a] == mem[a]
    {
      hide Gather, Put, InMemory, Distinct, Addrs, Start;
      ghost var start := Position();
      ghost var ad := Addrs(list);
      m, b := mem, if out then buf else [];
      var k := 0;
      while true
        invariant Valid() && k <= n && Position() == start + k && |m| == |mem|
        invariant !out ==> m == mem && b == Gather(mem, ad)[start..start + k]
        invariant out ==> b == buf && Gather(m, ad) == Put(Gather(mem, ad), start, buf[..k])
        invariant forall a | 0 <= a < |mem| && a !in ad :: m[a] == mem[a]
        decreases n - k, |list| - sg
      {
        var len := Clamp(n - k);
        var piece;
        if out {
          PutPut(Gather(mem, ad), start, buf, k, len);
          m, piece := MemcpyDir(m, buf[k..k + len], len, out);
        } else {
          m, piece := MemcpyDir(m, [], len, out);
          b := b + piece;
        }
        Advance(len);
        k := k + len;
        if k == n {
          assert out ==> buf[..k] == buf;
          break;
        }
        PageDone(true);
      }
    }

    /** scatterwalk_done */
    method Done(more: bool)
      requires Valid()
      requires more ==> Position() < |Addrs(list)|
      modifies this
      ensures Valid() && Position() == old(Position())
    {
      if offset % PAGE_SIZE == 0 || !more {
        PageDone(more);
      }
    }
  }
}
