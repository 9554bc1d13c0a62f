/** What several models share: optional values, and lists as sequences. */
module Collections {

  datatype Option<T> = None | Some(value: T)

  predicate NoDup<T(==)>(q: seq<T>) {
    forall i, j | 0 <= i < j < |q| :: q[i] != q[j]
  }

  /** The first index of x, or the length of the list. */
  function IndexOf<T(==)>(q: seq<T>, x: T): (i: nat)
    ensures i <= |q| && (x in q <==> i < |q|)
    ensures i < |q| ==> q[i] == x
    ensures x !in q[..i]
  {
    if q == [] || q[0] == x then 0
    else
      var i := 1 + IndexOf(q[1..], x);
      assert q[..i] == [q[0]] + q[1..][..i - 1];
      assert x in q <==> x in q[1..];
      i
  }

  function RemoveAt<T>(q: seq<T>, i: nat): seq<T>
    requires i < |q|
  {
    q[..i] + q[i + 1..]
  }

  /** The list without x. */
  function Minus<T(==)>(q: seq<T>, x: T): seq<T> {
    var i := IndexOf(q, x);
    if i < |q| then RemoveAt(q, i) else q
  }

  lemma RemovedMembers<T>(q: seq<T>, i: nat, x: T)
    requires i < |q|
    ensures x in RemoveAt(q, i) ==> x in q
    ensures x in q && x != q[i] ==> x in RemoveAt(q, i)
  {
    var rest := RemoveAt(q, i);
    if x in rest {
      var k :| 0 <= k < |rest| && rest[k] == x;
      assert q[if k < i then k else k + 1] == x;
    }
    if x in q && x != q[i] {
      var k :| 0 <= k < |q| && q[k] == x;
      assert rest[if k < i then k else k - 1] == x;
    }
  }

  lemma RemovedNoDup<T>(q: seq<T>, i: nat)
    requires NoDup(q) && i < |q|
    ensures NoDup(RemoveAt(q, i)) && q[i] !in RemoveAt(q, i)
  {
  }

  lemma RemovedFacts<T(!new)>(q: seq<T>, i: nat)
    requires NoDup(q) && i < |q|
    ensures NoDup(RemoveAt(q, i)) && |RemoveAt(q, i)| == |q| - 1
    ensures forall y :: y in RemoveAt(q, i) <==> y in q && y != q[i]
  {
    RemovedNoDup(q, i);
    hide NoDup;
    forall y ensures y in RemoveAt(q, i) <==> y in q && y != q[i] {
      RemovedMembers(q, i, y);
    }
  }

  lemma MinusFacts<T(!new)>(q: seq<T>, x: T)
    requires NoDup(q) && x in q
    ensures NoDup(Minus(q, x)) && |Minus(q, x)| == |q| - 1
    ensures forall y :: y in Minus(q, x) <==> y in q && y != x
  {
    hide NoDup, RemoveAt;
    RemovedFacts(q, IndexOf(q, x));
  }

  /** The list without any x. */
  function Drop<T(==,!new)>(q: seq<T>, x: T): (r: seq<T>)
    ensures forall y :: y in r <==> y in q && y != x
  {
    if q == [] then []
    else
      assert forall y :: y in q <==> y == q[0] || y in q[1..];
      if q[0] == x then Drop(q[1..], x) else [q[0]] + Drop(q[1..], x)
  }

  /** From a list without duplicates only x goes, and the rest keeps its order. */
  lemma {:induction false} DropIsMinus<T(!new)>(q: seq<T>, x: T)
    requires NoDup(q)
    ensures Drop(q, x) == Minus(q, x)
  {
    if q != [] {
      DropIsMinus(q[1..], x);
      if q[0] == x {
        assert x !in q[1..];
        assert RemoveAt(q, 0) == q[1..];
      }
    }
  }

  /** n addresses from a on */
  function Addresses(a: nat, n: nat): (s: seq<nat>)
    ensures |s| == n && forall i | 0 <= i < n :: s[i] == a + i
  {
    seq(n, i => a + i)
  }

  function Pow2(n: nat): (p: nat)
    ensures p > 0
  {
    if n == 0 then 1 else 2 * Pow2(n - 1)
  }
}
