/** A scatter list, with the bytes or blocks of bits it stands for. */
module ScatterText {

  /** struct scatterlist; the data begin at offset in their first page. Chain links are resolved. */
  datatype Entry<T> = Entry(offset: nat, data: seq<T>)

  function Flat<T>(sg: seq<Entry<T>>): seq<T> {
    if sg == [] then [] else sg[0].data + Flat(sg[1..])
  }

  lemma {:induction false} FlatUpTo<T>(sg: seq<Entry<T>>, i: nat)
    requires i < |sg|
    ensures Flat(sg[..i + 1]) == Flat(sg[..i]) + sg[i].data
    decreases i
  {
    assert sg[..i + 1][1..] == sg[1..][..i];
    if i > 0 {
      assert sg[..i][1..] == sg[1..][..i - 1];
      FlatUpTo(sg[1..], i - 1);
      assert sg[0].data + (Flat(sg[1..][..i - 1]) + sg[i].data) == sg[0].data + Flat(sg[1..][..i - 1]) + sg[i].data;
    }
  }

  lemma FlatNothing<T>(sg: seq<Entry<T>>)
    ensures Flat(sg[..0]) == []
  {
  }

  lemma FlatTail<T>(sg: seq<Entry<T>>, i: nat)
    requires i <= |sg|
    ensures i == |sg| ==> Flat(sg[i..]) == []
  {
  }

  /** The next l bytes of the flat text are the first of the next entry. */
  lemma NextEntry<T>(flat: seq<T>, done: nat, sg: seq<Entry<T>>, i: nat, l: nat)
    requires done < |flat| && i <= |sg| && flat[done..] == Flat(sg[i..])
    ensures i < |sg|
    ensures l <= |sg[i].data| && done + l <= |flat| ==> flat[done..done + l] == sg[i].data[..l]
    ensures done + |sg[i].data| <= |flat| && flat[done + |sg[i].data|..] == Flat(sg[i + 1..])
  {
    FlatTail(sg, i);
    var d, rest := sg[i].data, Flat(sg[i + 1..]);
    assert sg[i..][1..] == sg[i + 1..];
    assert flat[done..] == d + rest;
    assert flat[done + |d|..] == flat[done..][|d|..];
    if l <= |d| { assert flat[done..done + l] == flat[done..][..l]; }
  }
}
