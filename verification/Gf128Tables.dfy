/** The 4k and 64k table products of kernel/linux/crypto/gf128mul.c. A be128 is modelled by
    its coefficients; the bit order shows in which byte value stands for which coefficients. */
module Gf128Tables {
  import opened Collections
  import Bits
  import opened Gf128

  /** struct gf128mul_4k: one field element per byte value. */
  type Row = r: seq<Elem> | |r| == 256 witness seq(256, _ => ZERO)

  /** What the table entry of byte b must be: g * b. */
  function Entry(o: Order, g: Elem, b: nat): Elem {
    Mul(g, Coefs(o, b))
  }

  /** The complete table of g. */
  function RowOf(o: Order, g: Elem): Row {
    seq(256, b requires 0 <= b < 256 => Entry(o, g, b))
  }

  /** The entry of a byte is the sum of the entries of its bits. */
  ghost predicate Linear(w: Row) {
    && w[0] == ZERO
    && forall m, k | 0 <= m < 8 && 0 <= k < Pow2(m) && Pow2(m) + k < 256 ::
         w[Pow2(m) + k] == Add(w[Pow2(m)], w[k])
  }

  /** row agrees with w at the powers of two from 2^m on (below 2^n). */
  ghost predicate AgreePowers(row: Row, w: Row, m: nat, n: nat)
    requires n <= 8
  {
    forall i | m <= i < n :: Pow2(i) < 256 && row[Pow2(i)] == w[Pow2(i)]
  }

  lemma {:induction false} Pow2Mono(m: nat, n: nat)
    requires m <= n
    ensures Pow2(m) <= Pow2(n) && (m < n ==> 2 * Pow2(m) <= Pow2(n))
    decreases n
  {
    if m < n { Pow2Mono(m, n - 1); }
  }

  lemma Pow2Byte(m: nat)
    requires m < 8
    ensures Pow2(m) <= 128
  {
    Pow2Mono(m, 7);
    assert Pow2(7) == 128;
  }

  lemma {:induction false} MulUnit(g: Elem, a: seq<bool>, i: nat)
    requires i < |a| && forall j | 0 <= j < |a| :: a[j] == (j == i)
    ensures Mul(g, a) == XPow(g, i)
    decreases |a|
  {
    hide MulX, Add;
    if i == 0 {
      assert a[1..] == Bits.Zeros(|a| - 1);
      MulZeros(MulX(g), |a| - 1);
      AddLaws(g, ZERO, ZERO);
    } else {
      MulUnit(MulX(g), a[1..], i - 1);
      XPowCommutes(g, i - 1);
      AddLaws(Mul(MulX(g), a[1..]), ZERO, ZERO);
    }
  }

  /** The entry of a power of two is g times a power of X. */
  lemma EntryPow(o: Order, g: Elem, m: nat)
    requires m < 8
    ensures Entry(o, g, Pow2(m)) == XPow(g, if o.Bbe? then m else 7 - m)
  {
    LowPow2(m, 8);
    MulUnit(g, Coefs(o, Pow2(m)), if o.Bbe? then m else 7 - m);
  }

  lemma EntryAdd(o: Order, g: Elem, m: nat, k: nat)
    requires m < 8 && k < Pow2(m)
    ensures Entry(o, g, Pow2(m) + k) == Add(Entry(o, g, Pow2(m)), Entry(o, g, k))
  {
    hide Mul, Coefs, Pow2, Add;
    CoefsAdd(o, m, k);
    MulAdd(g, Coefs(o, Pow2(m)), Coefs(o, k));
  }

  lemma EntryZero(o: Order, g: Elem)
    ensures Entry(o, g, 0) == ZERO
  {
    LowZero(8);
    assert Reverse(Bits.Zeros(8)) == Bits.Zeros(8);
    MulZeros(g, 8);
  }

  lemma RowAdd(o: Order, g: Elem, m: nat, p: nat, k: nat)
    requires m < 8 && p == Pow2(m) && k < p && p + k < 256
    ensures RowOf(o, g)[p + k] == Add(RowOf(o, g)[p], RowOf(o, g)[k])
  {
    hide Entry, Add, Pow2;
    EntryAdd(o, g, m, k);
  }

  lemma RowOfLinear(o: Order, g: Elem)
    ensures Linear(RowOf(o, g))
  {
    EntryZero(o, g);
    var w := RowOf(o, g);
    assert w[0] == ZERO;
    hide Entry, Add;
    forall m, k | 0 <= m < 8 && 0 <= k < Pow2(m) && Pow2(m) + k < 256
      ensures w[Pow2(m) + k] == Add(w[Pow2(m)], w[k])
    {
      RowAdd(o, g, m, Pow2(m), k);
    }
  }

  /** The inner loop shared by all four table builders: entries j + 1 .. 2j - 1. */
  method FillFrom(row0: Row, j: nat, ghost m: nat, ghost w: Row) returns (row: Row)
    requires Linear(w) && m < 8 && j == Pow2(m) <= 128
    requires row0[..j + 1] == w[..j + 1] && AgreePowers(row0, w, m, 8)
    ensures row[..2 * j] == w[..2 * j] && AgreePowers(row, w, m + 1, 8)
  {
    hide Add;
    row := row0;
    var k := 1;
    while k < j
      invariant 1 <= k <= j
      invariant forall b | 0 <= b < j + k :: row[b] == w[b]
      invariant AgreePowers(row, w, m + 1, 8)
    {
      forall i | m < i < 8 ensures Pow2(i) != j + k { Pow2Mono(m, i); }
      row := row[j + k := Add(row[j], row[k])];
      k := k + 1;
    }
  }

  /** The doubly nested loop shared by all four table builders. */
  method Fill(row0: Row, ghost w: Row) returns (row: Row)
    requires Linear(w) && row0[0] == w[0] && AgreePowers(row0, w, 0, 8)
    ensures row == w
  {
    hide Add, Linear;
    row := row0;
    var j := 2;
    ghost var m := 1;
    assert Pow2(0) == 1 && Pow2(1) == 2;
    while j < 256
      invariant 1 <= m <= 8 && j == Pow2(m) <= 256
      invariant row[..j] == w[..j] && AgreePowers(row, w, m, 8)
      decreases 256 - j
    {
      SmallPow(m);
      Pow2Byte(m);
      row := FillFrom(row, j, m, w);
      j := j + j;
      m := m + 1;
    }
  }

  lemma SmallPow(m: nat)
    requires Pow2(m) < 256
    ensures m < 8
  {
    LargePow(m);
  }

  lemma LargePow(m: nat)
    ensures m >= 8 ==> Pow2(m) >= 256
  {
    if m >= 8 {
      Pow2Mono(8, m);
      assert Pow2(8) == 256;
    }
  }

  /** The powers of two of a row, from 2^7 = g down by multiplication by X. */
  method PowersLle(g: Elem) returns (row: Row)
    ensures row[0] == ZERO
    ensures forall m | 0 <= m < 8 :: Pow2(m) < 256 && row[Pow2(m)] == XPow(g, 7 - m)
  {
    hide MulX, Add;
    row := seq(256, _ => ZERO);
    row := row[128 := g];
    var j := 64;
    ghost var m := 6;
    assert Pow2(7) == 128 && Pow2(6) == 64;
    while j > 0
      invariant -1 <= m < 7 && j == (if m >= 0 then Pow2(m) else 0) && j <= 64
      invariant row[0] == ZERO
      invariant forall i | m < i < 8 :: 0 < Pow2(i) < 256 && row[Pow2(i)] == XPow(g, 7 - i)
      decreases j
    {
      assert row[Pow2(m + 1)] == XPow(g, 6 - m);
      var x := TimesX(row[j + j]);
      forall i | m < i < 8 ensures Pow2(i) != j { Pow2Mono(m, i); }
      row := row[j := x];
      j := j / 2;
      m := m - 1;
    }
  }

  /** The powers of two of a row, from 2^0 = g up by multiplication by X. */
  method PowersBbe(g: Elem) returns (row: Row)
    ensures row[0] == ZERO
    ensures forall m | 0 <= m < 8 :: Pow2(m) < 256 && row[Pow2(m)] == XPow(g, m)
  {
    hide MulX, Add;
    row := seq(256, _ => ZERO);
    row := row[1 := g];
    var j := 1;
    ghost var m := 0;
    assert Pow2(7) == 128 && Pow2(6) == 64;
    while j <= 64
      invariant 0 <= m < 8 && j == Pow2(m)
      invariant row[0] == ZERO
      invariant forall i | 0 <= i <= m :: 0 < Pow2(i) < 256 && row[Pow2(i)] == XPow(g, i)
      decreases 128 - j
    {
      Pow2Byte(m + 1);
      var x := TimesX(row[j]);
      forall i | 0 <= i <= m ensures Pow2(i) != j + j { Pow2Mono(i, m); }
      row := row[j + j := x];
      j := j * 2;
      m := m + 1;
    }
    if m < 7 { Pow2Mono(m, 6); }
  }

  lemma PowersAgree(o: Order, g: Elem, row: Row)
    requires row[0] == ZERO
    requires forall m | 0 <= m < 8 :: Pow2(m) < 256 && row[Pow2(m)] == XPow(g, if o.Bbe? then m else 7 - m)
    ensures row[0] == RowOf(o, g)[0] && AgreePowers(row, RowOf(o, g), 0, 8)
  {
    EntryZero(o, g);
    forall m | 0 <= m < 8 ensures Pow2(m) < 256 && row[Pow2(m)] == RowOf(o, g)[Pow2(m)] {
      EntryPow(o, g, m);
    }
  }

  /** gf128mul_init_4k_lle: every entry is g times its byte. */
  method Init4kLle(g: Elem) returns (row: Row)
    ensures row == RowOf(Lle, g)
  {
    row := PowersLle(g);
    PowersAgree(Lle, g, row);
    RowOfLinear(Lle, g);
    row := Fill(row, RowOf(Lle, g));
  }

  /** gf128mul_init_4k_bbe: every entry is g times its byte. */
  method Init4kBbe(g: Elem) returns (row: Row)
    ensures row == RowOf(Bbe, g)
  {
    row := PowersBbe(g);
    PowersAgree(Bbe, g, row);
    RowOfLinear(Bbe, g);
    row := Fill(row, RowOf(Bbe, g));
  }

  // Multiplying.

  /** The bytes of a field element, lowest coefficients first. */
  function ByteAt(o: Order, a: Elem, n: nat): (b: nat)
    requires n < 16
    ensures b < 256
  {
    ByteOfCoefs(o, a[8 * n..8 * n + 8]);
    ByteOf(o, a[8 * n..8 * n + 8])
  }

  /** Looking up a byte multiplies its coefficients. */
  lemma LookUp(o: Order, g: Elem, a: Elem, n: nat)
    requires n < 16
    ensures RowOf(o, g)[ByteAt(o, a, n)] == Mul(g, a[8 * n..8 * n + 8])
  {
    ByteOfCoefs(o, a[8 * n..8 * n + 8]);
  }

  /** The product with the coefficients from byte n up, and below byte n. */
  function From(g: Elem, a: Elem, n: nat): Elem
    requires n <= 16
  {
    Mul(g, a[8 * n..])
  }

  function Below(g: Elem, a: Elem, n: nat): Elem
    requires n <= 16
  {
    Mul(g, a[..8 * n])
  }

  lemma Ends(g: Elem, a: Elem)
    ensures From(g, a, 0) == Mul(g, a) && Below(g, a, 16) == Mul(g, a)
    ensures From(g, a, 16) == ZERO && Below(g, a, 0) == ZERO
  {
    assert a[8 * 0..] == a && a[..8 * 16] == a;
    assert a[8 * 16..] == [] && a[..8 * 0] == [];
  }

  lemma SplitByte(g: Elem, byte: seq<bool>, rest: seq<bool>)
    requires |byte| == 8
    ensures Mul(g, byte + rest) == Add(XBytes(Mul(g, rest), 1), Mul(g, byte))
  {
    MulSplit(g, byte, rest);
    MulOfXBytes(g, rest, 1);
    AddLaws(Mul(g, byte), XBytes(Mul(g, rest), 1), ZERO);
  }

  lemma AppendByte(g: Elem, head: seq<bool>, byte: seq<bool>, n: nat)
    requires |head| == 8 * n
    ensures Mul(g, head + byte) == Add(Mul(g, head), Mul(XBytes(g, n), byte))
  {
    MulSplit(g, head, byte);
  }

  lemma ByteSlices(a: Elem, n: nat)
    requires n < 16
    ensures a[8 * n..] == a[8 * n..8 * n + 8] + a[8 * (n + 1)..]
    ensures a[..8 * (n + 1)] == a[..8 * n] + a[8 * n..8 * n + 8]
  {
  }

  /** One byte more, seen from the bottom (4k): multiply by X^8 and look up. */
  lemma HornerStep(o: Order, g: Elem, a: Elem, n: nat)
    requires n < 16
    ensures From(g, a, n) == Add(XBytes(From(g, a, n + 1), 1), RowOf(o, g)[ByteAt(o, a, n)])
  {
    LookUp(o, g, a, n);
    ByteSlices(a, n);
    SplitByte(g, a[8 * n..8 * n + 8], a[8 * (n + 1)..]);
  }

  /** One byte more, seen from the top (64k): look up in the next row. */
  lemma AppendStep(o: Order, g: Elem, a: Elem, n: nat)
    requires n < 16
    ensures Below(g, a, n + 1) == Add(Below(g, a, n), RowOf(o, XBytes(g, n))[ByteAt(o, a, n)])
  {
    LookUp(o, XBytes(g, n), a, n);
    ByteSlices(a, n);
    AppendByte(g, a[..8 * n], a[8 * n..8 * n + 8], n);
  }

  lemma HornerStart(o: Order, g: Elem, a: Elem)
    ensures From(g, a, 15) == RowOf(o, g)[ByteAt(o, a, 15)]
  {
    HornerStep(o, g, a, 15);
    Ends(g, a);
    XPowAdd(ZERO, ZERO, 8 * 1);
    AddLaws(RowOf(o, g)[ByteAt(o, a, 15)], ZERO, ZERO);
  }

  lemma AppendStart(o: Order, g: Elem, a: Elem, n: nat)
    requires n == 0
    ensures Below(g, a, n + 1) == RowOf(o, XBytes(g, n))[ByteAt(o, a, n)]
  {
    AppendStep(o, g, a, n);
    assert a[..8 * n] == [];
    AddLaws(RowOf(o, XBytes(g, n))[ByteAt(o, a, n)], ZERO, ZERO);
  }

  /** gf128mul_4k_lle: byte 15 holds the highest coefficients. */
  method Mul4kLle(a: Elem, row: Row, ghost g: Elem) returns (r: Elem)
    requires row == RowOf(Lle, g)
    ensures r == Mul(g, a)
  {
    var i := 15;
    hide Mul, Add, XBytes, RowOf, ByteAt, From;
    HornerStart(Lle, g, a);
    r := row[ByteAt(Lle, a, 15)];
    while i > 0
      invariant 0 <= i <= 15 && r == From(g, a, i)
    {
      i := i - 1;
      HornerStep(Lle, g, a, i);
      r := TimesX8(r);
      r := Add(r, row[ByteAt(Lle, a, i)]);
    }
    Ends(g, a);
  }

  /** gf128mul_4k_bbe: byte 0 holds the highest coefficients. */
  method Mul4kBbe(a: Elem, row: Row, ghost g: Elem) returns (r: Elem)
    requires row == RowOf(Bbe, g)
    ensures r == Mul(g, a)
  {
    hide Mul, Add, XBytes, RowOf, ByteAt, From;
    HornerStart(Bbe, g, a);
    r := row[ByteAt(Bbe, a, 15)];
    var i := 1;
    while i < 16
      invariant 1 <= i <= 16 && r == From(g, a, 16 - i)
    {
      HornerStep(Bbe, g, a, 15 - i);
      r := TimesX8(r);
      r := Add(r, row[ByteAt(Bbe, a, 15 - i)]);
      i := i + 1;
    }
    Ends(g, a);
  }

  // The 64k tables.

  /** struct gf128mul_64k: sixteen rows. */
  type Table = t: seq<Row> | |t| == 16 witness seq(16, _ => seq(256, _ => ZERO))

  /** Row i holds g * X^(8i) * byte. */
  function TableOf(o: Order, g: Elem): Table {
    seq(16, i requires 0 <= i < 16 => RowOf(o, XBytes(g, i)))
  }

  /** The powers of two of the next row, by multiplication by X^8. */
  method NextPowers(prev: Row) returns (row: Row)
    ensures row[0] == ZERO
    ensures forall m | 0 <= m < 8 :: Pow2(m) < 256 && row[Pow2(m)] == XBytes(prev[Pow2(m)], 1)
  {
    hide XBytes, Add, MulX;
    row := seq(256, _ => ZERO);
    var j := 128;
    ghost var m := 7;
    assert Pow2(7) == 128;
    while j > 0
      invariant -1 <= m < 8 && j == (if m >= 0 then Pow2(m) else 0) && j <= 128
      invariant row[0] == ZERO
      invariant forall i | m < i < 8 :: 0 < Pow2(i) < 256 && row[Pow2(i)] == XBytes(prev[Pow2(i)], 1)
      decreases j
    {
      var x := TimesX8(prev[j]);
      forall i | m < i < 8 ensures Pow2(i) != j { Pow2Mono(m, i); }
      row := row[j := x];
      j := j / 2;
      m := m - 1;
    }
  }

  /** Multiplying the entries by X^8 multiplies the base by X^8. */
  lemma NextRowAgrees(o: Order, g: Elem, row: Row)
    requires row[0] == ZERO
    requires forall m | 0 <= m < 8 :: Pow2(m) < 256 && row[Pow2(m)] == XBytes(RowOf(o, g)[Pow2(m)], 1)
    ensures row[0] == RowOf(o, XBytes(g, 1))[0] && AgreePowers(row, RowOf(o, XBytes(g, 1)), 0, 8)
  {
    hide Mul, Coefs, Pow2, XBytes, Add;
    EntryZero(o, XBytes(g, 1));
    forall m | 0 <= m < 8 ensures Pow2(m) < 256 && row[Pow2(m)] == RowOf(o, XBytes(g, 1))[Pow2(m)] {
      MulOfXBytes(g, Coefs(o, Pow2(m)), 1);
    }
  }

  /** gf128mul_init_64k_lle */
  method Init64kLle(g: Elem) returns (t: Table)
    ensures t == TableOf(Lle, g)
  {
    var row := Init4kLle(g);
    t := Init64kRest(row, Lle, g);
  }

  /** gf128mul_init_64k_bbe */
  method Init64kBbe(g: Elem) returns (t: Table)
    ensures t == TableOf(Bbe, g)
  {
    var row := Init4kBbe(g);
    t := Init64kRest(row, Bbe, g);
  }

  /** One more row, the same in both orders. */
  method NextRow(prev: Row, ghost o: Order, ghost g: Elem) returns (row: Row)
    requires prev == RowOf(o, g)
    ensures row == RowOf(o, XBytes(g, 1))
  {
    row := NextPowers(prev);
    NextRowAgrees(o, g, row);
    RowOfLinear(o, XBytes(g, 1));
    row := Fill(row, RowOf(o, XBytes(g, 1)));
  }

  /** Rows 1 to 15, the same in both orders. */
  method Init64kRest(first: Row, ghost o: Order, ghost g: Elem) returns (t: Table)
    requires first == RowOf(o, g)
    ensures t == TableOf(o, g)
  {
    t := seq(16, _ => first);
    var i := 1;
    ghost var want := TableOf(o, g);
    assert XBytes(g, 0) == g;
    assert t[0] == want[0];
    hide TableOf, RowOf, XBytes;
    while i < 16
      invariant 1 <= i <= 16
      invariant forall k | 0 <= k < i :: t[k] == want[k]
    {
      TableNext(o, g, i);
      var row := NextRow(t[i - 1], o, XBytes(g, i - 1));
      t := t[i := row];
      i := i + 1;
    }
  }

  lemma TableNext(o: Order, g: Elem, i: nat)
    requires 0 < i < 16
    ensures TableOf(o, g)[i - 1] == RowOf(o, XBytes(g, i - 1))
    ensures TableOf(o, g)[i] == RowOf(o, XBytes(XBytes(g, i - 1), 1))
  {
    XBytesNext(g, i - 1);
  }

  /** gf128mul_64k_lle, gf128mul_64k_bbe: one lookup per byte */
  method Mul64k(o: Order, a: Elem, t: Table, ghost g: Elem) returns (r: Elem)
    requires t == TableOf(o, g)
    ensures r == Mul(g, a)
  {
    var i := 0;
    r := t[i][ByteAt(o, a, i)];
    AppendStart(o, g, a, i);
    i := i + 1;
    while i < 16
      invariant 1 <= i <= 16 && r == Below(g, a, i)
    {
      AppendStep(o, g, a, i);
      r := Add(r, t[i][ByteAt(o, a, i)]);
      i := i + 1;
    }
    Ends(g, a);
  }
}
