/** GF(2^128): the bitwise product, and the table-driven products of
    kernel/linux/crypto/gf128mul.c in both bit orders. */
module Gf128 {
  import opened Collections
  import Bits

  /** A field element by its coefficients: x[i] is the coefficient of X^i. */
  type Elem = x: seq<bool> | |x| == 128 witness Bits.Zeros(128)

  const ZERO: Elem := Bits.Zeros(128)

  /** X^128 modulo the field polynomial: 1 + X + X^2 + X^7. */
  function R(): Elem {
    seq(128, i => i == 0 || i == 1 || i == 2 || i == 7)
  }

  function Add(a: Elem, b: Elem): Elem { Bits.Xor(a, b) }

  /** a if c, else 0. */
  function When(c: bool, a: Elem): Elem { if c then a else ZERO }

  /** Multiplication by X. */
  function MulX(c: Elem): Elem {
    Add([false] + c[..127], When(c[127], R()))
  }

  /** Coefficient by coefficient: everything moves up by one, and X^128 is 1 + X + X^2 + X^7. */
  lemma MulXBit(c: Elem, i: nat)
    requires i < 128
    ensures MulX(c)[i] == ((i > 0 && c[i - 1]) != (c[127] && (i == 0 || i == 1 || i == 2 || i == 7)))
  {
  }

  /** g * X^n */
  function XPow(g: Elem, n: nat): Elem {
    if n == 0 then g else MulX(XPow(g, n - 1))
  }

  /** g * X^(8n): n whole bytes up. */
  function XBytes(g: Elem, n: nat): Elem {
    XPow(g, 8 * n)
  }

  /** The bitwise product of section 6.3 of NIST SP 800-38D: add g for every set
      coefficient, multiplying g by X from one coefficient to the next. */
  function Mul(g: Elem, a: seq<bool>): Elem
    decreases |a|
  {
    if a == [] then ZERO else Add(When(a[0], g), Mul(MulX(g), a[1..]))
  }

  // Linearity.

  lemma AddLaws(a: Elem, b: Elem, c: Elem)
    ensures Add(a, b) == Add(b, a) && Add(Add(a, b), c) == Add(a, Add(b, c))
    ensures Add(a, ZERO) == a && Add(ZERO, a) == a && Add(a, a) == ZERO
  {
  }

  lemma Swap4(a: Elem, b: Elem, c: Elem, d: Elem)
    ensures Add(Add(a, b), Add(c, d)) == Add(Add(a, c), Add(b, d))
  {
  }

  lemma MulXAdd(a: Elem, b: Elem)
    ensures MulX(Add(a, b)) == Add(MulX(a), MulX(b))
    ensures MulX(ZERO) == ZERO
  {
  }

  lemma {:induction false} XPowAdd(a: Elem, b: Elem, n: nat)
    ensures XPow(Add(a, b), n) == Add(XPow(a, n), XPow(b, n))
    ensures XPow(ZERO, n) == ZERO
  {
    hide MulX, Add;
    if n > 0 {
      XPowAdd(a, b, n - 1);
      MulXAdd(XPow(a, n - 1), XPow(b, n - 1));
    }
  }

  lemma {:induction false} XPowTwice(g: Elem, m: nat, n: nat)
    ensures XPow(XPow(g, m), n) == XPow(g, m + n)
  {
    if n > 0 { XPowTwice(g, m, n - 1); }
  }

  /** The product is linear in the bits of its second factor. */
  lemma {:induction false} MulAdd(g: Elem, a: seq<bool>, b: seq<bool>)
    requires |a| == |b|
    ensures Mul(g, Bits.Xor(a, b)) == Add(Mul(g, a), Mul(g, b))
    decreases |a|
  {
    if a != [] {
      var c := Bits.Xor(a, b);
      assert c[1..] == Bits.Xor(a[1..], b[1..]);
      MulAdd(MulX(g), a[1..], b[1..]);
      assert When(c[0], g) == Add(When(a[0], g), When(b[0], g));
      Swap4(When(a[0], g), When(b[0], g), Mul(MulX(g), a[1..]), Mul(MulX(g), b[1..]));
    } else {
      AddLaws(ZERO, ZERO, ZERO);
    }
  }

  lemma {:induction false} MulZeros(g: Elem, n: nat)
    ensures Mul(g, Bits.Zeros(n)) == ZERO
    decreases n
  {
    if n > 0 {
      assert Bits.Zeros(n)[1..] == Bits.Zeros(n - 1);
      MulZeros(MulX(g), n - 1);
      AddLaws(ZERO, ZERO, ZERO);
    }
  }

  /** Multiplying first by X^n changes nothing but the base. */
  lemma {:induction false} MulOfXPow(g: Elem, a: seq<bool>, n: nat)
    ensures Mul(XPow(g, n), a) == XPow(Mul(g, a), n)
    decreases |a|
  {
    if a == [] {
      XPowAdd(ZERO, ZERO, n);
    } else {
      XPowCommutes(g, n);
      MulOfXPow(MulX(g), a[1..], n);
      XPowAdd(When(a[0], g), Mul(MulX(g), a[1..]), n);
      XPowAdd(ZERO, ZERO, n);
    }
  }

  lemma {:induction false} XPowCommutes(g: Elem, n: nat)
    ensures MulX(XPow(g, n)) == XPow(MulX(g), n)
  {
    hide MulX;
    if n > 0 { XPowCommutes(g, n - 1); }
  }

  /** The product splits at any bit position of the second factor. */
  lemma {:induction false} MulSplit(g: Elem, a: seq<bool>, b: seq<bool>)
    ensures Mul(g, a + b) == Add(Mul(g, a), Mul(XPow(g, |a|), b))
    decreases |a|
  {
    if a == [] {
      assert a + b == b;
      AddLaws(Mul(g, b), ZERO, ZERO);
    } else {
      assert (a + b)[1..] == a[1..] + b;
      MulSplit(MulX(g), a[1..], b);
      XPowTwice(g, 1, |a| - 1);
      assert XPow(g, 1) == MulX(XPow(g, 0));
      AddLaws(When(a[0], g), Mul(MulX(g), a[1..]), Mul(XPow(g, |a|), b));
    }
  }

  // Multiplication by X^8 in one step.

  /** The reduction constant of one overflow bit: 0xe100 >> m in lle order, 0x0087 << m in
      bbe order. */
  function XdaTerm(m: nat): Elem {
    seq(128, i => i == m || i == m + 1 || i == m + 2 || i == m + 7)
  }

  /** Each constant is what its overflow bit, X^(128 + m), reduces to. */
  lemma {:induction false} XdaTermIsPower(m: nat)
    requires m < 8
    ensures XdaTerm(m) == XPow(R(), m)
  {
    if m == 0 {
      assert XdaTerm(0) == R();
    } else {
      XdaTermIsPower(m - 1);
      assert XdaTerm(m) == MulX(XdaTerm(m - 1));
    }
  }

  /** gf128mul_table_lle and gf128mul_table_bbe: what overflowing coefficients of X^128 ..
      X^(127 + n) reduce to. */
  function Xda(hi: seq<bool>): Elem {
    if hi == [] then ZERO
    else Add(Xda(hi[..|hi| - 1]), When(hi[|hi| - 1], XdaTerm(|hi| - 1)))
  }

  /** Moving up by n places; the top n coefficients drop out. */
  function Up(c: Elem, n: nat): Elem
    requires n <= 128
  {
    Bits.Zeros(n) + c[..128 - n]
  }

  /** The reductions of up to eight overflow bits stay far from X^127. */
  lemma {:induction false} XdaLow(hi: seq<bool>)
    requires |hi| <= 8
    ensures forall i | 16 <= i < 128 :: !Xda(hi)[i]
    decreases |hi|
  {
    if hi != [] { XdaLow(hi[..|hi| - 1]); }
  }

  /** One more overflow bit in front moves the others up. */
  lemma {:induction false} XdaShift(b: bool, hi: seq<bool>)
    requires |hi| < 8
    ensures Xda([b] + hi) == Add(When(b, R()), Up(Xda(hi), 1))
    decreases |hi|
  {
    var n := |hi|;
    if n == 0 {
      assert ([b] + hi)[..0] == [];
      assert Up(ZERO, 1) == ZERO;
      AddLaws(When(b, R()), ZERO, ZERO);
    } else {
      assert ([b] + hi)[..n] == [b] + hi[..n - 1];
      XdaShift(b, hi[..n - 1]);
      XdaShiftLast(When(b, R()), Xda(hi[..n - 1]), hi[n - 1], n);
    }
  }

  lemma XdaShiftLast(r: Elem, x: Elem, last: bool, n: nat)
    requires 0 < n < 8
    ensures Add(Add(r, Up(x, 1)), When(last, XdaTerm(n))) == Add(r, Up(Add(x, When(last, XdaTerm(n - 1))), 1))
  {
    var t := When(last, XdaTerm(n - 1));
    assert Up(t, 1) == When(last, XdaTerm(n));
    assert Up(Add(x, t), 1) == Add(Up(x, 1), Up(t, 1));
    AddLaws(r, Up(x, 1), Up(t, 1));
  }

  lemma MulXUp(c: Elem, n: nat)
    requires 0 < n <= 8
    ensures MulX(Up(c, n - 1)) == Add(Up(c, n), When(c[128 - n], R()))
  {
    var u := Up(c, n - 1);
    assert u[127] == c[128 - n];
    var v, w := [false] + u[..127], Up(c, n);
    forall i | 0 <= i < 128 ensures v[i] == w[i] {
      if i >= n { assert v[i] == u[i - 1] == c[i - n] == w[i]; }
    }
    assert v == w;
  }

  lemma MulXLow(x: Elem)
    requires !x[127]
    ensures MulX(x) == Up(x, 1)
  {
    assert [false] + x[..127] == Up(x, 1);
    AddLaws(Up(x, 1), ZERO, ZERO);
  }

  lemma XPowOneMore(c: Elem, n: nat, b: bool, x: Elem)
    requires 0 < n <= 8 && b == c[128 - n] && !x[127]
    ensures MulX(Add(Up(c, n - 1), x)) == Add(Up(c, n), Add(When(b, R()), Up(x, 1)))
  {
    MulXAdd(Up(c, n - 1), x);
    MulXUp(c, n);
    MulXLow(x);
    AddLaws(Up(c, n), When(b, R()), Up(x, 1));
  }

  /** n multiplications by X in one step: shift by n and reduce the n bits that overflow. */
  lemma {:induction false} XPowStep(c: Elem, n: nat)
    requires n <= 8
    ensures XPow(c, n) == Add(Up(c, n), Xda(c[128 - n..]))
    decreases n
  {
    if n == 0 {
      XPowNone(c);
    } else {
      XPowStep(c, n - 1);
      XPowStepFrom(c, n, XPow(c, n - 1));
    }
  }

  lemma XPowStepFrom(c: Elem, n: nat, prev: Elem)
    requires 0 < n <= 8 && prev == Add(Up(c, n - 1), Xda(c[128 - (n - 1)..]))
    ensures MulX(prev) == Add(Up(c, n), Xda(c[128 - n..]))
  {
    hide *;
    TailCons(c, 128 - n);
    XdaNext(c[128 - (n - 1)..], c[128 - n..], c[128 - n]);
    XPowOneMore(c, n, c[128 - n], Xda(c[128 - (n - 1)..]));
  }

  lemma TailCons(c: seq<bool>, i: nat)
    requires i < |c|
    ensures c[i..] == [c[i]] + c[i + 1..]
  {
  }

  lemma XdaNext(hi: seq<bool>, hi': seq<bool>, b: bool)
    requires |hi| < 8 && hi' == [b] + hi
    ensures !Xda(hi)[127] && Xda(hi') == Add(When(b, R()), Up(Xda(hi), 1))
  {
    XdaLow(hi);
    XdaShift(b, hi);
  }

  lemma XPowNone(c: Elem)
    ensures c == Add(Up(c, 0), Xda(c[128..]))
  {
    assert Up(c, 0) == c;
    AddLaws(c, ZERO, ZERO);
  }

  /** gf128mul_x_lle, gf128mul_x_bbe */
  method TimesX(c: Elem) returns (r: Elem)
    ensures r == MulX(c)
  {
    var tt := Xda([c[127]]);
    r := Add([false] + c[..127], tt);
    assert Xda([c[127]]) == When(c[127], R()) by {
      assert [c[127]][..0] == [];
      AddLaws(When(c[127], R()), ZERO, ZERO);
    }
  }

  /** gf128mul_x8_lle, gf128mul_x8_bbe: shift by one byte and one table lookup */
  method TimesX8(c: Elem) returns (r: Elem)
    ensures r == XBytes(c, 1)
  {
    r := Add(Bits.Zeros(8) + c[..120], Xda(c[120..]));
    XPowStep(c, 8);
  }

  lemma XBytesNext(g: Elem, n: nat)
    ensures XBytes(XBytes(g, n), 1) == XBytes(g, n + 1) && XBytes(g, 0) == g
  {
    XPowTwice(g, 8 * n, 8 * 1);
  }

  lemma MulOfXBytes(g: Elem, a: seq<bool>, n: nat)
    ensures Mul(XBytes(g, n), a) == XBytes(Mul(g, a), n)
  {
    MulOfXPow(g, a, 8 * n);
  }

  // Bytes.

  /** How the bits of a byte are laid out: most significant bit is the lowest power (lle) or
      the highest power (bbe). */
  datatype Order = Lle | Bbe

  /** The n low bits of a number, least significant first. */
  function Low(b: nat, n: nat): (s: seq<bool>)
    ensures |s| == n
  {
    if n == 0 then [] else [b % 2 == 1] + Low(b / 2, n - 1)
  }

  function Reverse(s: seq<bool>): (r: seq<bool>)
    ensures |r| == |s| && forall i | 0 <= i < |s| :: r[i] == s[|s| - 1 - i]
  {
    seq(|s|, i requires 0 <= i < |s| => s[|s| - 1 - i])
  }

  /** The coefficients a byte stands for. */
  function Coefs(o: Order, b: nat): (s: seq<bool>)
    ensures |s| == 8
  {
    if o.Bbe? then Low(b, 8) else Reverse(Low(b, 8))
  }

  function Value(s: seq<bool>): nat {
    if s == [] then 0 else (if s[0] then 1 else 0) + 2 * Value(s[1..])
  }

  /** The byte that stands for eight coefficients. */
  function ByteOf(o: Order, s: seq<bool>): nat {
    if o.Bbe? then Value(s) else Value(Reverse(s))
  }

  lemma {:induction false} ValueLow(s: seq<bool>)
    ensures Low(Value(s), |s|) == s && Value(s) < Pow2(|s|)
    decreases |s|
  {
    if s != [] {
      ValueLow(s[1..]);
      assert s == [s[0]] + s[1..];
    }
  }

  lemma ByteOfCoefs(o: Order, s: seq<bool>)
    requires |s| == 8
    ensures ByteOf(o, s) < 256 && Coefs(o, ByteOf(o, s)) == s
  {
    ValueLow(s);
    ValueLow(Reverse(s));
    assert Reverse(Reverse(s)) == s;
    assert Pow2(8) == 256;
  }

  lemma XorCons(a: bool, s: seq<bool>, b: bool, t: seq<bool>)
    requires |s| == |t|
    ensures Bits.Xor([a] + s, [b] + t) == [a != b] + Bits.Xor(s, t)
  {
  }

  /** A bit above all bits of k does not interact with them. */
  lemma {:induction false} LowAdd(m: nat, k: nat, n: nat)
    requires m < n && k < Pow2(m)
    ensures Low(Pow2(m) + k, n) == Bits.Xor(Low(Pow2(m), n), Low(k, n))
    decreases n
  {
    if m == 0 {
      LowZero(n);
      assert Low(1, n) == Bits.Xor(Low(1, n), Bits.Zeros(n));
    } else {
      LowAdd(m - 1, k / 2, n - 1);
      LowAddStep(Pow2(m - 1), k, n);
    }
  }

  lemma LowAddStep(h: nat, k: nat, n: nat)
    requires n > 0 && Low(h + k / 2, n - 1) == Bits.Xor(Low(h, n - 1), Low(k / 2, n - 1))
    ensures Low(2 * h + k, n) == Bits.Xor(Low(2 * h, n), Low(k, n))
  {
    assert (2 * h + k) / 2 == h + k / 2 && (2 * h + k) % 2 == k % 2;
    assert (2 * h) / 2 == h && (2 * h) % 2 == 0;
    XorCons(false, Low(h, n - 1), k % 2 == 1, Low(k / 2, n - 1));
  }

  lemma {:induction false} LowZero(n: nat)
    ensures Low(0, n) == Bits.Zeros(n)
  {
    if n > 0 { LowZero(n - 1); }
  }

  /** A power of two is a single bit. */
  lemma {:induction false} LowPow2(m: nat, n: nat)
    requires m < n
    ensures forall i | 0 <= i < n :: Low(Pow2(m), n)[i] == (i == m)
    decreases n
  {
    if m == 0 {
      LowZero(n - 1);
    } else {
      LowPow2(m - 1, n - 1);
    }
  }

  lemma CoefsAdd(o: Order, m: nat, k: nat)
    requires m < 8 && k < Pow2(m)
    ensures Coefs(o, Pow2(m) + k) == Bits.Xor(Coefs(o, Pow2(m)), Coefs(o, k))
  {
    LowAdd(m, k, 8);
  }
}
