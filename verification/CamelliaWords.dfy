/** Camellia on 64-bit halves: the round function and the FL layer, as section 2.4 of
    RFC 3713 defines them and as kernel/linux/crypto/camellia.c computes them. */
module CamelliaWords {
  import Bits

  type Byte = x: seq<bool> | |x| == 8 witness Bits.Zeros(8)
  type Word = x: seq<bool> | |x| == 32 witness Bits.Zeros(32)

  /** Eight bytes as the source keeps them: a left and a right 32-bit word. */
  datatype Half = Half(l: Word, r: Word)

  function Xor8(a: Byte, b: Byte): Byte { Bits.Xor(a, b) }
  function Xor32(a: Word, b: Word): Word { Bits.Xor(a, b) }

  function Xor(a: Half, b: Half): Half {
    Half(Xor32(a.l, b.l), Xor32(a.r, b.r))
  }

  const ZERO := Half(Bits.Zeros(32), Bits.Zeros(32))

  // Xor is an abelian group in which every element is its own inverse.

  lemma XorComm(a: Half, b: Half)
    ensures Xor(a, b) == Xor(b, a)
  {
    assert Xor32(a.l, b.l) == Xor32(b.l, a.l);
    assert Xor32(a.r, b.r) == Xor32(b.r, a.r);
  }

  lemma XorAssoc(a: Half, b: Half, c: Half)
    ensures Xor(Xor(a, b), c) == Xor(a, Xor(b, c))
  {
    assert Xor32(Xor32(a.l, b.l), c.l) == Xor32(a.l, Xor32(b.l, c.l));
    assert Xor32(Xor32(a.r, b.r), c.r) == Xor32(a.r, Xor32(b.r, c.r));
  }

  lemma XorCancel(a: Half, b: Half)
    ensures Xor(Xor(a, b), b) == a
  {
    assert Xor32(Xor32(a.l, b.l), b.l) == a.l;
    assert Xor32(Xor32(a.r, b.r), b.r) == a.r;
  }

  // Word operations of the source.

  function Rr8(x: Word): Word { Bits.Rotl(x, 24) }
  function Rl1(x: Word): Word { Bits.Rotl(x, 1) }
  function Rl8(x: Word): Word { Bits.Rotl(x, 8) }

  /** The four substitution boxes, with any contents. */
  datatype Boxes = Boxes(s1: Byte -> Byte, s2: Byte -> Byte, s3: Byte -> Byte, s4: Byte -> Byte)

  function Bytes4(b3: Byte, b2: Byte, b1: Byte, b0: Byte): Word {
    b3 + b2 + b1 + b0
  }

  const NIL: Byte := Bits.Zeros(8)

  // The tables camellia_sp1110, camellia_sp0222, camellia_sp3033, camellia_sp4404.
  function Sp1110(t: Byte): Word { Bytes4(t, t, t, NIL) }
  function Sp0222(t: Byte): Word { Bytes4(NIL, t, t, t) }
  function Sp3033(t: Byte): Word { Bytes4(t, NIL, t, t) }
  function Sp4404(t: Byte): Word { Bytes4(t, t, NIL, t) }

  // The reference.

  function X5(a: Byte, b: Byte, c: Byte, d: Byte, e: Byte): Byte {
    Xor8(Xor8(Xor8(Xor8(a, b), c), d), e)
  }

  function X6(a: Byte, b: Byte, c: Byte, d: Byte, e: Byte, f: Byte): Byte {
    Xor8(X5(a, b, c, d, e), f)
  }

  /** The P layer of RFC 3713, section 2.4.1. */
  function P(t1: Byte, t2: Byte, t3: Byte, t4: Byte, t5: Byte, t6: Byte, t7: Byte, t8: Byte): Half {
    Half(Bytes4(X6(t1, t3, t4, t6, t7, t8),
                X6(t1, t2, t4, t5, t7, t8),
                X6(t1, t2, t3, t5, t6, t8),
                X6(t2, t3, t4, t5, t6, t7)),
         Bytes4(X5(t1, t2, t6, t7, t8),
                X5(t2, t3, t5, t7, t8),
                X5(t3, t4, t5, t6, t8),
                X5(t1, t4, t5, t6, t7)))
  }

  /** Substitution and P layer, without the key. */
  function G(s: Boxes, x: Half): Half {
    P(s.s1(x.l[..8]), s.s2(x.l[8..16]), s.s3(x.l[16..24]), s.s4(x.l[24..]),
      s.s2(x.r[..8]), s.s3(x.r[8..16]), s.s4(x.r[16..24]), s.s1(x.r[24..]))
  }

  /** The F function of RFC 3713. */
  function F(s: Boxes, x: Half, k: Half): Half {
    G(s, Xor(x, k))
  }

  /** The FL function of RFC 3713, section 2.4.2. */
  function FL(x: Half, k: Half): Half {
    var r := Xor32(x.r, Bits.Rotl(Bits.And(x.l, k.l), 1));
    Half(Xor32(x.l, Bits.Or(r, k.r)), r)
  }

  /** The FLINV function of RFC 3713. */
  function FLinv(y: Half, k: Half): Half {
    var l := Xor32(y.l, Bits.Or(y.r, k.r));
    Half(l, Xor32(y.r, Bits.Rotl(Bits.And(l, k.l), 1)))
  }

  /** FL bit by bit, the highest bit first. */
  lemma FLBits(x: Half, k: Half, i: nat)
    requires i < 32
    ensures var j := if i < 31 then i + 1 else 0;
            FL(x, k).r[i] == (x.r[i] != (x.l[j] && k.l[j])) && FL(x, k).l[i] == (x.l[i] != (FL(x, k).r[i] || k.r[i]))
  {
    Bits.RotlBit(Bits.And(x.l, k.l), 1, i);
  }

  lemma FLInverse(x: Half, k: Half)
    ensures FLinv(FL(x, k), k) == x && FL(FLinv(x, k), k) == x
  {
    var r := Xor32(x.r, Rl1(Bits.And(x.l, k.l)));
    assert Xor32(Xor32(x.l, Bits.Or(r, k.r)), Bits.Or(r, k.r)) == x.l;
    assert Xor32(r, Rl1(Bits.And(x.l, k.l))) == x.r;
    var l := Xor32(x.l, Bits.Or(x.r, k.r));
    assert Xor32(Xor32(x.r, Rl1(Bits.And(l, k.l))), Rl1(Bits.And(l, k.l))) == x.r;
    assert Xor32(l, Bits.Or(x.r, k.r)) == x.l;
  }

  // What the source computes instead.

  /** The part of F that is linear in both the data and a key added after the tables. */
  function Q(i: Half): Half {
    var x := Xor32(i.l, i.r);
    Half(x, Xor32(Rr8(i.l), x))
  }

  /** "the inverse of the last half of P-function" */
  function Qinv(k: Half): Half {
    var dw := Rl8(Xor32(k.l, k.r));
    Half(dw, Xor32(k.l, dw))
  }

  lemma QInverse(k: Half)
    ensures Q(Qinv(k)) == k
  {
    var dw := Rl8(Xor32(k.l, k.r));
    assert Xor32(dw, Xor32(k.l, dw)) == k.l;
    assert Rr8(dw) == Xor32(k.l, k.r);
    assert Xor32(Xor32(k.l, k.r), k.l) == k.r;
  }

  lemma QLinear(a: Half, b: Half)
    ensures Q(Xor(a, b)) == Xor(Q(a), Q(b))
  {
    Bits.RotlXor(a.l, b.l, 24);
    var c := Xor(a, b);
    assert Xor32(c.l, c.r) == Xor32(Xor32(a.l, a.r), Xor32(b.l, b.r));
    assert Q(c).r == Xor32(Q(a).r, Q(b).r);
  }

  /** The table lookups: (il, ir) of CAMELLIA_ROUNDSM before any key is added. */
  function Tables(s: Boxes, x: Half): Half {
    Half(Mix(s.s1(x.l[..8]), s.s2(x.l[8..16]), s.s3(x.l[16..24]), s.s4(x.l[24..])),
         Mix(s.s1(x.r[24..]), s.s2(x.r[..8]), s.s3(x.r[8..16]), s.s4(x.r[16..24])))
  }

  /** One lookup in each table. */
  function Mix(a: Byte, b: Byte, c: Byte, d: Byte): Word {
    Xor32(Xor32(Xor32(Sp1110(a), Sp0222(b)), Sp3033(c)), Sp4404(d))
  }

  lemma MixBytes(a: Byte, b: Byte, c: Byte, d: Byte)
    ensures Mix(a, b, c, d) == Bytes4(Xor8(Xor8(a, c), d), Xor8(Xor8(a, b), d), Xor8(Xor8(a, b), c), Xor8(Xor8(b, c), d))
  {
  }

  lemma Xor32Bytes(a3: Byte, a2: Byte, a1: Byte, a0: Byte, b3: Byte, b2: Byte, b1: Byte, b0: Byte)
    ensures Xor32(Bytes4(a3, a2, a1, a0), Bytes4(b3, b2, b1, b0))
            == Bytes4(Xor8(a3, b3), Xor8(a2, b2), Xor8(a1, b1), Xor8(a0, b0))
  {
  }

  lemma Rr8Bytes(b3: Byte, b2: Byte, b1: Byte, b0: Byte)
    ensures Rr8(Bytes4(b3, b2, b1, b0)) == Bytes4(b0, b3, b2, b1)
  {
    assert Bytes4(b3, b2, b1, b0)[24..] == b0;
    assert Bytes4(b3, b2, b1, b0)[..24] == b3 + b2 + b1;
  }

  /** The four 32-bit tables and one rotation compute the byte-wise P layer. */
  lemma TablesComputeP(t1: Byte, t2: Byte, t3: Byte, t4: Byte, t5: Byte, t6: Byte, t7: Byte, t8: Byte)
    ensures Q(Half(Mix(t1, t2, t3, t4), Mix(t8, t5, t6, t7))) == P(t1, t2, t3, t4, t5, t6, t7, t8)
  {
    MixBytes(t1, t2, t3, t4);
    MixBytes(t8, t5, t6, t7);
    var a3, a2, a1, a0 := Xor8(Xor8(t1, t3), t4), Xor8(Xor8(t1, t2), t4), Xor8(Xor8(t1, t2), t3), Xor8(Xor8(t2, t3), t4);
    var b3, b2, b1, b0 := Xor8(Xor8(t8, t6), t7), Xor8(Xor8(t8, t5), t7), Xor8(Xor8(t8, t5), t6), Xor8(Xor8(t5, t6), t7);
    Xor32Bytes(a3, a2, a1, a0, b3, b2, b1, b0);
    Rr8Bytes(a3, a2, a1, a0);
    var y3, y2, y1, y0 := Xor8(a3, b3), Xor8(a2, b2), Xor8(a1, b1), Xor8(a0, b0);
    Xor32Bytes(a0, a3, a2, a1, y3, y2, y1, y0);
    assert y3 == X6(t1, t3, t4, t6, t7, t8);
    assert y2 == X6(t1, t2, t4, t5, t7, t8);
    assert y1 == X6(t1, t2, t3, t5, t6, t8);
    assert y0 == X6(t2, t3, t4, t5, t6, t7);
    assert Xor8(a0, y3) == X5(t1, t2, t6, t7, t8);
    assert Xor8(a3, y2) == X5(t2, t3, t5, t7, t8);
    assert Xor8(a2, y1) == X5(t3, t4, t5, t6, t8);
    assert Xor8(a1, y0) == X5(t1, t4, t5, t6, t7);
  }

  lemma TablesComputeG(s: Boxes, x: Half)
    ensures Q(Tables(s, x)) == G(s, x)
  {
    TablesComputeP(s.s1(x.l[..8]), s.s2(x.l[8..16]), s.s3(x.l[16..24]), s.s4(x.l[24..]),
                   s.s2(x.r[..8]), s.s3(x.r[8..16]), s.s4(x.r[16..24]), s.s1(x.r[24..]));
  }

  /** CAMELLIA_F: the round function with the key in front, as the key schedule uses it. */
  method MacroF(s: Boxes, x: Half, k: Half) returns (y: Half)
    ensures y == F(s, x, k)
  {
    var il, ir := Xor32(x.l, k.l), Xor32(x.r, k.r);
    var yl := Mix(s.s1(ir[24..]), s.s2(ir[..8]), s.s3(ir[8..16]), s.s4(ir[16..24]));
    var yr := Mix(s.s1(il[..8]), s.s2(il[8..16]), s.s3(il[16..24]), s.s4(il[24..]));
    TablesComputeG(s, Half(il, ir));
    assert Q(Half(yr, yl)) == G(s, Half(il, ir));
    assert Xor32(yl, yr) == Xor32(yr, yl);
    yl := Xor32(yl, yr);
    yr := Rr8(yr);
    yr := Xor32(yr, yl);
    y := Half(yl, yr);
  }

  /** CAMELLIA_ROUNDSM: the key is added behind the tables. */
  method RoundSm(s: Boxes, x: Half, k: Half, y: Half) returns (y': Half)
    ensures y' == Xor(Xor(y, G(s, x)), Q(k))
  {
    var ir := Mix(s.s1(x.r[24..]), s.s2(x.r[..8]), s.s3(x.r[8..16]), s.s4(x.r[16..24]));
    var il := Mix(s.s1(x.l[..8]), s.s2(x.l[8..16]), s.s3(x.l[16..24]), s.s4(x.l[24..]));
    ghost var t := Half(il, ir);
    TablesComputeG(s, x);
    QLinear(t, k);
    XorAssoc(y, Q(t), Q(k));
    RoundTail(t, k);
    il := Xor32(il, k.l);
    ir := Xor32(ir, Xor32(il, k.r));
    y' := Half(Xor32(y.l, ir), Xor32(y.r, Xor32(Rr8(il), ir)));
  }

  /** Adding the key in the middle of the tail of ROUNDSM. */
  lemma RoundTail(t: Half, k: Half)
    ensures var il := Xor32(t.l, k.l);
            var ir := Xor32(t.r, Xor32(il, k.r));
            Q(Xor(t, k)) == Half(ir, Xor32(Rr8(il), ir))
  {
    var il := Xor32(t.l, k.l);
    assert Xor32(il, Xor32(t.r, k.r)) == Xor32(t.r, Xor32(il, k.r));
  }

  /** CAMELLIA_FLS: FL on the left half and FLINV on the right half. */
  method Fls(x: Half, y: Half, kl: Half, kr: Half) returns (x': Half, y': Half)
    ensures x' == FL(x, kl) && y' == FLinv(y, kr)
  {
    var t0 := Bits.And(kl.l, x.l);
    var t2 := Bits.Or(kr.r, y.r);
    assert t0 == Bits.And(x.l, kl.l) && t2 == Bits.Or(y.r, kr.r);
    var rl := Xor32(y.l, t2);
    var lr := Xor32(x.r, Rl1(t0));
    var t3 := Bits.And(kr.l, rl);
    var t1 := Bits.Or(kl.r, lr);
    assert t3 == Bits.And(rl, kr.l) && t1 == Bits.Or(lr, kl.r);
    x' := Half(Xor32(x.l, t1), lr);
    y' := Half(rl, Xor32(y.r, Rl1(t3)));
  }

  // Differences through the FL layer.

  /** How FL with key k moves a difference. */
  function Through(d: Half, k: Half): Half {
    var r := Xor32(d.r, Rl1(Bits.And(d.l, k.l)));
    Half(Xor32(d.l, Bits.And(r, Bits.Not(k.r))), r)
  }

  /** How FLINV with key k moves a difference: the source's tl, dw, tr computation. */
  function Back(d: Half, k: Half): Half {
    var l := Xor32(d.l, Bits.And(d.r, Bits.Not(k.r)));
    Half(l, Xor32(d.r, Rl1(Bits.And(l, k.l))))
  }

  /** And distributes over a difference; Or keeps the bits where the key is clear. */
  lemma MaskDifference(x: Word, d: Word, k: Word)
    ensures Rl1(Bits.And(Xor32(x, d), k)) == Xor32(Rl1(Bits.And(x, k)), Rl1(Bits.And(d, k)))
    ensures Bits.Or(Xor32(x, d), k) == Xor32(Bits.Or(x, k), Bits.And(d, Bits.Not(k)))
    ensures Bits.And(Xor32(x, d), Bits.Not(k)) == Xor32(Bits.And(x, Bits.Not(k)), Bits.And(d, Bits.Not(k)))
  {
    assert Bits.And(Xor32(x, d), k) == Xor32(Bits.And(x, k), Bits.And(d, k));
    Bits.RotlXor(Bits.And(x, k), Bits.And(d, k), 1);
  }

  lemma Swap4(a: Word, b: Word, c: Word, d: Word)
    ensures Xor32(Xor32(a, b), Xor32(c, d)) == Xor32(Xor32(a, c), Xor32(b, d))
  {
  }

  lemma FLMovesDifference(x: Half, d: Half, k: Half)
    ensures FL(Xor(x, d), k) == Xor(FL(x, k), Through(d, k))
  {
    MaskDifference(x.l, d.l, k.l);
    Swap4(x.r, d.r, Rl1(Bits.And(x.l, k.l)), Rl1(Bits.And(d.l, k.l)));
    var xr, dr := FL(x, k).r, Through(d, k).r;
    MaskDifference(xr, dr, k.r);
    Swap4(x.l, d.l, Bits.Or(xr, k.r), Bits.And(dr, Bits.Not(k.r)));
  }

  lemma FLinvMovesDifference(x: Half, d: Half, k: Half)
    ensures FLinv(Xor(x, d), k) == Xor(FLinv(x, k), Back(d, k))
  {
    MaskDifference(x.r, d.r, k.r);
    Swap4(x.l, d.l, Bits.Or(x.r, k.r), Bits.And(d.r, Bits.Not(k.r)));
    var xl, dl := FLinv(x, k).l, Back(d, k).l;
    MaskDifference(xl, dl, k.l);
    Swap4(x.r, d.r, Rl1(Bits.And(xl, k.l)), Rl1(Bits.And(dl, k.l)));
  }

  lemma ThroughBack(d: Half, k: Half)
    ensures Through(Back(d, k), k) == d
  {
    var l := Back(d, k).l;
    var m := Rl1(Bits.And(l, k.l));
    assert Xor32(Xor32(d.r, m), m) == d.r;
    var n := Bits.And(d.r, Bits.Not(k.r));
    assert Xor32(Xor32(d.l, n), n) == d.l;
  }

  lemma BackLinear(a: Half, b: Half, k: Half)
    ensures Back(Xor(a, b), k) == Xor(Back(a, k), Back(b, k))
  {
    MaskDifference(a.r, b.r, k.r);
    Swap4(a.l, b.l, Bits.And(a.r, Bits.Not(k.r)), Bits.And(b.r, Bits.Not(k.r)));
    var al, bl := Back(a, k).l, Back(b, k).l;
    MaskDifference(al, bl, k.l);
    Swap4(a.r, b.r, Rl1(Bits.And(al, k.l)), Rl1(Bits.And(bl, k.l)));
  }
}
