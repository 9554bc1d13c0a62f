/** camellia_setup128, camellia_encrypt128 and camellia_decrypt128
    (kernel/linux/crypto/camellia.c), proved against RFC 3713. */
module CamelliaSchedule {
  import opened Collections
  import Bits
  import opened CamelliaWords
  import opened Camellia

  /** A 128-bit quantity, most significant bit first. */
  type Quad = x: seq<bool> | |x| == 128 witness Bits.Zeros(128)

  function First(x: Quad): Half { Half(x[..32], x[32..64]) }
  function Second(x: Quad): Half { Half(x[64..96], x[96..]) }

  function Join(a: Half, b: Half): Quad { a.l + a.r + b.l + b.r }

  lemma JoinParts(a: Half, b: Half)
    ensures First(Join(a, b)) == a && Second(Join(a, b)) == b
  {
    var x := Join(a, b);
    assert x[..32] == a.l && x[32..64] == a.r && x[64..96] == b.l && x[96..] == b.r;
  }

  // The constants of the source, as pairs of words.
  const SIGMA1 := Half(Bits.Binary(0xA09E667F, 32), Bits.Binary(0x3BCC908B, 32))
  const SIGMA2 := Half(Bits.Binary(0xB67AE858, 32), Bits.Binary(0x4CAA73B2, 32))
  const SIGMA3 := Half(Bits.Binary(0xC6EF372F, 32), Bits.Binary(0xE94F82BE, 32))
  const SIGMA4 := Half(Bits.Binary(0x54FF53A5, 32), Bits.Binary(0xF1D36F1C, 32))

  /** The constants Sigma1 to Sigma4 of RFC 3713, section 2.2. */
  const RFC_SIGMA: seq<nat> := [0xA09E667F3BCC908B, 0xB67AE8584CAA73B2, 0xC6EF372FE94F82BE, 0x54FF53A5F1D36F1C]

  function Sigma(i: nat): Half
    requires i < 4
  {
    var b := Bits.Binary(RFC_SIGMA[i], 64);
    Half(b[..32], b[32..])
  }

  /** Two words are the halves of the 64-bit constant. */
  lemma WordsOfSigma(h: nat, l: nat, i: nat)
    requires h < 0x1_0000_0000 && l < 0x1_0000_0000 && i < 4 && RFC_SIGMA[i] == h * 0x1_0000_0000 + l
    ensures Half(Bits.Binary(h, 32), Bits.Binary(l, 32)) == Sigma(i)
  {
    hide Bits.Binary, Pow2;
    Pow32();
    BinarySplit(h, l, 32, 32);
  }

  /** The lower bits of a number are those of its remainder. */
  lemma {:induction false} BinarySplit(h: nat, l: nat, a: nat, b: nat)
    requires l < Pow2(b)
    ensures Bits.Binary(h * Pow2(b) + l, a + b) == Bits.Binary(h, a) + Bits.Binary(l, b)
    decreases b
  {
    if b > 0 {
      BinarySplit(h, l / 2, a, b - 1);
      Halve(h, l, b);
      SnocSplit(h * Pow2(b) + l, h, l, a, b);
    }
  }

  lemma Halve(h: nat, l: nat, b: nat)
    requires b > 0
    ensures var n, m := h * Pow2(b) + l, h * Pow2(b - 1); n / 2 == m + l / 2 && n % 2 == l % 2
  {
    assert h * (2 * Pow2(b - 1)) == 2 * (h * Pow2(b - 1));
  }

  lemma SnocSplit(n: nat, h: nat, l: nat, a: nat, b: nat)
    requires b > 0 && n % 2 == l % 2 && Bits.Binary(n / 2, a + b - 1) == Bits.Binary(h, a) + Bits.Binary(l / 2, b - 1)
    ensures Bits.Binary(n, a + b) == Bits.Binary(h, a) + Bits.Binary(l, b)
  {
    assert Bits.Binary(h, a) + Bits.Binary(l / 2, b - 1) + [l % 2 == 1] ==
           Bits.Binary(h, a) + (Bits.Binary(l / 2, b - 1) + [l % 2 == 1]);
  }

  lemma Pow32()
    ensures Pow2(32) == 0x1_0000_0000
  {
    assert Pow2(8) == 0x100;
    assert Pow2(16) == 0x1_0000;
    assert Pow2(24) == 0x100_0000;
  }

  /** The source's constants are those of the RFC. */
  lemma SigmasAgree()
    ensures SIGMA1 == Sigma(0) && SIGMA2 == Sigma(1) && SIGMA3 == Sigma(2) && SIGMA4 == Sigma(3)
  {
    hide Sigma, Bits.Binary;
    WordsOfSigma(0xA09E667F, 0x3BCC908B, 0);
    WordsOfSigma(0xB67AE858, 0x4CAA73B2, 1);
    WordsOfSigma(0xC6EF372F, 0xE94F82BE, 2);
    WordsOfSigma(0x54FF53A5, 0xF1D36F1C, 3);
  }

  // The reference key schedule: RFC 3713, section 2.2, for a 128-bit key (KR = 0).

  function RfcKa(s: Boxes, kl: Quad): Quad {
    var d1, d2 := First(kl), Second(kl);
    var d2' := Xor(d2, F(s, d1, Sigma(0)));
    var d1' := Xor(d1, F(s, d2', Sigma(1)));
    var e1, e2 := Xor(d1', First(kl)), Xor(d2', Second(kl));
    var e2' := Xor(e2, F(s, e1, Sigma(2)));
    var e1' := Xor(e1, F(s, e2', Sigma(3)));
    Join(e1', e2')
  }

  function Rot(x: Quad, n: nat): Quad
    requires n <= 128
  {
    Bits.Rotl(x, n)
  }

  /** The i-th subkey in the order of use. */
  function RfcKey(kl: Quad, ka: Quad, i: nat): Half
    requires i < 26
  {
    match i
    case 0 => First(kl)              // kw1
    case 1 => Second(kl)             // kw2
    case 2 => First(ka)              // k1
    case 3 => Second(ka)             // k2
    case 4 => First(Rot(kl, 15))     // k3
    case 5 => Second(Rot(kl, 15))    // k4
    case 6 => First(Rot(ka, 15))     // k5
    case 7 => Second(Rot(ka, 15))    // k6
    case 8 => First(Rot(ka, 30))     // ke1
    case 9 => Second(Rot(ka, 30))    // ke2
    case 10 => First(Rot(kl, 45))     // k7
    case 11 => Second(Rot(kl, 45))    // k8
    case 12 => First(Rot(ka, 45))     // k9
    case 13 => Second(Rot(kl, 60))    // k10
    case 14 => First(Rot(ka, 60))     // k11
    case 15 => Second(Rot(ka, 60))    // k12
    case 16 => First(Rot(kl, 77))     // ke3
    case 17 => Second(Rot(kl, 77))    // ke4
    case 18 => First(Rot(kl, 94))     // k13
    case 19 => Second(Rot(kl, 94))    // k14
    case 20 => First(Rot(ka, 94))     // k15
    case 21 => Second(Rot(ka, 94))    // k16
    case 22 => First(Rot(kl, 111))    // k17
    case 23 => Second(Rot(kl, 111))   // k18
    case 24 => First(Rot(ka, 111))    // kw3
    case _ => Second(Rot(ka, 111))   // kw4
  }

  function RfcKeys(s: Boxes, kl: Quad): Keys {
    var ka := RfcKa(s, kl);
    seq(26, i requires 0 <= i < 26 => RfcKey(kl, ka, i))
  }

  // The source's key schedule.

  /** CAMELLIA_ROLDQ: rotate the four words left by fewer than 32 bits. */
  method Roldq(a: Half, b: Half, n: nat) returns (a': Half, b': Half)
    requires 0 < n < 32
    ensures Join(a', b') == Rot(Join(a, b), n)
  {
    var w0 := a.l;
    var ll: Word := a.l[n..] + a.r[..n];
    var lr: Word := a.r[n..] + b.l[..n];
    var rl: Word := b.l[n..] + b.r[..n];
    var rr: Word := b.r[n..] + w0[..n];
    a', b' := Half(ll, lr), Half(rl, rr);
  }

  /** CAMELLIA_ROLDQo32: rotate the four words left by 32 to 63 bits. */
  method RoldqO32(a: Half, b: Half, n: nat) returns (a': Half, b': Half)
    requires 32 < n < 64
    ensures Join(a', b') == Rot(Join(a, b), n)
  {
    var w0, w1 := a.l, a.r;
    var m := n - 32;
    var ll: Word := a.r[m..] + b.l[..m];
    var lr: Word := b.l[m..] + b.r[..m];
    var rl: Word := b.r[m..] + w0[..m];
    var rr: Word := w0[m..] + w1[..m];
    a', b' := Half(ll, lr), Half(rl, rr);
  }

  /** Rotating on from an accumulated rotation. */
  lemma RotOn(x: Quad, m: nat, n: nat)
    requires m + n <= 128
    ensures Rot(Rot(x, m), n) == Rot(x, m + n)
  {
    Bits.RotlTwice(x, m, n);
  }

  /** The subkeys that depend on KL only: the words of the key, rotated step by step. */
  method DeriveKl(key: Quad) returns (sub: Keys)
    ensures forall i | i in {0, 1, 4, 5, 10, 11, 13, 16, 17, 18, 19, 22, 23} ::
              forall ka: Quad :: sub[i] == RfcKey(key, ka, i)
  {
    hide Rot;
    sub := seq(26, _ => ZERO);
    var a, b := First(key), Second(key);
    assert Join(a, b) == key;
    sub := sub[0 := a][1 := b];
    a, b := Roldq(a, b, 15);
    JoinParts(a, b);
    sub := sub[4 := a][5 := b];
    a, b := Roldq(a, b, 30);
    RotOn(key, 15, 30);
    JoinParts(a, b);
    sub := sub[10 := a][11 := b];
    a, b := Roldq(a, b, 15);
    RotOn(key, 45, 15);
    JoinParts(a, b);
    sub := sub[13 := b];
    a, b := Roldq(a, b, 17);
    RotOn(key, 60, 17);
    JoinParts(a, b);
    sub := sub[16 := a][17 := b];
    a, b := Roldq(a, b, 17);
    RotOn(key, 77, 17);
    JoinParts(a, b);
    sub := sub[18 := a][19 := b];
    a, b := Roldq(a, b, 17);
    RotOn(key, 94, 17);
    JoinParts(a, b);
    sub := sub[22 := a][23 := b];
  }

  /** KA, with the two whitening steps of the reference cancelled. */
  method GenerateKa(s: Boxes, key: Quad) returns (a: Half, b: Half)
    ensures Join(a, b) == RfcKa(s, key)
  {
    hide Sigma, Bits.Binary, F;
    SigmasAgree();
    a, b := First(key), Second(key);
    var w := MacroF(s, a, SIGMA1);
    b := Xor(b, w);
    a := MacroF(s, b, SIGMA2);
    ghost var d1, d2 := First(key), b;
    XorComm(d1, a);
    XorCancel(a, d1);
    XorComm(Second(key), w);
    XorCancel(w, Second(key));
    // current status is (a, w)
    b := MacroF(s, a, SIGMA3);
    XorComm(b, w);
    b := Xor(b, w);
    w := MacroF(s, b, SIGMA4);
    a := Xor(a, w);
  }

  /** The remaining subkeys: KA, rotated step by step. */
  method DeriveKa(a0: Half, b0: Half, kl: Keys) returns (sub: Keys)
    ensures forall i | i in {2, 3, 6, 7, 8, 9, 12, 14, 15, 20, 21, 24, 25} ::
              forall key: Quad :: sub[i] == RfcKey(key, Join(a0, b0), i)
    ensures forall i | i in {0, 1, 4, 5, 10, 11, 13, 16, 17, 18, 19, 22, 23} :: sub[i] == kl[i]
  {
    hide Rot;
    sub := kl;
    var a, b := a0, b0;
    ghost var ka := Join(a0, b0);
    JoinParts(a, b);
    sub := sub[2 := a][3 := b];
    a, b := Roldq(a, b, 15);
    JoinParts(a, b);
    sub := sub[6 := a][7 := b];
    a, b := Roldq(a, b, 15);
    RotOn(ka, 15, 15);
    JoinParts(a, b);
    sub := sub[8 := a][9 := b];
    a, b := Roldq(a, b, 15);
    RotOn(ka, 30, 15);
    JoinParts(a, b);
    sub := sub[12 := a];
    a, b := Roldq(a, b, 15);
    RotOn(ka, 45, 15);
    JoinParts(a, b);
    sub := sub[14 := a][15 := b];
    a, b := RoldqO32(a, b, 34);
    RotOn(ka, 60, 34);
    JoinParts(a, b);
    sub := sub[20 := a][21 := b];
    a, b := Roldq(a, b, 17);
    RotOn(ka, 94, 17);
    JoinParts(a, b);
    sub := sub[24 := a][25 := b];
  }

  // Absorbing the whitening keys.

  /** "modified for FLinv": the tl, dw, tr computation of the source. */
  method CarryBack(d: Half, k: Half) returns (t: Half)
    ensures t == Back(d, k)
  {
    var tl := Xor32(d.l, Bits.And(d.r, Bits.Not(k.r)));
    var dw := Bits.And(tl, k.l);
    t := Half(tl, Xor32(d.r, Rl1(dw)));
  }

  /** What kw2 has become in front of rounds 1-6, 7-12 and 13-18. */
  function Kw2(k: Keys, part: nat): Half
    requires part < 3
  {
    if part == 0 then k[1] else Back(Kw2(k, part - 1), k[if part == 1 then 9 else 17])
  }

  /** What kw4 has become behind rounds 1-6, 7-12 and 13-18. */
  function Kw4(k: Keys, part: nat): Half
    requires part < 3
    decreases 3 - part
  {
    if part == 2 then k[25] else Back(Kw4(k, part + 1), k[if part == 1 then 16 else 8])
  }

  /** "absorb kw2 to other subkeys" */
  method AbsorbKw2(k: Keys) returns (sub: Keys)
    ensures forall i | i in {3, 5, 7} :: sub[i] == Xor(k[i], Kw2(k, 0))
    ensures forall i | i in {11, 13, 15} :: sub[i] == Xor(k[i], Kw2(k, 1))
    ensures forall i | i in {19, 21, 23, 24} :: sub[i] == Xor(k[i], Kw2(k, 2))
    ensures forall i | i in {0, 2, 4, 6, 8, 9, 10, 12, 14, 16, 17, 18, 20, 22, 25} :: sub[i] == k[i]
  {
    hide Xor, Back;
    sub := k;
    sub := sub[3 := Xor(sub[3], sub[1])][5 := Xor(sub[5], sub[1])][7 := Xor(sub[7], sub[1])];
    var kw := CarryBack(sub[1], sub[9]);
    sub := sub[1 := kw];
    sub := sub[11 := Xor(sub[11], sub[1])][13 := Xor(sub[13], sub[1])][15 := Xor(sub[15], sub[1])];
    kw := CarryBack(sub[1], sub[17]);
    sub := sub[1 := kw];
    sub := sub[19 := Xor(sub[19], sub[1])][21 := Xor(sub[21], sub[1])][23 := Xor(sub[23], sub[1])];
    sub := sub[24 := Xor(sub[24], sub[1])];
  }

  /** "absorb kw4 to other subkeys", backwards from the last round */
  method AbsorbKw4(k: Keys, sub0: Keys) returns (sub: Keys)
    requires sub0[25] == k[25] && sub0[16] == k[16] && sub0[8] == k[8]
    ensures forall i | i in {18, 20, 22} :: sub[i] == Xor(sub0[i], Kw4(k, 2))
    ensures forall i | i in {10, 12, 14} :: sub[i] == Xor(sub0[i], Kw4(k, 1))
    ensures forall i | i in {0, 2, 4, 6} :: sub[i] == Xor(sub0[i], Kw4(k, 0))
    ensures forall i | i in {3, 5, 7, 8, 9, 11, 13, 15, 16, 17, 19, 21, 23, 24} :: sub[i] == sub0[i]
  {
    hide Xor, Back;
    sub := sub0;
    var kw4 := sub[25];
    sub := sub[22 := Xor(sub[22], kw4)][20 := Xor(sub[20], kw4)][18 := Xor(sub[18], kw4)];
    kw4 := CarryBack(kw4, sub[16]);
    sub := sub[14 := Xor(sub[14], kw4)][12 := Xor(sub[12], kw4)][10 := Xor(sub[10], kw4)];
    kw4 := CarryBack(kw4, sub[8]);
    sub := sub[6 := Xor(sub[6], kw4)][4 := Xor(sub[4], kw4)][2 := Xor(sub[2], kw4)];
    sub := sub[0 := Xor(sub[0], kw4)];
  }

  // Moving the key behind the tables.

  /** "key XOR is end of F-function": whitening keys and rounds 1 to 18 */
  method FoldKeys(sub: Keys) returns (out: Keys)
    ensures out[0] == Xor(sub[0], sub[2]) && out[2] == sub[3] && out[24] == Xor(sub[24], sub[23])
    ensures forall i | i in {3, 4, 5, 6, 11, 12, 13, 14, 19, 20, 21, 22} :: out[i] == Xor(sub[i - 1], sub[i + 1])
    ensures out[7] == Xor(sub[6], Back(sub[10], sub[8])) && out[10] == Xor(Back(sub[7], sub[9]), sub[11])
    ensures out[15] == Xor(sub[14], Back(sub[18], sub[16])) && out[18] == Xor(Back(sub[15], sub[17]), sub[19])
    ensures out[23] == sub[22] && forall i | i in {8, 9, 16, 17} :: out[i] == sub[i]
  {
    hide Xor, Back;
    out := seq(26, _ => ZERO);
    out := out[0 := Xor(sub[0], sub[2])][2 := sub[3]][3 := Xor(sub[2], sub[4])][4 := Xor(sub[3], sub[5])];
    out := out[5 := Xor(sub[4], sub[6])][6 := Xor(sub[5], sub[7])];
    var t := CarryBack(sub[10], sub[8]);
    out := out[7 := Xor(sub[6], t)][8 := sub[8]][9 := sub[9]];
    t := CarryBack(sub[7], sub[9]);
    out := out[10 := Xor(t, sub[11])][11 := Xor(sub[10], sub[12])][12 := Xor(sub[11], sub[13])];
    out := out[13 := Xor(sub[12], sub[14])][14 := Xor(sub[13], sub[15])];
    t := CarryBack(sub[18], sub[16]);
    out := out[15 := Xor(sub[14], t)][16 := sub[16]][17 := sub[17]];
    t := CarryBack(sub[15], sub[17]);
    out := out[18 := Xor(t, sub[19])][19 := Xor(sub[18], sub[20])][20 := Xor(sub[19], sub[21])];
    out := out[21 := Xor(sub[20], sub[22])][22 := Xor(sub[21], sub[23])][23 := sub[22]];
    out := out[24 := Xor(sub[24], sub[23])];
  }

  method InvertOne(k: Half) returns (q: Half)
    ensures q == Qinv(k)
  {
    var dw := Rl8(Xor32(k.l, k.r));
    q := Half(dw, Xor32(k.l, dw));
  }

  method InvertSix(k: Keys, i: nat) returns (out: Keys)
    requires i + 6 <= 26
    ensures forall j | 0 <= j < 26 :: out[j] == if i <= j < i + 6 then Qinv(k[j]) else k[j]
  {
    var q0 := InvertOne(k[i]);
    var q1 := InvertOne(k[i + 1]);
    var q2 := InvertOne(k[i + 2]);
    var q3 := InvertOne(k[i + 3]);
    var q4 := InvertOne(k[i + 4]);
    var q5 := InvertOne(k[i + 5]);
    out := k[i := q0][i + 1 := q1][i + 2 := q2][i + 3 := q3][i + 4 := q4][i + 5 := q5];
  }

  predicate IsRound(i: nat) {
    2 <= i < 8 || 10 <= i < 16 || 18 <= i < 24
  }

  /** "apply the inverse of the last half of P-function" to every round key */
  method InvertTail(k: Keys) returns (out: Keys)
    ensures forall i | 0 <= i < 26 :: out[i] == if IsRound(i) then Qinv(k[i]) else k[i]
  {
    out := InvertSix(k, 2);
    out := InvertSix(out, 10);
    out := InvertSix(out, 18);
  }

  // The algebra that makes the folded table work.

  /** A mask common to both keys cancels. */
  lemma CommonMask(a: Half, b: Half, m: Half)
    ensures Xor(a, Xor(Xor(a, m), Xor(b, m))) == b
  {
    assert Xor32(a.l, Xor32(Xor32(a.l, m.l), Xor32(b.l, m.l))) == b.l;
    assert Xor32(a.r, Xor32(Xor32(a.r, m.r), Xor32(b.r, m.r))) == b.r;
  }

  lemma OwnMask(b: Half, m: Half)
    ensures Xor(m, Xor(b, m)) == b && Xor(b, Xor(b, m)) == m
  {
    assert Xor32(m.l, Xor32(b.l, m.l)) == b.l && Xor32(m.r, Xor32(b.r, m.r)) == b.r;
    assert Xor32(b.l, Xor32(b.l, m.l)) == m.l && Xor32(b.r, Xor32(b.r, m.r)) == m.r;
  }

  lemma MaskedPair(a: Half, b: Half, m: Half)
    ensures Xor(Xor(a, m), Xor(b, m)) == Xor(a, b)
  {
    assert Xor32(Xor32(a.l, m.l), Xor32(b.l, m.l)) == Xor32(a.l, b.l);
    assert Xor32(Xor32(a.r, m.r), Xor32(b.r, m.r)) == Xor32(a.r, b.r);
  }

  /** The subkeys after both absorptions. */
  predicate Absorbed(k: Keys, sub: Keys) {
    && (forall i | i in {3, 5, 7} :: sub[i] == Xor(k[i], Kw2(k, 0)))
    && (forall i | i in {11, 13, 15} :: sub[i] == Xor(k[i], Kw2(k, 1)))
    && (forall i | i in {19, 21, 23, 24} :: sub[i] == Xor(k[i], Kw2(k, 2)))
    && (forall i | i in {18, 20, 22} :: sub[i] == Xor(k[i], Kw4(k, 2)))
    && (forall i | i in {10, 12, 14} :: sub[i] == Xor(k[i], Kw4(k, 1)))
    && (forall i | i in {0, 2, 4, 6} :: sub[i] == Xor(k[i], Kw4(k, 0)))
    && (forall i | i in {8, 9, 16, 17} :: sub[i] == k[i])
  }

  /** The middle four rounds of a group: both neighbours carry the same mask. */
  lemma FoldsMiddle(k: Keys, sub: Keys, q: Half, i: nat, m: Half)
    requires 1 <= i < 25 && sub[i - 1] == Xor(k[i - 1], m) && sub[i + 1] == Xor(k[i + 1], m)
    requires q == Qinv(Xor(sub[i - 1], sub[i + 1]))
    ensures Xor(k[i - 1], Q(q)) == k[i + 1]
  {
    QInverse(Xor(sub[i - 1], sub[i + 1]));
    CommonMask(k[i - 1], k[i + 1], m);
  }

  /** The last round in front of an FL layer: the mask on the far side, carried back, is
      the mask on the near side. */
  lemma FoldsBeforeLayer(kNear: Half, kFar: Half, fl: Half, far: Half, q: Half)
    requires q == Qinv(Xor(Xor(kNear, Back(far, fl)), Back(Xor(kFar, far), fl)))
    ensures Xor(kNear, Q(q)) == Back(kFar, fl)
  {
    QInverse(Xor(Xor(kNear, Back(far, fl)), Back(Xor(kFar, far), fl)));
    BackLinear(kFar, far, fl);
    CommonMask(kNear, Back(kFar, fl), Back(far, fl));
  }

  /** The first round behind an FL layer. */
  lemma FoldsAfterLayer(kNear: Half, kFar: Half, fl: Half, near: Half, q: Half)
    requires q == Qinv(Xor(Back(Xor(kNear, near), fl), Xor(kFar, Back(near, fl))))
    ensures Xor(Back(kNear, fl), Q(q)) == kFar
  {
    QInverse(Xor(Back(Xor(kNear, near), fl), Xor(kFar, Back(near, fl))));
    BackLinear(kNear, near, fl);
    CommonMask(Back(kNear, fl), kFar, Back(near, fl));
  }

  /** A table as InvertTail leaves it, from the absorbed subkeys. */
  predicate Tabled(sub: Keys, out: Keys) {
    && out[0] == Xor(sub[0], sub[2]) && out[2] == Qinv(sub[3]) && out[24] == Xor(sub[24], sub[23])
    && (forall i | i in {3, 4, 5, 6, 11, 12, 13, 14, 19, 20, 21, 22} :: out[i] == Qinv(Xor(sub[i - 1], sub[i + 1])))
    && out[7] == Qinv(Xor(sub[6], Back(sub[10], sub[8]))) && out[10] == Qinv(Xor(Back(sub[7], sub[9]), sub[11]))
    && out[15] == Qinv(Xor(sub[14], Back(sub[18], sub[16]))) && out[18] == Qinv(Xor(Back(sub[15], sub[17]), sub[19]))
    && out[23] == Qinv(sub[22]) && (forall i | i in {8, 9, 16, 17} :: out[i] == sub[i])
  }

  lemma FoldsFirst(k: Keys, sub: Keys, out: Keys)
    requires Absorbed(k, sub) && Tabled(sub, out)
    ensures out[0] == Xor(k[0], k[2]) && FoldsSix(k, out, 2, k[1], Back(k[10], k[8]))
  {
    MaskedPair(k[0], k[2], Kw4(k, 0));
    QInverse(sub[3]);
    OwnMask(k[3], k[1]);
    FoldsMiddle(k, sub, out[3], 3, Kw4(k, 0));
    FoldsMiddle(k, sub, out[4], 4, Kw2(k, 0));
    FoldsMiddle(k, sub, out[5], 5, Kw4(k, 0));
    FoldsMiddle(k, sub, out[6], 6, Kw2(k, 0));
    FoldsBeforeLayer(k[6], k[10], k[8], Kw4(k, 1), out[7]);
  }

  lemma FoldsSecond(k: Keys, sub: Keys, out: Keys)
    requires Absorbed(k, sub) && Tabled(sub, out)
    ensures FoldsSix(k, out, 10, Back(k[7], k[9]), Back(k[18], k[16]))
  {
    FoldsAfterLayer(k[7], k[11], k[9], Kw2(k, 0), out[10]);
    FoldsMiddle(k, sub, out[11], 11, Kw4(k, 1));
    FoldsMiddle(k, sub, out[12], 12, Kw2(k, 1));
    FoldsMiddle(k, sub, out[13], 13, Kw4(k, 1));
    FoldsMiddle(k, sub, out[14], 14, Kw2(k, 1));
    FoldsBeforeLayer(k[14], k[18], k[16], Kw4(k, 2), out[15]);
  }

  lemma FoldsThird(k: Keys, sub: Keys, out: Keys)
    requires Absorbed(k, sub) && Tabled(sub, out)
    ensures FoldsSix(k, out, 18, Back(k[15], k[17]), k[25]) && out[24] == Xor(k[24], k[23])
  {
    FoldsAfterLayer(k[15], k[19], k[17], Kw2(k, 1), out[18]);
    FoldsMiddle(k, sub, out[19], 19, Kw4(k, 2));
    FoldsMiddle(k, sub, out[20], 20, Kw2(k, 2));
    FoldsMiddle(k, sub, out[21], 21, Kw4(k, 2));
    FoldsMiddle(k, sub, out[22], 22, Kw2(k, 2));
    QInverse(sub[22]);
    OwnMask(k[22], k[25]);
    MaskedPair(k[24], k[23], Kw2(k, 2));
  }

  /** Both absorptions. */
  method Absorb(k: Keys) returns (sub: Keys)
    ensures Absorbed(k, sub)
  {
    hide Xor, Back, Kw2, Kw4;
    sub := AbsorbKw2(k);
    sub := AbsorbKw4(k, sub);
  }

  /** The last two passes over the table. */
  method Tabulate(sub: Keys) returns (table: Keys)
    ensures Tabled(sub, table)
  {
    hide Xor, Back, Qinv;
    var folded := FoldKeys(sub);
    table := InvertTail(folded);
  }

  lemma TableFolds(k: Keys, sub: Keys, table: Keys)
    requires Absorbed(k, sub) && Tabled(sub, table)
    ensures Folds(k, table)
  {
    hide Xor, Back, Qinv, Q, FoldsSix;
    FoldsFirst(k, sub, table);
    FoldsSecond(k, sub, table);
    FoldsThird(k, sub, table);
  }

  /** camellia_setup128: the table folds the reference key schedule. */
  method Setup128(s: Boxes, key: Quad) returns (table: Keys)
    ensures Folds(RfcKeys(s, key), table)
  {
    var kl := DeriveKl(key);
    var a, b := GenerateKa(s, key);
    var raw := DeriveKa(a, b, kl);
    RawIsReference(s, key, kl, raw);
    hide *;
    var sub := Absorb(raw);
    table := Tabulate(sub);
    TableFolds(raw, sub, table);
  }

  lemma RawIsReference(s: Boxes, key: Quad, kl: Keys, raw: Keys)
    requires forall i | i in {0, 1, 4, 5, 10, 11, 13, 16, 17, 18, 19, 22, 23} ::
               forall ka: Quad :: kl[i] == RfcKey(key, ka, i)
    requires forall i | i in {2, 3, 6, 7, 8, 9, 12, 14, 15, 20, 21, 24, 25} ::
               raw[i] == RfcKey(key, RfcKa(s, key), i)
    requires forall i | i in {0, 1, 4, 5, 10, 11, 13, 16, 17, 18, 19, 22, 23} :: raw[i] == kl[i]
    ensures raw == RfcKeys(s, key)
  {
    var ka := RfcKa(s, key);
    forall i | 0 <= i < 26 ensures raw[i] == RfcKey(key, ka, i) {
      assert i in {0, 1, 4, 5, 10, 11, 13, 16, 17, 18, 19, 22, 23}
          || i in {2, 3, 6, 7, 8, 9, 12, 14, 15, 20, 21, 24, 25};
    }
  }

  /** Two CAMELLIA_ROUNDSM */
  method SmPair(s: Boxes, d: Block, k: Half, k': Half) returns (e: Block)
    ensures e == Fast2(s, d, k, k')
  {
    var b := RoundSm(s, d.a, k, d.b);
    var a := RoundSm(s, b, k', d.a);
    e := Block(a, b);
  }

  /** camellia_encrypt128 */
  method Encrypt128(s: Boxes, sub: Keys, m: Block) returns (c: Block)
    ensures c == FastEncrypt(s, sub, m)
  {
    hide Fast2, FL, FLinv, Xor;
    var d := Block(Xor(m.a, sub[0]), m.b);
    d := SmPair(s, d, sub[2], sub[3]);
    d := SmPair(s, d, sub[4], sub[5]);
    d := SmPair(s, d, sub[6], sub[7]);
    var x, y := Fls(d.a, d.b, sub[8], sub[9]);
    d := SmPair(s, Block(x, y), sub[10], sub[11]);
    d := SmPair(s, d, sub[12], sub[13]);
    d := SmPair(s, d, sub[14], sub[15]);
    x, y := Fls(d.a, d.b, sub[16], sub[17]);
    d := SmPair(s, Block(x, y), sub[18], sub[19]);
    d := SmPair(s, d, sub[20], sub[21]);
    d := SmPair(s, d, sub[22], sub[23]);
    c := Block(Xor(d.b, sub[24]), d.a);
  }

  /** camellia_decrypt128 */
  method Decrypt128(s: Boxes, sub: Keys, c: Block) returns (m: Block)
    ensures m == FastDecrypt(s, sub, c)
  {
    hide Fast2, FL, FLinv, Xor;
    var d := Block(Xor(c.a, sub[24]), c.b);
    d := SmPair(s, d, sub[23], sub[22]);
    d := SmPair(s, d, sub[21], sub[20]);
    d := SmPair(s, d, sub[19], sub[18]);
    var x, y := Fls(d.a, d.b, sub[17], sub[16]);
    d := SmPair(s, Block(x, y), sub[15], sub[14]);
    d := SmPair(s, d, sub[13], sub[12]);
    d := SmPair(s, d, sub[11], sub[10]);
    x, y := Fls(d.a, d.b, sub[9], sub[8]);
    d := SmPair(s, Block(x, y), sub[7], sub[6]);
    d := SmPair(s, d, sub[5], sub[4]);
    d := SmPair(s, d, sub[3], sub[2]);
    m := Block(Xor(d.b, sub[0]), d.a);
  }

  /** Key setup, encryption and decryption together, for every key, block and S-box
      contents: the ciphertext is that of RFC 3713, and decryption restores the block. */
  method RoundTrip128(s: Boxes, key: Quad, m: Block) returns (c: Block, m': Block)
    ensures c == RfcEncrypt(s, RfcKeys(s, key), m)
    ensures m' == m
  {
    var table := Setup128(s, key);
    c := Encrypt128(s, table, m);
    FoldedCipherIsReference(s, RfcKeys(s, key), table, m);
    m' := Decrypt128(s, table, c);
    DecryptUndoesEncrypt(s, table, m);
  }
}
