/** Camellia with a 128-bit key: sections 2.2 and 2.3 of RFC 3713, and the source's cipher
    with its folded key schedule (kernel/linux/crypto/camellia.c). */
module Camellia {
  import Bits
  import opened CamelliaWords

  datatype Block = Block(a: Half, b: Half)

  /** Twenty-six 64-bit subkeys in the order of use: kw1, kw2, k1..k6, ke1, ke2, k7..k12,
      ke3, ke4, k13..k18, kw3, kw4. */
  type Keys = k: seq<Half> | |k| == 26 witness seq(26, _ => ZERO)

  // The reference cipher.

  /** Two rounds: D2 ^= F(D1, k); D1 ^= F(D2, k'). */
  function Rounds2(s: Boxes, d: Block, k: Half, k': Half): Block {
    var b := Xor(d.b, F(s, d.a, k));
    Block(Xor(d.a, F(s, b, k')), b)
  }

  /** Six rounds with the keys at i .. i + 6. */
  function Rounds6(s: Boxes, d: Block, keys: Keys, i: nat): Block
    requires i + 6 <= 26
  {
    Rounds2(s, Rounds2(s, Rounds2(s, d, keys[i], keys[i + 1]), keys[i + 2], keys[i + 3]), keys[i + 4], keys[i + 5])
  }

  function Layer(d: Block, k: Half, k': Half): Block {
    Block(FL(d.a, k), FLinv(d.b, k'))
  }

  /** Encryption with a 128-bit key: RFC 3713, section 2.3.1. */
  function RfcEncrypt(s: Boxes, keys: Keys, m: Block): Block {
    var d0 := Block(Xor(m.a, keys[0]), Xor(m.b, keys[1]));
    var d1 := Rounds6(s, d0, keys, 2);
    var d2 := Rounds6(s, Layer(d1, keys[8], keys[9]), keys, 10);
    var d3 := Rounds6(s, Layer(d2, keys[16], keys[17]), keys, 18);
    Block(Xor(d3.b, keys[24]), Xor(d3.a, keys[25]))
  }

  // The source's cipher, as a function of its subkey table.

  /** One CAMELLIA_ROUNDSM. */
  function Sm(s: Boxes, x: Half, k: Half, y: Half): Half {
    Xor(Xor(y, G(s, x)), Q(k))
  }

  function Fast2(s: Boxes, d: Block, k: Half, k': Half): Block {
    var b := Sm(s, d.a, k, d.b);
    Block(Sm(s, b, k', d.a), b)
  }

  function Fast6(s: Boxes, d: Block, sub: Keys, i: nat): Block
    requires i + 6 <= 26
  {
    Fast2(s, Fast2(s, Fast2(s, d, sub[i], sub[i + 1]), sub[i + 2], sub[i + 3]), sub[i + 4], sub[i + 5])
  }

  function FastEncrypt(s: Boxes, sub: Keys, m: Block): Block {
    var d0 := Block(Xor(m.a, sub[0]), m.b);
    var d1 := Fast6(s, d0, sub, 2);
    var d2 := Fast6(s, Layer(d1, sub[8], sub[9]), sub, 10);
    var d3 := Fast6(s, Layer(d2, sub[16], sub[17]), sub, 18);
    Block(Xor(d3.b, sub[24]), d3.a)
  }

  /** Six rounds with the subkeys at i + 5 down to i. */
  function Fast6Down(s: Boxes, d: Block, sub: Keys, i: nat): Block
    requires i + 6 <= 26
  {
    Fast2(s, Fast2(s, Fast2(s, d, sub[i + 5], sub[i + 4]), sub[i + 3], sub[i + 2]), sub[i + 1], sub[i])
  }

  function FastDecrypt(s: Boxes, sub: Keys, c: Block): Block {
    var d0 := Block(Xor(c.a, sub[24]), c.b);
    var d1 := Fast6Down(s, d0, sub, 18);
    var d2 := Fast6Down(s, Layer(d1, sub[17], sub[16]), sub, 10);
    var d3 := Fast6Down(s, Layer(d2, sub[9], sub[8]), sub, 2);
    Block(Xor(d3.b, sub[0]), d3.a)
  }

  /** What a subkey table must satisfy for the source's cipher to be the reference cipher:
      the key material added after one round is what the next round of the reference adds
      before its tables, carried through the FL layers. */
  predicate Folds(k: Keys, sub: Keys) {
    && sub[0] == Xor(k[0], k[2])
    && FoldsSix(k, sub, 2, k[1], Back(k[10], k[8]))
    && sub[8] == k[8] && sub[9] == k[9]
    && FoldsSix(k, sub, 10, Back(k[7], k[9]), Back(k[18], k[16]))
    && sub[16] == k[16] && sub[17] == k[17]
    && FoldsSix(k, sub, 18, Back(k[15], k[17]), k[25])
    && sub[24] == Xor(k[24], k[23])
  }

  /** Six rounds from index i: the difference of the right half on entry is b, and of the
      left half on exit is a. */
  predicate FoldsSix(k: Keys, sub: Keys, i: nat, b: Half, a: Half)
    requires i + 6 <= 26
  {
    && Xor(b, Q(sub[i])) == k[i + 1]
    && Xor(k[i], Q(sub[i + 1])) == k[i + 2]
    && Xor(k[i + 1], Q(sub[i + 2])) == k[i + 3]
    && Xor(k[i + 2], Q(sub[i + 3])) == k[i + 4]
    && Xor(k[i + 3], Q(sub[i + 4])) == k[i + 5]
    && Xor(k[i + 4], Q(sub[i + 5])) == a
  }

  /** The two ciphers differ by a on the left half and b on the right half. */
  predicate Differ(d: Block, f: Block, a: Half, b: Half) {
    f.a == Xor(d.a, a) && f.b == Xor(d.b, b)
  }

  lemma AddBehind(y: Half, b: Half, g: Half, q: Half)
    ensures Xor(Xor(Xor(y, b), g), q) == Xor(Xor(y, g), Xor(b, q))
  {
    XorAssoc(y, b, g);
    XorComm(b, g);
    XorAssoc(y, g, b);
    XorAssoc(Xor(y, g), b, q);
  }

  /** Two rounds, when the difference of the half that feeds the tables is the round key. */
  lemma Fast2Differs(s: Boxes, d: Block, f: Block, k: Half, k': Half, q: Half, q': Half, b: Half)
    requires Differ(d, f, k, b) && Xor(b, Q(q)) == k'
    ensures Differ(Rounds2(s, d, k, k'), Fast2(s, f, q, q'), Xor(k, Q(q')), k')
  {
    AddBehind(d.b, b, G(s, f.a), Q(q));
    var y := Fast2(s, f, q, q').b;
    AddBehind(d.a, k, G(s, y), Q(q'));
  }

  lemma Fast6Differs(s: Boxes, d: Block, f: Block, k: Keys, sub: Keys, i: nat, b: Half, a: Half)
    requires i + 6 <= 26 && Differ(d, f, k[i], b) && FoldsSix(k, sub, i, b, a)
    ensures Differ(Rounds6(s, d, k, i), Fast6(s, f, sub, i), a, k[i + 5])
  {
    Fast2Differs(s, d, f, k[i], k[i + 1], sub[i], sub[i + 1], b);
    var d1, f1 := Rounds2(s, d, k[i], k[i + 1]), Fast2(s, f, sub[i], sub[i + 1]);
    Fast2Differs(s, d1, f1, k[i + 2], k[i + 3], sub[i + 2], sub[i + 3], k[i + 1]);
    var d2, f2 := Rounds2(s, d1, k[i + 2], k[i + 3]), Fast2(s, f1, sub[i + 2], sub[i + 3]);
    Fast2Differs(s, d2, f2, k[i + 4], k[i + 5], sub[i + 4], sub[i + 5], k[i + 3]);
  }

  lemma LayerDiffers(d: Block, f: Block, a: Half, b: Half, k: Half, k': Half)
    requires Differ(d, f, Back(a, k), b)
    ensures Differ(Layer(d, k, k'), Layer(f, k, k'), a, Back(b, k'))
  {
    FLMovesDifference(d.a, Back(a, k), k);
    ThroughBack(a, k);
    FLinvMovesDifference(d.b, b, k');
  }

  /** The compiled cipher computes the reference cipher. */
  lemma FoldedCipherIsReference(s: Boxes, k: Keys, sub: Keys, m: Block)
    requires Folds(k, sub)
    ensures FastEncrypt(s, sub, m) == RfcEncrypt(s, k, m)
  {
    hide Rounds2, Fast2, FL, FLinv, Xor, Back, FoldsSix;
    var d0, f0 := Block(Xor(m.a, k[0]), Xor(m.b, k[1])), Block(Xor(m.a, sub[0]), m.b);
    XorAssoc(m.a, k[0], k[2]);
    XorCancel(m.b, k[1]);
    assert Differ(d0, f0, k[2], k[1]);
    Fast6Differs(s, d0, f0, k, sub, 2, k[1], Back(k[10], k[8]));
    var d1, f1 := Rounds6(s, d0, k, 2), Fast6(s, f0, sub, 2);
    LayerDiffers(d1, f1, k[10], k[7], k[8], k[9]);
    var e1, g1 := Layer(d1, k[8], k[9]), Layer(f1, k[8], k[9]);
    Fast6Differs(s, e1, g1, k, sub, 10, Back(k[7], k[9]), Back(k[18], k[16]));
    var d2, f2 := Rounds6(s, e1, k, 10), Fast6(s, g1, sub, 10);
    LayerDiffers(d2, f2, k[18], k[15], k[16], k[17]);
    var e2, g2 := Layer(d2, k[16], k[17]), Layer(f2, k[16], k[17]);
    Fast6Differs(s, e2, g2, k, sub, 18, Back(k[15], k[17]), k[25]);
    var d3, f3 := Rounds6(s, e2, k, 18), Fast6(s, g2, sub, 18);
    XorAssoc(d3.b, k[23], sub[24]);
    XorComm(k[24], k[23]);
    XorAssoc(k[23], k[23], k[24]);
    XorComm(k[23], Xor(k[23], k[24]));
    XorComm(k[23], k[24]);
    XorCancel(k[24], k[23]);
  }

  // Decryption undoes encryption, for every subkey table.

  function SwapHalves(d: Block): Block { Block(d.b, d.a) }

  lemma SmTwice(s: Boxes, x: Half, k: Half, y: Half)
    ensures Sm(s, x, k, Sm(s, x, k, y)) == y
  {
    AddBehind(y, Q(k), G(s, x), Q(k));
    var g, q := G(s, x), Q(k);
    XorAssoc(y, g, q);
    XorCancel(y, Xor(g, q));
    XorAssoc(Xor(y, Xor(g, q)), g, q);
  }

  lemma Fast2Undone(s: Boxes, d: Block, k: Half, k': Half)
    ensures Fast2(s, SwapHalves(Fast2(s, d, k, k')), k', k) == SwapHalves(d)
  {
    var b := Sm(s, d.a, k, d.b);
    SmTwice(s, b, k', d.a);
    SmTwice(s, d.a, k, d.b);
  }

  lemma Fast6Undone(s: Boxes, d: Block, sub: Keys, i: nat)
    requires i + 6 <= 26
    ensures Fast6Down(s, SwapHalves(Fast6(s, d, sub, i)), sub, i) == SwapHalves(d)
  {
    var d1 := Fast2(s, d, sub[i], sub[i + 1]);
    var d2 := Fast2(s, d1, sub[i + 2], sub[i + 3]);
    Fast2Undone(s, d2, sub[i + 4], sub[i + 5]);
    Fast2Undone(s, d1, sub[i + 2], sub[i + 3]);
    Fast2Undone(s, d, sub[i], sub[i + 1]);
  }

  lemma LayerUndone(d: Block, k: Half, k': Half)
    ensures Layer(SwapHalves(Layer(d, k, k')), k', k) == SwapHalves(d)
  {
    FLInverse(d.a, k);
    FLInverse(d.b, k');
  }

  lemma DecryptUndoesEncrypt(s: Boxes, sub: Keys, m: Block)
    ensures FastDecrypt(s, sub, FastEncrypt(s, sub, m)) == m
  {
    hide Fast2, FL, FLinv, Xor;
    var d0 := Block(Xor(m.a, sub[0]), m.b);
    var d1 := Fast6(s, d0, sub, 2);
    var e1 := Layer(d1, sub[8], sub[9]);
    var d2 := Fast6(s, e1, sub, 10);
    var e2 := Layer(d2, sub[16], sub[17]);
    var d3 := Fast6(s, e2, sub, 18);
    XorCancel(d3.b, sub[24]);
    Fast6Undone(s, e2, sub, 18);
    LayerUndone(d2, sub[16], sub[17]);
    Fast6Undone(s, e1, sub, 10);
    LayerUndone(d1, sub[8], sub[9]);
    Fast6Undone(s, d0, sub, 2);
    XorCancel(m.a, sub[0]);
  }
}
