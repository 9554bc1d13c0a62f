/** Iterated hashes: section 3 of RFC 1321 for MD5, sections 5 and 6 of FIPS 180-2 for SHA-1 and
    SHA-256. The compression functions are not interpreted. */
module HashSpec {
  import opened Collections
  import Bits

  type U8 = x: nat | x < 256

  const BLOCK: nat := 64
  const U32: nat := 0x1_0000_0000
  const U64: nat := 0x1_0000_0000_0000_0000

  /** A compression function and its start value; states are sequences of words. */
  type State = seq<nat>
  type Compress = (State, seq<U8>) -> State

  function Zeros(n: nat): (z: seq<U8>)
    ensures |z| == n && forall i | 0 <= i < n :: z[i] == 0
  {
    seq(n, _ => 0)
  }

  /** The blocks of m, one after the other; a part of a block at the end is not looked at. */
  function Fold(f: Compress, h: State, m: seq<U8>): State
    decreases |m|
  {
    if |m| < BLOCK then h else Fold(f, f(h, m[..BLOCK]), m[BLOCK..])
  }

  /** That part of a block */
  function Rest(m: seq<U8>): (r: seq<U8>)
    ensures |r| == |m| % BLOCK
    decreases |m|
  {
    if |m| < BLOCK then m else Rest(m[BLOCK..])
  }

  lemma {:induction false} MoreText(f: Compress, h: State, m: seq<U8>, t: seq<U8>)
    ensures Fold(f, h, m + t) == Fold(f, Fold(f, h, m), Rest(m) + t)
    ensures Rest(m + t) == Rest(Rest(m) + t)
    decreases |m|
  {
    if |m| >= BLOCK {
      MoreText(f, f(h, m[..BLOCK]), m[BLOCK..], t);
      assert (m + t)[..BLOCK] == m[..BLOCK] && (m + t)[BLOCK..] == m[BLOCK..] + t;
    }
  }

  lemma FoldBlock(f: Compress, h: State, b: seq<U8>, t: seq<U8>)
    requires |b| == BLOCK
    ensures Fold(f, h, b + t) == Fold(f, f(h, b), t) && Rest(b + t) == Rest(t)
  {
    assert (b + t)[..BLOCK] == b && (b + t)[BLOCK..] == t;
  }

  // Numbers as bytes.

  function Be(n: nat, k: nat): (s: seq<U8>)
    ensures |s| == k
  {
    if k == 0 then [] else Be(n / 256, k - 1) + [n % 256]
  }

  function Le(n: nat, k: nat): (s: seq<U8>)
    ensures |s| == k
  {
    if k == 0 then [] else [n % 256] + Le(n / 256, k - 1)
  }

  /** The number that bytes stand for, high-order or low-order byte first. */
  function FromBe(s: seq<U8>): nat {
    if s == [] then 0 else 256 * FromBe(s[..|s| - 1]) + s[|s| - 1]
  }

  function FromLe(s: seq<U8>): nat {
    if s == [] then 0 else s[0] + 256 * FromLe(s[1..])
  }

  function Pow256(k: nat): nat {
    if k == 0 then 1 else 256 * Pow256(k - 1)
  }

  /** Writing a number as k bytes and reading it back. */
  lemma {:induction false} BytesOfNumber(n: nat, k: nat)
    requires n < Pow256(k)
    ensures FromBe(Be(n, k)) == n && FromLe(Le(n, k)) == n
  {
    if k > 0 {
      BytesOfNumber(n / 256, k - 1);
      assert Be(n, k)[..k - 1] == Be(n / 256, k - 1);
    }
  }

  lemma BeWords(x: nat)
    requires x < U64
    ensures Be(x, 8) == Be(x / U32, 4) + Be(x % U32, 4)
  {
    BeStep(x, x / U32, x % U32, 4);
  }

  /** Taking the low byte off a number and off its low word alike */
  lemma {:induction false} BeStep(x: nat, hi: nat, lo: nat, k: nat)
    requires k <= 4 && x == hi * Pow(k) + lo && lo < Pow(k)
    ensures Be(x, 4 + k) == Be(hi, 4) + Be(lo, k)
    decreases k
  {
    if k > 0 {
      LowByte(x, hi, lo, k);
      BeStep(x / 256, hi, lo / 256, k - 1);
      assert Be(hi, 4) + Be(lo / 256, k - 1) + [lo % 256] == Be(hi, 4) + (Be(lo / 256, k - 1) + [lo % 256]);
    }
  }

  function Pow(k: nat): nat
    requires k <= 4
  {
    match k
    case 0 => 1
    case 1 => 0x100
    case 2 => 0x1_0000
    case 3 => 0x100_0000
    case 4 => U32
  }

  lemma LowByte(x: nat, hi: nat, lo: nat, k: nat)
    requires 1 <= k <= 4 && x == hi * Pow(k) + lo && lo < Pow(k)
    ensures x % 256 == lo % 256 && x / 256 == hi * Pow(k - 1) + lo / 256 && lo / 256 < Pow(k - 1)
  {
  }

  lemma LeWords(x: nat)
    requires x < U64
    ensures Le(x, 8) == Le(x % U32, 4) + Le(x / U32, 4)
  {
    LeStep(x, x / U32, x % U32, 4);
  }

  lemma LeCons(x: nat, lo: nat, k: nat, hi: nat)
    requires k > 0 && x % 256 == lo % 256 && Le(x / 256, 3 + k) == Le(lo / 256, k - 1) + Le(hi, 4)
    ensures Le(x, 4 + k) == Le(lo, k) + Le(hi, 4)
  {
    assert [lo % 256] + (Le(lo / 256, k - 1) + Le(hi, 4)) == [lo % 256] + Le(lo / 256, k - 1) + Le(hi, 4);
  }

  lemma {:induction false} LeStep(x: nat, hi: nat, lo: nat, k: nat)
    requires k <= 4 && x == hi * Pow(k) + lo && lo < Pow(k)
    ensures Le(x, 4 + k) == Le(lo, k) + Le(hi, 4)
    decreases k
  {
    if k > 0 {
      LowByte(x, hi, lo, k);
      LeStep(x / 256, hi, lo / 256, k - 1);
      LeCons(x, lo, k, hi);
    }
  }

  // Padding.

  /** A one bit, then zero bits until eight bytes are left for the length. */
  function Filler(len: nat): (p: seq<U8>)
    ensures 1 <= |p| <= BLOCK && (len + |p|) % BLOCK == 56
  {
    [0x80] + Zeros(if len % BLOCK < 56 then 55 - len % BLOCK else 119 - len % BLOCK)
  }

  /** Bit by bit, the highest first: a one, then zeros. */
  lemma FillerBits(len: nat)
    ensures Bits.Binary(Filler(len)[0], 8) == [true] + Bits.Zeros(7) && forall i | 1 <= i < |Filler(len)| :: Filler(len)[i] == 0
  {
    Bits.TopBits(7);
    assert Pow2(7) == 0x80;
  }

  /** MD5 appends the length in bits low-order word first, the SHA family high-order first. */
  function LengthLe(len: nat): (s: seq<U8>)
    ensures |s| == 8
  {
    Le(len * 8 % U64, 8)
  }

  function LengthBe(len: nat): (s: seq<U8>)
    ensures |s| == 8
  {
    Be(len * 8 % U64, 8)
  }

  function Padded(m: seq<U8>, length: seq<U8>): (p: seq<U8>)
    requires |length| == 8
    ensures |p| % BLOCK == 0
  {
    m + Filler(|m|) + length
  }

  function Md5(f: Compress, iv: State, m: seq<U8>): State {
    Fold(f, iv, Padded(m, LengthLe(|m|)))
  }

  function Sha(f: Compress, iv: State, m: seq<U8>): State {
    Fold(f, iv, Padded(m, LengthBe(|m|)))
  }
}
