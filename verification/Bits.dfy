/** Machine words as sequences of bits, most significant bit first. */
module Bits {
  import opened Collections

  function Zeros(n: nat): (z: seq<bool>)
    ensures |z| == n && forall i | 0 <= i < n :: !z[i]
  {
    seq(n, _ => false)
  }

  function Xor(a: seq<bool>, b: seq<bool>): (c: seq<bool>)
    requires |a| == |b|
    ensures |c| == |a| && forall i | 0 <= i < |a| :: c[i] == (a[i] != b[i])
  {
    seq(|a|, i requires 0 <= i < |a| => a[i] != b[i])
  }

  function And(a: seq<bool>, b: seq<bool>): (c: seq<bool>)
    requires |a| == |b|
    ensures |c| == |a| && forall i | 0 <= i < |a| :: c[i] == (a[i] && b[i])
  {
    seq(|a|, i requires 0 <= i < |a| => a[i] && b[i])
  }

  function Or(a: seq<bool>, b: seq<bool>): (c: seq<bool>)
    requires |a| == |b|
    ensures |c| == |a| && forall i | 0 <= i < |a| :: c[i] == (a[i] || b[i])
  {
    seq(|a|, i requires 0 <= i < |a| => a[i] || b[i])
  }

  function Not(a: seq<bool>): (c: seq<bool>)
    ensures |c| == |a| && forall i | 0 <= i < |a| :: c[i] == !a[i]
  {
    seq(|a|, i requires 0 <= i < |a| => !a[i])
  }

  /** Rotation to the left by n bits. */
  function Rotl(x: seq<bool>, n: nat): (y: seq<bool>)
    requires n <= |x|
    ensures |y| == |x|
  {
    x[n..] + x[..n]
  }

  /** Bit i of a rotation is bit i + n of the word, counted round. */
  lemma RotlBit(x: seq<bool>, n: nat, i: nat)
    requires n <= |x| && i < |x|
    ensures Rotl(x, n)[i] == x[if i + n < |x| then i + n else i + n - |x|]
  {
  }

  /** The lowest w bits of n, the lowest bit last. */
  function Binary(n: nat, w: nat): (b: seq<bool>)
    ensures |b| == w
  {
    if w == 0 then [] else Binary(n / 2, w - 1) + [n % 2 == 1]
  }

  /** The number that a word stands for, the highest bit first. */
  function Number(b: seq<bool>): nat {
    if b == [] then 0 else 2 * Number(b[..|b| - 1]) + if b[|b| - 1] then 1 else 0
  }

  lemma {:induction false} BinaryNumber(n: nat, w: nat)
    requires n < Pow2(w)
    ensures Number(Binary(n, w)) == n
  {
    if w > 0 {
      BinaryNumber(n / 2, w - 1);
      assert Binary(n, w)[..w - 1] == Binary(n / 2, w - 1);
    }
  }

  lemma {:induction false} NumberBinary(b: seq<bool>)
    ensures Number(b) < Pow2(|b|) && Binary(Number(b), |b|) == b
    decreases |b|
  {
    if b != [] { NumberBinary(b[..|b| - 1]); }
  }

  lemma {:induction false} ZeroBits(n: nat)
    ensures Binary(0, n) == Zeros(n)
  {
    if n > 0 { ZeroBits(n - 1); }
  }

  lemma {:induction false} TopBits(n: nat)
    ensures Binary(Pow2(n), n + 1) == [true] + Zeros(n)
  {
    if n == 0 {
      assert Binary(1, 1) == [true];
    } else {
      TopBits(n - 1);
    }
  }

  lemma RotlTwice(x: seq<bool>, m: nat, n: nat)
    requires m + n <= |x|
    ensures Rotl(Rotl(x, m), n) == Rotl(x, m + n)
  {
  }

  lemma RotlXor(a: seq<bool>, b: seq<bool>, n: nat)
    requires |a| == |b| && n <= |a|
    ensures Rotl(Xor(a, b), n) == Xor(Rotl(a, n), Rotl(b, n))
  {
  }
}
