/** Cipher block chaining as section 6.2 of NIST SP 800-38A defines it, on byte strings. */
module CbcSpec {
  import Bits

  type Byte = b: seq<bool> | |b| == 8 witness Bits.Zeros(8)

  function Xor(a: seq<Byte>, b: seq<Byte>): (c: seq<Byte>)
    requires |a| == |b|
    ensures |c| == |a| && forall i | 0 <= i < |a| :: c[i] == Bits.Xor(a[i], b[i])
  {
    seq(|a|, i requires 0 <= i < |a| => Bits.Xor(a[i], b[i]))
  }

  lemma XorTwice(a: seq<Byte>, b: seq<Byte>)
    requires |a| == |b|
    ensures Xor(Xor(a, b), b) == a
    ensures Xor(a, b) == Xor(b, a)
  {
    forall i | 0 <= i < |a|
      ensures Bits.Xor(Bits.Xor(a[i], b[i]), b[i]) == a[i]
      ensures Bits.Xor(a[i], b[i]) == Bits.Xor(b[i], a[i])
    {
    }
  }

  type Cipher = seq<Byte> -> seq<Byte>

  /** f maps blocks of bs bytes to such blocks. */
  ghost predicate OnBlocks(f: Cipher, bs: nat) {
    forall x: seq<Byte> | |x| == bs :: |f(x)| == bs
  }

  /** n bytes are whole blocks. */
  predicate Whole(bs: nat, n: nat) {
    n == 0 || (0 < bs <= n && Whole(bs, n - bs))
  }

  lemma {:induction false} WholeSum(bs: nat, m: nat, n: nat)
    requires Whole(bs, m) && Whole(bs, n)
    ensures Whole(bs, m + n)
    decreases m
  {
    if m > 0 { WholeSum(bs, m - bs, n); }
  }

  lemma {:induction false} WholeRound(bs: nat, n: nat)
    requires bs > 0
    ensures n % bs <= n && Whole(bs, n - n % bs)
    decreases n
  {
    if n >= bs {
      WholeRound(bs, n - bs);
      ModStep(bs, n);
    }
  }

  lemma ModStep(bs: nat, n: nat)
    requires 0 < bs <= n
    ensures n % bs == (n - bs) % bs
  {
    var k := n / bs - 1 - (n - bs) / bs;
    assert n == n / bs * bs + n % bs && n - bs == (n - bs) / bs * bs + (n - bs) % bs;
    assert k * bs == (n / bs) * bs - bs - (n - bs) / bs * bs;
    SmallMultiple(k, bs);
  }

  lemma SmallMultiple(k: int, bs: int)
    requires bs > 0 && -bs < k * bs < bs
    ensures k == 0
  {
    Multiple(k, bs);
  }

  lemma Multiple(k: int, bs: int)
    requires bs > 0
    ensures (k >= 1 ==> k * bs >= bs) && (k <= -1 ==> k * bs <= -bs)
  {
  }

  lemma {:induction false} WholeUnique(bs: nat, m: nat, n: nat)
    requires Whole(bs, m) && m <= n < m + bs
    ensures m == n - n % bs
    decreases m
  {
    if m > 0 {
      WholeUnique(bs, m - bs, n - bs);
      ModStep(bs, n);
    }
  }

  ghost function Encrypt(e: Cipher, bs: nat, iv: seq<Byte>, p: seq<Byte>): (c: seq<Byte>)
    requires OnBlocks(e, bs) && |iv| == bs && Whole(bs, |p|)
    ensures |c| == |p|
    decreases |p|
  {
    if p == [] then [] else
      var c := e(Xor(p[..bs], iv));
      c + Encrypt(e, bs, c, p[bs..])
  }

  ghost function Decrypt(d: Cipher, bs: nat, iv: seq<Byte>, c: seq<Byte>): (p: seq<Byte>)
    requires OnBlocks(d, bs) && |iv| == bs && Whole(bs, |c|)
    ensures |p| == |c|
    decreases |c|
  {
    if c == [] then [] else Xor(d(c[..bs]), iv) + Decrypt(d, bs, c[..bs], c[bs..])
  }

  /** The chaining value after ciphertext c. */
  function Chain(bs: nat, iv: seq<Byte>, c: seq<Byte>): (v: seq<Byte>)
    requires |iv| == bs && Whole(bs, |c|)
    ensures |v| == bs
  {
    if c == [] then iv else c[|c| - bs..]
  }

  lemma {:induction false} DecryptUndoesEncrypt(e: Cipher, d: Cipher, bs: nat, iv: seq<Byte>, p: seq<Byte>)
    requires OnBlocks(e, bs) && OnBlocks(d, bs) && |iv| == bs && Whole(bs, |p|)
    requires forall x: seq<Byte> | |x| == bs :: d(e(x)) == x
    ensures Decrypt(d, bs, iv, Encrypt(e, bs, iv, p)) == p
    decreases |p|
  {
    if p != [] {
      var x := Xor(p[..bs], iv);
      var c, rest := e(x), Encrypt(e, bs, e(x), p[bs..]);
      assert |x| == bs;
      assert (c + rest)[..bs] == c && (c + rest)[bs..] == rest;
      XorTwice(p[..bs], iv);
      DecryptUndoesEncrypt(e, d, bs, c, p[bs..]);
      assert p == p[..bs] + p[bs..];
    }
  }

  lemma Assoc<T>(x: seq<T>, y: seq<T>, z: seq<T>)
    ensures (x + y) + z == x + (y + z)
  {
  }

  lemma Cut<T>(a: seq<T>, b: seq<T>, n: nat)
    requires n <= |a|
    ensures a == a[..n] + a[n..] && (a + b)[..n] == a[..n] && (a + b)[n..] == a[n..] + b
    ensures a + b == a[..n] + (a[n..] + b)
  {
  }

  lemma ChainStep(bs: nat, iv: seq<Byte>, c: seq<Byte>, t: seq<Byte>)
    requires bs > 0 && |iv| == bs && |c| == bs && Whole(bs, |t|)
    ensures Whole(bs, |c + t|) && Chain(bs, iv, c + t) == Chain(bs, c, t)
  {
  }

  /** Chaining over a text in two parts. */
  lemma {:induction false} EncryptSplit(e: Cipher, bs: nat, iv: seq<Byte>, p: seq<Byte>, q: seq<Byte>)
    requires OnBlocks(e, bs) && |iv| == bs && Whole(bs, |p|) && Whole(bs, |q|)
    ensures Whole(bs, |p + q|)
    ensures var c := Encrypt(e, bs, iv, p);
            Encrypt(e, bs, iv, p + q) == c + Encrypt(e, bs, Chain(bs, iv, c), q)
    decreases |p|
  {
    WholeSum(bs, |p|, |q|);
    if p == [] {
      assert p + q == q;
    } else {
      var c, r := e(Xor(p[..bs], iv)), p[bs..];
      Cut(p, q, bs);
      EncryptSplit(e, bs, c, r, q);
      var t, u := Encrypt(e, bs, c, r), Encrypt(e, bs, c, r + q);
      assert Encrypt(e, bs, iv, p + q) == c + u;
      assert |c| == bs;
      ChainStep(bs, iv, c, t);
      Assoc(c, t, Encrypt(e, bs, Chain(bs, c, t), q));
      hide *;
    }
  }

  lemma {:induction false} DecryptSplit(d: Cipher, bs: nat, iv: seq<Byte>, a: seq<Byte>, b: seq<Byte>)
    requires OnBlocks(d, bs) && |iv| == bs && Whole(bs, |a|) && Whole(bs, |b|)
    ensures Whole(bs, |a + b|)
    ensures Decrypt(d, bs, iv, a + b) == Decrypt(d, bs, iv, a) + Decrypt(d, bs, Chain(bs, iv, a), b)
    decreases |a|
  {
    WholeSum(bs, |a|, |b|);
    if a == [] {
      assert a + b == b;
    } else {
      var c, t := a[..bs], a[bs..];
      Cut(a, b, bs);
      DecryptSplit(d, bs, c, t, b);
      ChainStep(bs, iv, c, t);
      assert Decrypt(d, bs, iv, a + b) == Xor(d(c), iv) + Decrypt(d, bs, c, t + b);
      Assoc(Xor(d(c), iv), Decrypt(d, bs, c, t), Decrypt(d, bs, Chain(bs, c, t), b));
      hide *;
    }
  }

  /** The chaining value over a text in two parts. */
  lemma ChainSplit(bs: nat, iv: seq<Byte>, a: seq<Byte>, b: seq<Byte>)
    requires |iv| == bs && Whole(bs, |a|) && Whole(bs, |b|) && Whole(bs, |a + b|)
    ensures Chain(bs, iv, a + b) == Chain(bs, Chain(bs, iv, a), b)
  {
    if b == [] {
      assert a + b == a;
    }
  }
}
