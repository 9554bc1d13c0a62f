/** The CBC mode of kernel/linux/crypto/cbc.c: its four ways through a window, in a memory that
    holds both ends of the window, and the two drivers over the block cipher walk. */
module Cbc {
  import opened CbcSpec
  import opened ScatterWalk
  import opened CipherWalk

  // Reading and writing memory in steps.

  lemma PutAppend<T>(m: seq<T>, d: nat, x: seq<T>, y: seq<T>)
    requires d + |x| + |y| <= |m|
    ensures Put(Put(m, d, x), d + |x|, y) == Put(m, d, x + y)
  {
  }

  lemma PutPrepend<T>(m: seq<T>, d: nat, x: seq<T>, y: seq<T>)
    requires d + |x| + |y| <= |m|
    ensures Put(Put(m, d + |x|, y), d, x) == Put(m, d, x + y)
  {
  }

  lemma PutAgain<T>(m: seq<T>, d: nat, x: seq<T>, y: seq<T>)
    requires d + |x| <= |m| && |y| == |x|
    ensures Put(Put(m, d, x), d, y) == Put(m, d, y)
    ensures Put(m, d, x)[d..d + |x|] == x
  {
  }

  lemma ReadApart<T>(m: seq<T>, d: nat, x: seq<T>, s: nat, n: nat)
    requires d + |x| <= |m| && s + n <= |m| && (s + n <= d || d + |x| <= s)
    ensures Put(m, d, x)[s..s + n] == m[s..s + n]
  {
  }

  lemma Slices<T>(m: seq<T>, s: nat, k: nat, n: nat)
    requires s + k + n <= |m|
    ensures m[s..s + (k + n)] == m[s..s + k] + m[s + k..s + k + n]
  {
  }

  // One block more.

  lemma EncryptAppend(e: Cipher, bs: nat, iv: seq<Byte>, p: seq<Byte>, x: seq<Byte>)
    requires OnBlocks(e, bs) && |iv| == bs > 0 && Whole(bs, |p|) && |x| == bs
    ensures Whole(bs, |p + x|)
    ensures var c := Encrypt(e, bs, iv, p);
            var y := e(Xor(x, Chain(bs, iv, c)));
            |y| == bs && Encrypt(e, bs, iv, p + x) == c + y && Chain(bs, iv, c + y) == y
  {
    hide Encrypt, Chain, Xor, OnBlocks;
    EncryptSplit(e, bs, iv, p, x);
    var c := Encrypt(e, bs, iv, p);
    var v := Chain(bs, iv, c);
    EncryptOne(e, bs, v, x);
    ChainLast(bs, iv, c, e(Xor(x, v)));
  }

  lemma EncryptOne(e: Cipher, bs: nat, v: seq<Byte>, x: seq<Byte>)
    requires OnBlocks(e, bs) && |v| == bs > 0 && |x| == bs
    ensures Whole(bs, |x|) && |e(Xor(x, v))| == bs && Encrypt(e, bs, v, x) == e(Xor(x, v))
  {
    assert x[..bs] == x && x[bs..] == [];
    assert Encrypt(e, bs, v, x) == e(Xor(x, v)) + [];
  }

  lemma ChainLast(bs: nat, iv: seq<Byte>, c: seq<Byte>, y: seq<Byte>)
    requires |iv| == bs > 0 && |y| == bs && Whole(bs, |c + y|)
    ensures Chain(bs, iv, c + y) == y
  {
  }

  lemma DecryptAppend(d: Cipher, bs: nat, iv: seq<Byte>, c: seq<Byte>, x: seq<Byte>)
    requires OnBlocks(d, bs) && |iv| == bs > 0 && Whole(bs, |c|) && |x| == bs
    ensures Whole(bs, |c + x|) && Chain(bs, iv, c + x) == x && |d(x)| == bs
    ensures Decrypt(d, bs, iv, c + x) == Decrypt(d, bs, iv, c) + Xor(d(x), Chain(bs, iv, c))
  {
    DecryptSplit(d, bs, iv, c, x);
    var v := Chain(bs, iv, c);
    assert x[..bs] == x && x[bs..] == [];
    assert Decrypt(d, bs, v, x) == Xor(d(x), v) + [];
  }

  /** Memory, and the chaining value, once the first k bytes of the window are encrypted. */
  ghost function Sealed(e: Cipher, bs: nat, mem: seq<Byte>, src: nat, dst: nat, k: nat, iv: seq<Byte>): (m: seq<Byte>)
    requires OnBlocks(e, bs) && |iv| == bs && Whole(bs, k) && src + k <= |mem| && dst + k <= |mem|
    ensures |m| == |mem|
  {
    Put(mem, dst, Encrypt(e, bs, iv, mem[src..src + k]))
  }

  ghost function SealedIv(e: Cipher, bs: nat, mem: seq<Byte>, src: nat, k: nat, iv: seq<Byte>): (v: seq<Byte>)
    requires OnBlocks(e, bs) && |iv| == bs && Whole(bs, k) && src + k <= |mem|
    ensures |v| == bs
  {
    Chain(bs, iv, Encrypt(e, bs, iv, mem[src..src + k]))
  }

  lemma SealStart(e: Cipher, bs: nat, mem: seq<Byte>, src: nat, dst: nat, iv: seq<Byte>)
    requires OnBlocks(e, bs) && |iv| == bs && src <= |mem| && dst <= |mem|
    ensures Sealed(e, bs, mem, src, dst, 0, iv) == mem && SealedIv(e, bs, mem, src, 0, iv) == iv
  {
    assert mem[src..src + 0] == [];
  }

  /** One block further, in a window whose ends are one place or do not overlap. */
  lemma SealStep(e: Cipher, bs: nat, mem: seq<Byte>, src: nat, dst: nat, k: nat, iv: seq<Byte>)
    requires OnBlocks(e, bs) && |iv| == bs > 0 && Whole(bs, k)
    requires src + k + bs <= |mem| && dst + k + bs <= |mem| && Apart(src, dst, k + bs)
    ensures Whole(bs, k + bs)
    ensures var m, v := Sealed(e, bs, mem, src, dst, k, iv), SealedIv(e, bs, mem, src, k, iv);
            var x := m[src + k..src + k + bs];
            var y := e(Xor(x, v));
            && |y| == bs && Xor(v, x) == Xor(x, v)
            && Sealed(e, bs, mem, src, dst, k + bs, iv) == Put(m, dst + k, y)
            && SealedIv(e, bs, mem, src, k + bs, iv) == y
  {
    hide Put, Encrypt, Xor, Chain, OnBlocks;
    var p, x := mem[src..src + k], mem[src + k..src + k + bs];
    var c, v := Encrypt(e, bs, iv, p), SealedIv(e, bs, mem, src, k, iv);
    Slices(mem, src, k, bs);
    EncryptAppend(e, bs, iv, p, x);
    ReadApart(mem, dst, c, src + k, bs);
    XorTwice(x, v);
    PutAppend(mem, dst, c, e(Xor(x, v)));
  }

  lemma DecryptCons(d: Cipher, bs: nat, prev: seq<Byte>, x: seq<Byte>, rest: seq<Byte>)
    requires OnBlocks(d, bs) && |prev| == bs > 0 && |x| == bs && Whole(bs, |rest|)
    ensures |d(x)| == bs && Whole(bs, |x + rest|)
    ensures Decrypt(d, bs, prev, x + rest) == Xor(d(x), prev) + Decrypt(d, bs, x, rest)
  {
    assert (x + rest)[..bs] == x && (x + rest)[bs..] == rest;
  }

  /** crypto_cbc_encrypt_segment */
  method EncryptSegment(e: Cipher, bs: nat, mem: seq<Byte>, src: nat, dst: nat, n: nat, first: seq<Byte>)
    returns (m: seq<Byte>, iv: seq<Byte>, left: nat)
    requires 0 < bs <= n && OnBlocks(e, bs) && |first| == bs
    requires src + n <= |mem| && dst + n <= |mem| && src != dst && Apart(src, dst, n)
    ensures left < bs && left <= n && Whole(bs, n - left)
    ensures m == Sealed(e, bs, mem, src, dst, n - left, first)
    ensures iv == SealedIv(e, bs, mem, src, n - left, first)
  {
    m, iv, left := mem, first, n;
    var s, d := src, dst;
    hide Sealed, SealedIv, Put, Encrypt, Xor, Chain, OnBlocks;
    SealStart(e, bs, mem, src, dst, first);
    while left >= bs
      invariant s + left == src + n && d + left == dst + n && Whole(bs, s - src)
      invariant m == Sealed(e, bs, mem, src, dst, s - src, first)
      invariant iv == SealedIv(e, bs, mem, src, s - src, first)
    {
      SealStep(e, bs, mem, src, dst, s - src, first);
      PutAgain(m, d, e(Xor(m[s..s + bs], iv)), e(Xor(m[s..s + bs], iv)));
      iv := Xor(iv, m[s..s + bs]);
      m := Put(m, d, e(iv));
      iv := m[d..d + bs];
      s, d, left := s + bs, d + bs, left - bs;
    }
  }

  /** crypto_cbc_encrypt_inplace */
  method EncryptInplace(e: Cipher, bs: nat, mem: seq<Byte>, src: nat, n: nat, first: seq<Byte>)
    returns (m: seq<Byte>, iv: seq<Byte>, left: nat)
    requires 0 < bs <= n && OnBlocks(e, bs) && |first| == bs && src + n <= |mem|
    ensures left < bs && left <= n && Whole(bs, n - left)
    ensures m == Sealed(e, bs, mem, src, src, n - left, first)
    ensures iv == SealedIv(e, bs, mem, src, n - left, first)
  {
    m, iv, left := mem, first, n;
    var s := src;
    hide Sealed, SealedIv, Put, Encrypt, Xor, Chain, OnBlocks;
    SealStart(e, bs, mem, src, src, first);
    while left >= bs
      invariant s + left == src + n && Whole(bs, s - src)
      invariant m == Sealed(e, bs, mem, src, src, s - src, first)
      invariant iv == SealedIv(e, bs, mem, src, s - src, first)
    {
      SealStep(e, bs, mem, src, src, s - src, first);
      ghost var x := Xor(m[s..s + bs], iv);
      PutAgain(m, s, x, e(x));
      PutAgain(m, s, e(x), e(x));
      m := Put(m, s, Xor(m[s..s + bs], iv));
      m := Put(m, s, e(m[s..s + bs]));
      iv := m[s..s + bs];
      s, left := s + bs, left - bs;
    }
  }

  /** Memory, and the chaining value, once the first k bytes of the window are decrypted. */
  ghost function Opened(d: Cipher, bs: nat, mem: seq<Byte>, src: nat, dst: nat, k: nat, iv: seq<Byte>): (m: seq<Byte>)
    requires OnBlocks(d, bs) && |iv| == bs && Whole(bs, k) && src + k <= |mem| && dst + k <= |mem|
    ensures |m| == |mem|
  {
    Put(mem, dst, Decrypt(d, bs, iv, mem[src..src + k]))
  }

  ghost function OpenedIv(bs: nat, mem: seq<Byte>, src: nat, k: nat, iv: seq<Byte>): (v: seq<Byte>)
    requires |iv| == bs && Whole(bs, k) && src + k <= |mem|
    ensures |v| == bs
  {
    Chain(bs, iv, mem[src..src + k])
  }

  lemma OpenStart(d: Cipher, bs: nat, mem: seq<Byte>, src: nat, dst: nat, iv: seq<Byte>)
    requires OnBlocks(d, bs) && |iv| == bs && src <= |mem| && dst <= |mem|
    ensures Opened(d, bs, mem, src, dst, 0, iv) == mem && OpenedIv(bs, mem, src, 0, iv) == iv
  {
    assert mem[src..src + 0] == [];
  }

  lemma OpenStep(d: Cipher, bs: nat, mem: seq<Byte>, src: nat, dst: nat, k: nat, iv: seq<Byte>)
    requires OnBlocks(d, bs) && |iv| == bs > 0 && Whole(bs, k)
    requires src + k + bs <= |mem| && dst + k + bs <= |mem| && src != dst && Apart(src, dst, k + bs)
    ensures Whole(bs, k + bs)
    ensures var m, v := Opened(d, bs, mem, src, dst, k, iv), OpenedIv(bs, mem, src, k, iv);
            var x := m[src + k..src + k + bs];
            && |d(x)| == bs
            && Opened(d, bs, mem, src, dst, k + bs, iv) == Put(m, dst + k, Xor(d(x), v))
            && OpenedIv(bs, mem, src, k + bs, iv) == x
  {
    hide Put, Decrypt, Xor, Chain, OnBlocks;
    var c, x := mem[src..src + k], mem[src + k..src + k + bs];
    Slices(mem, src, k, bs);
    DecryptAppend(d, bs, iv, c, x);
    ReadApart(mem, dst, Decrypt(d, bs, iv, c), src + k, bs);
    PutAppend(mem, dst, Decrypt(d, bs, iv, c), Xor(d(x), OpenedIv(bs, mem, src, k, iv)));
  }

  /** crypto_cbc_decrypt_segment */
  method DecryptSegment(d: Cipher, bs: nat, mem: seq<Byte>, src: nat, dst: nat, n: nat, first: seq<Byte>)
    returns (m: seq<Byte>, iv: seq<Byte>, left: nat)
    requires 0 < bs <= n && OnBlocks(d, bs) && |first| == bs
    requires src + n <= |mem| && dst + n <= |mem| && src != dst && Apart(src, dst, n)
    ensures left < bs && left <= n && Whole(bs, n - left)
    ensures m == Opened(d, bs, mem, src, dst, n - left, first)
    ensures iv == OpenedIv(bs, mem, src, n - left, first)
  {
    m, iv, left := mem, first, n;
    var s, t := src, dst;
    hide Opened, OpenedIv, Put, Decrypt, Xor, Chain, OnBlocks;
    OpenStart(d, bs, mem, src, dst, first);
    while left >= bs
      invariant s + left == src + n && t + left == dst + n && Whole(bs, s - src)
      invariant m == Opened(d, bs, mem, src, dst, s - src, first)
      invariant iv == OpenedIv(bs, mem, src, s - src, first)
    {
      OpenStep(d, bs, mem, src, dst, s - src, first);
      ghost var x := m[s..s + bs];
      PutAgain(m, t, d(x), Xor(d(x), iv));
      ReadApart(m, t, Xor(d(x), iv), s, bs);
      m := Put(m, t, d(m[s..s + bs]));
      m := Put(m, t, Xor(m[t..t + bs], iv));
      iv := m[s..s + bs];
      s, t, left := s + bs, t + bs, left - bs;
    }
  }

  /** Memory once the blocks from address at up to address end are decrypted, and the block
      before them is not. */
  ghost function OpenedFrom(d: Cipher, bs: nat, mem: seq<Byte>, at: nat, end: nat): (m: seq<Byte>)
    requires OnBlocks(d, bs) && bs <= at <= end <= |mem| && Whole(bs, end - at)
    ensures |m| == |mem|
  {
    Put(mem, at, Decrypt(d, bs, mem[at - bs..at], mem[at..end]))
  }

  lemma BackStart(d: Cipher, bs: nat, mem: seq<Byte>, src: nat, n: nat, iv: seq<Byte>)
    requires OnBlocks(d, bs) && |iv| == bs && 0 < bs <= n && Whole(bs, n) && src + n <= |mem|
    ensures OpenedFrom(d, bs, mem, src + n, src + n) == mem
    ensures OpenedIv(bs, mem, src, n, iv) == mem[src + n - bs..src + n]
  {
    assert mem[src + n..src + n] == [];
  }

  /** Undoing one block more, from the back: nothing before it has changed. */
  lemma BackBlock(d: Cipher, bs: nat, mem: seq<Byte>, s: nat, end: nat, prev: seq<Byte>)
    requires OnBlocks(d, bs) && |prev| == bs > 0 && s + bs <= end <= |mem| && Whole(bs, end - s - bs)
    ensures Whole(bs, end - s)
    ensures var m, x := OpenedFrom(d, bs, mem, s + bs, end), mem[s..s + bs];
            && |d(x)| == bs && m[s..s + bs] == x
            && Put(m, s, Xor(d(x), prev)) == Put(mem, s, Decrypt(d, bs, prev, mem[s..end]))
  {
    hide Put, Decrypt, Xor, OnBlocks;
    var x, rest := mem[s..s + bs], mem[s + bs..end];
    var p := Decrypt(d, bs, x, rest);
    DecryptCons(d, bs, prev, x, rest);
    Slices(mem, s, bs, end - s - bs);
    PutPrepend(mem, s, Xor(d(x), prev), p);
    ReadApart(mem, s + bs, p, s, bs);
  }

  /** The blocks in front of the one just deciphered are still ciphertext. */
  lemma BackStep(d: Cipher, bs: nat, mem: seq<Byte>, s: nat, end: nat)
    requires OnBlocks(d, bs) && bs > 0 && bs <= s && s + bs <= end <= |mem| && Whole(bs, end - s - bs)
    ensures Whole(bs, end - s)
    ensures var m, x := OpenedFrom(d, bs, mem, s + bs, end), mem[s..s + bs];
            && |d(x)| == bs && m[s..s + bs] == x
            && var y := Put(m, s, d(x));
               && y[s..s + bs] == d(x) && y[s - bs..s] == mem[s - bs..s]
               && Put(y, s, Xor(d(x), mem[s - bs..s])) == OpenedFrom(d, bs, mem, s, end)
  {
    var m, x, prev := OpenedFrom(d, bs, mem, s + bs, end), mem[s..s + bs], mem[s - bs..s];
    BackBlock(d, bs, mem, s, end, prev);
    hide Put, Decrypt, Xor, OnBlocks;
    PutAgain(m, s, d(x), Xor(d(x), prev));
    ReadApart(m, s, d(x), s - bs, bs);
    ReadApart(mem, s + bs, Decrypt(d, bs, x, mem[s + bs..end]), s - bs, bs);
  }

  lemma BackEnd(d: Cipher, bs: nat, mem: seq<Byte>, src: nat, n: nat, iv: seq<Byte>)
    requires OnBlocks(d, bs) && |iv| == bs && 0 < bs <= n && Whole(bs, n) && src + n <= |mem|
    ensures var m, x := OpenedFrom(d, bs, mem, src + bs, src + n), mem[src..src + bs];
            && |d(x)| == bs && m[src..src + bs] == x
            && var y := Put(m, src, d(x));
               y[src..src + bs] == d(x) && Put(y, src, Xor(d(x), iv)) == Opened(d, bs, mem, src, src, n, iv)
  {
    hide Put, Decrypt, Xor, OnBlocks, OpenedFrom;
    var m, x := OpenedFrom(d, bs, mem, src + bs, src + n), mem[src..src + bs];
    BackBlock(d, bs, mem, src, src + n, iv);
    PutAgain(m, src, d(x), Xor(d(x), iv));
  }

  /** The bytes of a window past its last whole block. */
  function Tail(bs: nat, n: nat): (t: nat)
    requires bs > 0
    ensures t < bs && t <= n && Whole(bs, n - t)
  {
    WholeRound(bs, n);
    n % bs
  }

  /** crypto_cbc_decrypt_inplace: backwards, so that each block's predecessor is still there. */
  method DecryptInplace(d: Cipher, bs: nat, mem: seq<Byte>, src: nat, n: nat, first: seq<Byte>)
    returns (m: seq<Byte>, iv: seq<Byte>, left: nat)
    requires 0 < bs <= n && OnBlocks(d, bs) && |first| == bs && src + n <= |mem|
    ensures left < bs && left <= n && Whole(bs, n - left)
    ensures m == Opened(d, bs, mem, src, src, n - left, first)
    ensures iv == OpenedIv(bs, mem, src, n - left, first)
  {
    hide Tail, OpenedIv, OpenedFrom, Opened, Put, Decrypt, Xor, Chain, OnBlocks;
    var tail := Tail(bs, n);
    m, left := mem, n;
    var s := src + n - tail - bs;
    iv := mem[s..s + bs];
    ghost var end := src + n - tail;
    BackStart(d, bs, mem, src, n - tail, first);
    while true
      invariant src <= s && s + bs <= end && left == s + bs - src + tail
      invariant Whole(bs, s - src) && Whole(bs, end - s - bs)
      invariant m == OpenedFrom(d, bs, mem, s + bs, end)
      decreases s
    {
      if s == src {
        BackEnd(d, bs, mem, src, n - tail, first);
      } else {
        BackStep(d, bs, mem, s, end);
      }
      m := Put(m, s, d(m[s..s + bs]));
      left := left - bs;
      if left < bs {
        break;
      }
      m := Put(m, s, Xor(m[s..s + bs], m[s - bs..s]));
      s := s - bs;
    }
    m := Put(m, s, Xor(m[s..s + bs], first));
  }

  // Both directions at once: dec says which.

  ghost function Crypt(dec: bool, f: Cipher, bs: nat, iv: seq<Byte>, text: seq<Byte>): (r: seq<Byte>)
    requires OnBlocks(f, bs) && |iv| == bs && Whole(bs, |text|)
    ensures |r| == |text|
  {
    if dec then Decrypt(f, bs, iv, text) else Encrypt(f, bs, iv, text)
  }

  /** The chaining value after the text: the last block of ciphertext. */
  ghost function LastCipher(dec: bool, f: Cipher, bs: nat, iv: seq<Byte>, text: seq<Byte>): (v: seq<Byte>)
    requires OnBlocks(f, bs) && |iv| == bs && Whole(bs, |text|)
    ensures |v| == bs
  {
    Chain(bs, iv, if dec then text else Encrypt(f, bs, iv, text))
  }

  lemma CryptSplit(dec: bool, f: Cipher, bs: nat, iv: seq<Byte>, a: seq<Byte>, b: seq<Byte>)
    requires OnBlocks(f, bs) && |iv| == bs && Whole(bs, |a|) && Whole(bs, |b|)
    ensures Whole(bs, |a + b|)
    ensures var v := LastCipher(dec, f, bs, iv, a);
            && Crypt(dec, f, bs, iv, a + b) == Crypt(dec, f, bs, iv, a) + Crypt(dec, f, bs, v, b)
            && LastCipher(dec, f, bs, iv, a + b) == LastCipher(dec, f, bs, v, b)
  {
    if dec {
      DecryptSplit(f, bs, iv, a, b);
      ChainSplit(bs, iv, a, b);
    } else {
      EncryptSplit(f, bs, iv, a, b);
      var c := Encrypt(f, bs, iv, a);
      WholeSum(bs, |a|, |b|);
      ChainSplit(bs, iv, c, Encrypt(f, bs, Chain(bs, iv, c), b));
    }
  }

  /** What the drivers do with one window. */
  method CryptWindow(dec: bool, f: Cipher, bs: nat, mem: seq<Byte>, src: nat, dst: nat, n: nat, first: seq<Byte>)
    returns (m: seq<Byte>, iv: seq<Byte>, left: nat)
    requires 0 < bs <= n && OnBlocks(f, bs) && |first| == bs
    requires src + n <= |mem| && dst + n <= |mem| && Apart(src, dst, n)
    ensures left < bs && left <= n && Whole(bs, n - left) && (n == bs ==> left == 0)
    ensures m == Put(mem, dst, Crypt(dec, f, bs, first, mem[src..src + (n - left)]))
    ensures iv == LastCipher(dec, f, bs, first, mem[src..src + (n - left)])
  {
    hide Put, Encrypt, Decrypt, Chain, OnBlocks;
    if src == dst {
      if dec {
        m, iv, left := DecryptInplace(f, bs, mem, src, n, first);
      } else {
        m, iv, left := EncryptInplace(f, bs, mem, src, n, first);
      }
    } else if dec {
      m, iv, left := DecryptSegment(f, bs, mem, src, dst, n, first);
    } else {
      m, iv, left := EncryptSegment(f, bs, mem, src, dst, n, first);
    }
  }

  /** How far a request has come: the chained text of the first p bytes of the text is in the
      target, and the rest of the text is still in the source. */
  ghost predicate Chained(dec: bool, f: Cipher, bs: nat, first: seq<Byte>, text: seq<Byte>, target: seq<Byte>,
                          p: nat, iv: seq<Byte>, source: seq<Byte>, result: seq<Byte>)
    requires OnBlocks(f, bs) && |first| == bs
  {
    && Whole(bs, p) && p <= |text| == |source| && p <= |target|
    && result == Put(target, 0, Crypt(dec, f, bs, first, text[..p]))
    && source[p..] == text[p..]
    && iv == LastCipher(dec, f, bs, first, text[..p])
  }

  lemma SameAhead<T>(x: seq<T>, y: seq<T>, p: nat, k: nat)
    requires p + k <= |x| == |y| && x[p..] == y[p..]
    ensures x[p..p + k] == y[p..p + k]
  {
    assert x[p..p + k] == x[p..][..k] && y[p..][..k] == y[p..p + k];
  }

  lemma TailSame<T>(x: seq<T>, y: seq<T>, z: seq<T>, p: nat, k: nat)
    requires p + k <= |x| == |y| == |z| && x[p + k..] == y[p + k..] && y[p..] == z[p..]
    ensures x[p + k..] == z[p + k..]
  {
    assert y[p + k..] == y[p..][k..] && z[p + k..] == z[p..][k..];
  }

  lemma ChainedStep(dec: bool, f: Cipher, bs: nat, first: seq<Byte>, text: seq<Byte>, target: seq<Byte>,
                    p: nat, iv: seq<Byte>, source: seq<Byte>, result: seq<Byte>, k: nat, source': seq<Byte>)
    requires OnBlocks(f, bs) && |first| == bs && Whole(bs, k) && p + k <= |target|
    requires Chained(dec, f, bs, first, text, target, p, iv, source, result)
    requires p + k <= |source| == |source'| && source'[p + k..] == source[p + k..]
    ensures |iv| == bs && Whole(bs, p + k) && |result| == |target|
    ensures var chunk := text[p..p + k];
            Chained(dec, f, bs, first, text, target, p + k, LastCipher(dec, f, bs, iv, chunk), source',
                    Put(result, p, Crypt(dec, f, bs, iv, chunk)))
  {
    hide Crypt, LastCipher, OnBlocks, Put, Whole;
    var a, chunk := text[..p], text[p..p + k];
    Slices(text, 0, p, k);
    assert text[0..p] == a && text[0..p + k] == text[..p + k];
    CryptSplit(dec, f, bs, first, a, chunk);
    PutAppend(target, 0, Crypt(dec, f, bs, first, a), Crypt(dec, f, bs, iv, chunk));
    TailSame(source', source, text, p, k);
  }

  lemma Prefixes<T>(space: seq<T>, s: nat, src: seq<T>, p: nat, n: nat, k: nat)
    requires s + n <= |space| && p + n <= |src| && k <= n && space[s..s + n] == src[p..p + n]
    ensures space[s..s + k] == src[p..p + k]
  {
    assert space[s..s + k] == space[s..s + n][..k];
    assert src[p..p + k] == src[p..p + n][..k];
  }

  /** The mode's work on the window that is out, which holds the next bytes of the text. */
  method Serve(dec: bool, f: Cipher, w: BlkcipherWalk<Byte>, iv0: seq<Byte>, ghost text: seq<Byte>)
    returns (space: seq<Byte>, iv: seq<Byte>, left: nat, ghost data: seq<Byte>)
    requires w.Ready() && OnBlocks(f, w.bsize) && |iv0| == w.bsize
    requires |text| == |w.Source()| && w.Source()[w.pos..] == text[w.pos..]
    ensures left < w.bsize && left <= w.nbytes && (w.kind == Slow ==> left == 0)
    ensures |data| == w.nbytes - left && Whole(w.bsize, |data|) && 0 < |data| <= w.total
    ensures w.pos + |data| <= |text|
    ensures data == Crypt(dec, f, w.bsize, iv0, text[w.pos..w.pos + |data|])
    ensures iv == LastCipher(dec, f, w.bsize, iv0, text[w.pos..w.pos + |data|])
    ensures w.dstAddr + |data| <= |w.Space()| && space == Put(w.Space(), w.dstAddr, data)
  {
    hide Crypt, LastCipher, OnBlocks, Put, Gather, InMemory, Distinct, Addrs, Whole;
    space, iv, left := CryptWindow(dec, f, w.bsize, w.Space(), w.srcAddr, w.dstAddr, w.nbytes, iv0);
    ghost var k := w.nbytes - left;
    Prefixes(w.Space(), w.srcAddr, w.Source(), w.pos, w.nbytes, k);
    SameAhead(w.Source(), text, w.pos, k);
    data := Crypt(dec, f, w.bsize, iv0, text[w.pos..w.pos + k]);
  }

  /** One turn of the drivers' loop: the next bytes of the text are chained and delivered. */
  method Turn(dec: bool, f: Cipher, w: BlkcipherWalk<Byte>, iv0: seq<Byte>, ghost text: seq<Byte>)
    returns (iv: seq<Byte>, err: Error, ghost data: seq<Byte>)
    requires w.Ready() && OnBlocks(f, w.bsize) && |iv0| == w.bsize
    requires |text| == |w.Source()| && w.Source()[w.pos..] == text[w.pos..]
    modifies w, w.inw, w.outw
    ensures 0 < |data| <= old(w.total) && Whole(w.bsize, |data|) && old(w.pos) + |data| <= |text|
    ensures data == Crypt(dec, f, w.bsize, iv0, text[old(w.pos)..old(w.pos) + |data|])
    ensures iv == LastCipher(dec, f, w.bsize, iv0, text[old(w.pos)..old(w.pos) + |data|])
    ensures w.Valid() && w.pos == old(w.pos) + |data| && w.Delivered(old(w.mem), old(w.pos), data)
    ensures var rest := old(w.total) - |data|;
            if rest == 0 then err == OK && w.nbytes == 0
            else if rest < w.bsize then err == EINVAL && w.nbytes == 0
            else err == OK && w.Ready() && w.total == rest
  {
    hide Crypt, LastCipher, OnBlocks, Put, Gather, InMemory, Distinct, Addrs, Whole;
    hide BlkcipherWalk.Lists, BlkcipherWalk.Ready, BlkcipherWalk.Valid, BlkcipherWalk.Delivered, BlkcipherWalk.Source;
    var space, left;
    space, iv, left, data := Serve(dec, f, w, iv0, text);
    err := w.Done(space, left, data);
  }

  /** What a driver's loop keeps, since memory was mem. */
  ghost predicate Progress(dec: bool, f: Cipher, w: BlkcipherWalk<Byte>, mem: seq<Byte>, first: seq<Byte>,
                           iv: seq<Byte>)
    requires OnBlocks(f, w.bsize) && |first| == w.bsize
    reads w
  {
    var s, d := Addrs(w.inw.list), Addrs(w.outw.list);
    && w.Valid() && |mem| == |w.mem|
    && Chained(dec, f, w.bsize, first, Gather(mem, s), Gather(mem, d), w.pos, iv, w.Source(), w.Target())
    && forall a | 0 <= a < |mem| && a !in d :: w.mem[a] == mem[a]
  }

  lemma ProgressFacts(dec: bool, f: Cipher, w: BlkcipherWalk<Byte>, mem: seq<Byte>, first: seq<Byte>,
                      iv: seq<Byte>)
    requires OnBlocks(f, w.bsize) && |first| == w.bsize && Progress(dec, f, w, mem, first, iv)
    ensures w.Lists() && InMemory(Addrs(w.inw.list), |mem|) && InMemory(Addrs(w.outw.list), |mem|)
    ensures var text, target := Gather(mem, Addrs(w.inw.list)), Gather(mem, Addrs(w.outw.list));
            && |iv| == w.bsize && w.pos <= |text| == |w.Source()| && w.Source()[w.pos..] == text[w.pos..]
            && Chained(dec, f, w.bsize, first, text, target, w.pos, iv, w.Source(), w.Target())
    ensures |mem| == |w.mem| && forall a | 0 <= a < |mem| && a !in Addrs(w.outw.list) :: w.mem[a] == mem[a]
  {
    hide Addrs, Gather, Distinct;
  }

  lemma ProgressStep(dec: bool, f: Cipher, w: BlkcipherWalk<Byte>, mem: seq<Byte>, first: seq<Byte>,
                     iv: seq<Byte>, m1: seq<Byte>, p: nat, data: seq<Byte>)
    requires OnBlocks(f, w.bsize) && |first| == w.bsize && w.Valid() && w.Delivered(m1, p, data)
    requires InMemory(Addrs(w.inw.list), |mem|) && InMemory(Addrs(w.outw.list), |mem|)
    requires |mem| == |m1| && forall a | 0 <= a < |mem| && a !in Addrs(w.outw.list) :: m1[a] == mem[a]
    requires Chained(dec, f, w.bsize, first, Gather(mem, Addrs(w.inw.list)), Gather(mem, Addrs(w.outw.list)),
                     w.pos, iv, w.Source(), Put(Gather(m1, Addrs(w.outw.list)), p, data))
    ensures Progress(dec, f, w, mem, first, iv)
  {
    hide Addrs, Gather, Distinct, Chained;
  }

  /** That turn carries the loop's invariant on. */
  method CryptNext(dec: bool, f: Cipher, w: BlkcipherWalk<Byte>, iv0: seq<Byte>,
                   ghost mem: seq<Byte>, ghost first: seq<Byte>)
    returns (iv: seq<Byte>, err: Error)
    requires OnBlocks(f, w.bsize) && |first| == w.bsize
    requires w.Ready() && Progress(dec, f, w, mem, first, iv0)
    modifies w, w.inw, w.outw
    ensures Progress(dec, f, w, mem, first, iv) && w.pos > old(w.pos)
    ensures var rest := old(w.total) - (w.pos - old(w.pos));
            && rest >= 0
            && if rest == 0 then err == OK && w.nbytes == 0
               else if rest < w.bsize then err == EINVAL && w.nbytes == 0
               else err == OK && w.Ready() && w.total == rest
  {
    hide Crypt, LastCipher, OnBlocks, Put, Gather, InMemory, Distinct, Addrs, Whole, Chained;
    hide BlkcipherWalk.Lists, BlkcipherWalk.Ready, Progress;
    ProgressFacts(dec, f, w, mem, first, iv0);
    ghost var p, m1, source, result := w.pos, w.mem, w.Source(), w.Target();
    ghost var text, target := Gather(mem, Addrs(w.inw.list)), Gather(mem, Addrs(w.outw.list));
    ghost var data;
    iv, err, data := Turn(dec, f, w, iv0, text);
    w.AheadKept(m1, p, data);
    ChainedStep(dec, f, w.bsize, first, text, target, p, iv0, source, result, |data|, w.Source());
    ProgressStep(dec, f, w, mem, first, iv, m1, p, data);
  }

  /** crypto_cbc_encrypt and crypto_cbc_decrypt: the destination list receives the chained text
      of the source list, however both are cut into entries and pages. */
  method CryptList(dec: bool, f: Cipher, w: BlkcipherWalk<Byte>, first: seq<Byte>)
    returns (iv: seq<Byte>, err: Error)
    requires w.Valid() && w.AtNext() && w.pos == 0 && w.nbytes == w.total
    requires OnBlocks(f, w.bsize) && |first| == w.bsize
    modifies w, w.inw, w.outw
    ensures w.Valid() && Whole(w.bsize, w.pos) && w.pos <= old(w.total) < w.pos + w.bsize
    ensures w.bsize > 0 && w.pos == old(w.total) - old(w.total) % w.bsize
    ensures err == if w.pos == old(w.total) then OK else EINVAL
    ensures w.pos <= |old(w.Source())|
    ensures w.Delivered(old(w.mem), 0, Crypt(dec, f, w.bsize, first, old(w.Source())[..w.pos]))
    ensures iv == LastCipher(dec, f, w.bsize, first, old(w.Source())[..w.pos])
  {
    ghost var n, mem := w.total, w.mem;
    iv := first;
    err := w.First();
    assert w.Source()[..0] == [];
    while w.nbytes != 0
      invariant Progress(dec, f, w, mem, first, iv) && w.pos <= n
      invariant w.nbytes != 0 ==> w.Ready() && w.pos + w.total == n
      invariant w.nbytes == 0 ==> n < w.pos + w.bsize && err == if w.pos == n then OK else EINVAL
      decreases n - w.pos
    {
      iv, err := CryptNext(dec, f, w, iv, mem, first);
    }
    WholeUnique(w.bsize, w.pos, n);
  }
}
