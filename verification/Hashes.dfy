/** MD5, SHA-1 and SHA-256 as kernel/linux/crypto/md5.c, sha1.c and sha256.c drive their
    compression functions. Each keeps its own count and buffers its own way. */
module Hashes {
  import opened HashSpec
  import opened ScatterWalk

  /** The state and the buffer stand for the text so far. */
  ghost predicate Holds(f: Compress, iv: State, text: seq<U8>, state: State, buffer: seq<U8>) {
    |buffer| == BLOCK && state == Fold(f, iv, text) && buffer[..|text| % BLOCK] == Rest(text)
  }

  /** A little more text, not enough for a block. */
  lemma Buffered(f: Compress, iv: State, text: seq<U8>, state: State, buffer: seq<U8>, data: seq<U8>)
    requires Holds(f, iv, text, state, buffer) && |text| % BLOCK + |data| < BLOCK
    ensures Holds(f, iv, text + data, state, Put(buffer, |text| % BLOCK, data))
  {
    MoreText(f, iv, text, data);
    var n := |text| % BLOCK;
    assert Put(buffer, n, data)[..n + |data|] == Rest(text) + data;
    assert |text + data| % BLOCK == n + |data|;
  }

  /** The text that completes a block, and the blocks after it. */
  lemma Completed(f: Compress, iv: State, text: seq<U8>, state: State, buffer: seq<U8>, data: seq<U8>)
    requires Holds(f, iv, text, state, buffer) && |text| % BLOCK + |data| >= BLOCK
    ensures var n := |text| % BLOCK;
            var full := Put(buffer, n, data[..BLOCK - n]);
            && Fold(f, iv, text + data) == Fold(f, f(state, full), data[BLOCK - n..])
            && Rest(text + data) == Rest(data[BLOCK - n..])
            && (n == 0 ==> full == data[..BLOCK])
  {
    hide Fold, Rest, Put;
    var n := |text| % BLOCK;
    MoreText(f, iv, text, data);
    Filled(buffer, n, data);
    FoldBlock(f, state, Put(buffer, n, data[..BLOCK - n]), data[BLOCK - n..]);
  }

  lemma Filled(buffer: seq<U8>, n: nat, data: seq<U8>)
    requires |buffer| == BLOCK && n <= BLOCK && BLOCK - n <= |data|
    ensures var full := Put(buffer, n, data[..BLOCK - n]);
            buffer[..n] + data == full + data[BLOCK - n..] && (n == 0 ==> full == data[..BLOCK])
  {
    var full := Put(buffer, n, data[..BLOCK - n]);
    assert full == buffer[..n] + data[..BLOCK - n];
    assert data == data[..BLOCK - n] + data[BLOCK - n..];
  }

  /** One block more straight from the data. */
  lemma Straight(f: Compress, h: State, data: seq<U8>)
    requires |data| >= BLOCK
    ensures Fold(f, h, data) == Fold(f, f(h, data[..BLOCK]), data[BLOCK..]) && Rest(data) == Rest(data[BLOCK..])
  {
  }

  /** What is left goes to the start of the buffer. */
  lemma Leftover(f: Compress, iv: State, text: seq<U8>, state: State, buffer: seq<U8>, data: seq<U8>)
    requires |buffer| == BLOCK && |data| < BLOCK
    requires Fold(f, iv, text) == Fold(f, state, data) && Rest(text) == Rest(data)
    ensures Holds(f, iv, text, state, Put(buffer, 0, data))
  {
    assert Put(buffer, 0, data)[..|data|] == data;
  }

  // The end of the message.

  function OutLe(h: State): (s: seq<U8>)
    ensures |s| == 4 * |h|
  {
    if h == [] then [] else Le(h[0], 4) + OutLe(h[1..])
  }

  function OutBe(h: State): (s: seq<U8>)
    ensures |s| == 4 * |h|
  {
    if h == [] then [] else Be(h[0], 4) + OutBe(h[1..])
  }

  /** The last block, or the last two, that the padding makes. */
  lemma LastBlocks(f: Compress, iv: State, text: seq<U8>, state: State, buffer: seq<U8>, length: seq<U8>)
    requires Holds(f, iv, text, state, buffer) && |length| == 8
    ensures var n := |text| % BLOCK;
            var start := buffer[..n] + [0x80];
            Fold(f, iv, Padded(text, length)) ==
              if n < 56 then f(state, start + Zeros(55 - n) + length)
              else f(f(state, start + Zeros(63 - n)), Zeros(56) + length)
  {
    hide Fold, Rest;
    var n, tail := |text| % BLOCK, Filler(|text|) + length;
    var start := buffer[..n] + [0x80];
    assert text + Filler(|text|) + length == text + tail;
    MoreText(f, iv, text, tail);
    if n < 56 {
      var b := start + Zeros(55 - n) + length;
      assert buffer[..n] + tail == b + [];
      FoldBlock(f, state, b, []);
      FoldNothing(f, f(state, b));
    } else {
      var b, c := start + Zeros(63 - n), Zeros(56) + length;
      assert Zeros(119 - n) == Zeros(63 - n) + Zeros(56);
      assert buffer[..n] + tail == b + (c + []);
      FoldBlock(f, state, b, c + []);
      FoldBlock(f, f(state, b), c, []);
      FoldNothing(f, f(f(state, b), c));
    }
  }

  lemma FoldNothing(f: Compress, h: State)
    ensures Fold(f, h, []) == h
  {
  }

  /** Counting bytes modulo 2^64 is enough for the length in bits. */
  lemma CountMod(count: nat, len: nat)
    requires count == len % U64
    ensures count * 8 % U64 == len * 8 % U64
  {
    var q := len / U64;
    assert len * 8 == U64 * (q * 8) + count * 8;
    ModPlus(q * 8, count * 8);
  }

  lemma ModPlus(q: nat, b: nat)
    ensures (U64 * q + b) % U64 == b % U64
  {
  }

  lemma WordsOf(y: nat)
    ensures y % U64 % U32 == y % U32 && y % U64 / U32 == y / U32 % U32
  {
  }

  lemma LengthWords(count: nat, len: nat)
    requires count == len % U64
    ensures LengthLe(len) == Le(count * 8 % U32, 4) + Le(count / 0x2000_0000 % U32, 4)
  {
    CountMod(count, len);
    WordsOf(count * 8);
    LeWords(len * 8 % U64);
    assert count * 8 / U32 == count / 0x2000_0000;
  }

  // The start values, as the standards give them.

  /** Section 3.3 of RFC 1321: the words A, B, C, D, low-order bytes first. */
  lemma Md5Start()
    ensures OutLe(Md5Ctx.IV) == [0x01, 0x23, 0x45, 0x67, 0x89, 0xab, 0xcd, 0xef, 0xfe, 0xdc, 0xba, 0x98, 0x76, 0x54, 0x32, 0x10]
  {
  }

  /** Section 5.3.1 of FIPS 180-2: MD5's words, read the other way round, and one more. */
  lemma Sha1Start()
    ensures Sha1Ctx.IV[..4] == Md5Ctx.IV && Be(Sha1Ctx.IV[4], 4) == [0xc3, 0xd2, 0xe1, 0xf0] && |Sha1Ctx.IV| == 5
  {
  }

  /** h is the first 32 bits of the fractional part of the square root of p. */
  ghost predicate RootFraction(p: nat, h: nat) {
    h < U32 && exists r: nat :: IsRoot(p, r, h)
  }

  predicate IsRoot(p: nat, r: nat, h: nat) {
    (r * U32 + h) * (r * U32 + h) <= p * U32 * U32 < (r * U32 + h + 1) * (r * U32 + h + 1)
  }

  /** Section 5.3.2 of FIPS 180-2: the square roots of the first eight primes. */
  lemma Sha256Start()
    ensures |Sha256Ctx.IV| == 8
    ensures RootFraction(2, Sha256Ctx.IV[0]) && RootFraction(3, Sha256Ctx.IV[1]) && RootFraction(5, Sha256Ctx.IV[2])
    ensures RootFraction(7, Sha256Ctx.IV[3]) && RootFraction(11, Sha256Ctx.IV[4]) && RootFraction(13, Sha256Ctx.IV[5])
    ensures RootFraction(17, Sha256Ctx.IV[6]) && RootFraction(19, Sha256Ctx.IV[7])
  {
    assert IsRoot(2, 1, 0x6a09e667) && IsRoot(3, 1, 0xbb67ae85) && IsRoot(5, 2, 0x3c6ef372) && IsRoot(7, 2, 0xa54ff53a);
    assert IsRoot(11, 3, 0x510e527f) && IsRoot(13, 3, 0x9b05688c) && IsRoot(17, 4, 0x1f83d9ab) && IsRoot(19, 4, 0x5be0cd19);
  }

  /** struct md5_ctx */
  class Md5Ctx {
    const f: Compress
    var hash: State
    var block: seq<U8>
    var byteCount: nat
    ghost var text: seq<U8>

    static const IV: State := [0x67452301, 0xefcdab89, 0x98badcfe, 0x10325476]

    ghost predicate Valid()
      reads this
    {
      Holds(f, IV, text, hash, block) && byteCount == |text| % U64
    }

    constructor (f: Compress)
      ensures this.f == f && |block| == BLOCK
    {
      this.f := f;
      hash, block, byteCount, text := [], Zeros(BLOCK), 0, [];
    }

    /** md5_init */
    method Init()
      requires |block| == BLOCK
      modifies this`hash, this`byteCount, this`text
      ensures Valid() && text == []
    {
      hash, byteCount, text := IV, 0, [];
    }

    /** md5_update */
    method Update(data: seq<U8>)
      requires Valid() && |data| < U32
      modifies this`hash, this`block, this`byteCount, this`text
      ensures Valid() && text == old(text) + data
    {
      hide Holds, Fold, Rest, Put;
      var avail, p := BLOCK - byteCount % BLOCK, data;
      assert BLOCK - avail == |text| % BLOCK;
      byteCount := (byteCount + |data|) % U64;
      assert byteCount == |text + data| % U64;
      BufferSize(f, IV, text, hash, block);
      if avail > |data| {
        Buffered(f, IV, text, hash, block, data);
        block := Put(block, BLOCK - avail, p);
        text := text + data;
        return;
      }
      Completed(f, IV, text, hash, block, data);
      block := Put(block, BLOCK - avail, p[..avail]);
      hash := f(hash, block);
      p := p[avail..];
      while |p| >= BLOCK
        invariant |block| == BLOCK
        invariant Fold(f, IV, text + data) == Fold(f, hash, p) && Rest(text + data) == Rest(p)
        modifies this`hash, this`block
        decreases |p|
      {
        Straight(f, hash, p);
        block := p[..BLOCK];
        hash := f(hash, block);
        p := p[BLOCK..];
      }
      Leftover(f, IV, text + data, hash, block, p);
      block := Put(block, 0, p);
      text := text + data;
    }

    /** md5_final, but for the wiping of the context */
    method Final() returns (out: seq<U8>)
      requires Valid()
      modifies this`hash, this`block
      ensures out == OutLe(Md5(f, IV, text)) && |block| == BLOCK
    {
      hide Fold, Holds, Padded, LengthLe, Le, OutLe, Zeros;
      BufferSize(f, IV, text, hash, block);
      var offset := byteCount % BLOCK;
      assert offset == |text| % BLOCK;
      LastBlocks(f, IV, text, hash, block, LengthLe(|text|));
      LengthWords(byteCount, |text|);
      ghost var start, length := block[..offset] + [0x80], LengthLe(|text|);
      var padding := 56 - (offset + 1);
      block := block[offset := 0x80];
      assert block[..offset + 1] == start;
      var front;
      if padding < 0 {
        block := block[..offset + 1] + Zeros(padding + 8);
        assert block == start + Zeros(63 - offset);
        hash := f(hash, block);
        front := Zeros(56);
      } else {
        front := block[..offset + 1] + Zeros(padding);
      }
      block := front + (Le(byteCount * 8 % U32, 4) + Le(byteCount / 0x2000_0000 % U32, 4));
      hash := f(hash, block);
      out := OutLe(hash);
    }
  }

  lemma BufferSize(f: Compress, iv: State, text: seq<U8>, state: State, buffer: seq<U8>)
    requires Holds(f, iv, text, state, buffer)
    ensures |buffer| == BLOCK
  {
  }

  /** The first n bytes of the padding array */
  function Padding(n: nat): seq<U8>
    requires 1 <= n <= BLOCK
  {
    ([0x80] + Zeros(BLOCK - 1))[..n]
  }

  lemma FillerLength(len: nat)
    ensures var index := len % BLOCK;
            Filler(len) == Padding(if index < 56 then 56 - index else 64 + 56 - index)
  {
  }

  /** struct sha1_ctx */
  class Sha1Ctx {
    const f: Compress
    var count: nat
    var state: State
    var buffer: seq<U8>
    ghost var text: seq<U8>

    static const IV: State := [0x67452301, 0xefcdab89, 0x98badcfe, 0x10325476, 0xc3d2e1f0]

    ghost predicate Valid()
      reads this
    {
      Holds(f, IV, text, state, buffer) && count == |text| % U64
    }

    constructor (f: Compress)
      ensures this.f == f
    {
      this.f := f;
      count, state, buffer, text := 0, [], [], [];
    }

    /** sha1_init */
    method Init()
      modifies this`count, this`state, this`buffer, this`text
      ensures Valid() && text == []
    {
      count, state, buffer, text := 0, IV, Zeros(BLOCK), [];
    }

    /** sha1_update */
    method Update(data: seq<U8>)
      requires Valid() && |data| + BLOCK <= U32
      modifies this`count, this`state, this`buffer, this`text
      ensures Valid() && text == old(text) + data
    {
      hide Holds, Fold, Rest, Put;
      BufferSize(f, IV, text, state, buffer);
      var partial, done: int := count % BLOCK, 0;
      assert partial == |text| % BLOCK;
      count := (count + |data|) % U64;
      assert count == |text + data| % U64;
      if partial + |data| > 63 {
        Completed(f, IV, text, state, buffer, data);
        var src := data;
        if partial > 0 {
          done := -partial;
          buffer := Put(buffer, partial, data[..done + 64]);
          src := buffer;
        }
        state := f(state, src[..BLOCK]);
        assert src == buffer ==> src[..BLOCK] == buffer;
        done := done + 64;
        while done + 63 < |data|
          invariant 0 <= done <= |data| && |buffer| == BLOCK
          invariant Fold(f, IV, text + data) == Fold(f, state, data[done..]) && Rest(text + data) == Rest(data[done..])
          modifies this`state
        {
          Straight(f, state, data[done..]);
          assert data[done..][..BLOCK] == data[done..done + 64] && data[done..][BLOCK..] == data[done + 64..];
          state := f(state, data[done..done + 64]);
          done := done + 64;
        }
        Leftover(f, IV, text + data, state, buffer, data[done..]);
        partial := 0;
      } else {
        Buffered(f, IV, text, state, buffer, data);
        assert data[0..] == data;
      }
      buffer := Put(buffer, partial, data[done..]);
      text := text + data;
    }

    /** sha1_final, but for the wiping of the context */
    method Final() returns (out: seq<U8>)
      requires Valid()
      modifies this`count, this`state, this`buffer, this`text
      ensures out == OutBe(Sha(f, IV, old(text)))
    {
      hide Holds, Fold, Rest, Be, OutBe, Filler, Zeros;
      CountMod(count, |text|);
      var bits := Be(count * 8 % U64, 8);
      var index := count % BLOCK;
      assert index == |text| % BLOCK;
      FillerLength(|text|);
      var padlen := if index < 56 then 56 - index else 64 + 56 - index;
      Update(Padding(padlen));
      Update(bits);
      AllTaken(f, IV, text, state, buffer);
      out := OutBe(state);
    }
  }

  lemma AllTaken(f: Compress, iv: State, text: seq<U8>, state: State, buffer: seq<U8>)
    requires Holds(f, iv, text, state, buffer)
    ensures state == Fold(f, iv, text)
  {
  }

  // The bit count of SHA-256, in two words.

  /** The carry of sha256_update: the upper bits of a long text are added only with a carry. */
  function AddBits(lo: nat, hi: nat, len: nat): (c: (nat, nat))
    ensures c.0 < U32
  {
    var sum := (lo + len * 8 % U32) % U32;
    if sum < len * 8 % U32 then (sum, (hi + 1 + len / 0x2000_0000) % U32) else (sum, hi)
  }

  /** The two words count bits modulo 2^64 exactly if the text is shorter than 2^29 bytes, or
      there happens to be a carry. */
  lemma AddBitsIff(lo: nat, hi: nat, len: nat)
    requires lo < U32 && hi < U32 && len < U32
    ensures var c := AddBits(lo, hi, len);
            c.1 * U32 + c.0 == (hi * U32 + lo + len * 8) % U64 <==>
              len < 0x2000_0000 || lo + len * 8 % U32 >= U32
  {
    var low, high := len * 8 % U32, len / 0x2000_0000;
    assert len * 8 == high * U32 + low;
    var carry := if lo + low >= U32 then 1 else 0;
    assert (lo + low) % U32 == lo + low - carry * U32;
    var h := hi + high + carry;
    assert hi * U32 + lo + len * 8 == h * U32 + (lo + low) % U32;
    TwoWords(h, (lo + low) % U32);
  }

  lemma TwoWords(h: nat, l: nat)
    requires l < U32
    ensures (h * U32 + l) % U64 == h % U32 * U32 + l
  {
  }

  /** struct sha256_ctx */
  class Sha256Ctx {
    const f: Compress
    var lo: nat                // count[0]
    var hi: nat                // count[1]
    var state: State
    var buf: seq<U8>
    ghost var text: seq<U8>

    static const IV: State := [0x6a09e667, 0xbb67ae85, 0x3c6ef372, 0xa54ff53a, 0x510e527f, 0x9b05688c, 0x1f83d9ab, 0x5be0cd19]

    /** The text is taken in, and the lower word of the count is right. */
    ghost predicate Absorbed()
      reads this
    {
      Holds(f, IV, text, state, buf) && lo == |text| * 8 % U32 && hi < U32
    }

    ghost predicate Valid()
      reads this
    {
      Absorbed() && hi == |text| * 8 / U32 % U32
    }

    constructor (f: Compress)
      ensures this.f == f && |buf| == BLOCK
    {
      this.f := f;
      lo, hi, state, buf, text := 0, 0, [], Zeros(BLOCK), [];
    }

    /** sha256_init */
    method Init()
      requires |buf| == BLOCK
      modifies this`lo, this`hi, this`state, this`text
      ensures Valid() && text == []
    {
      lo, hi, state, text := 0, 0, IV, [];
    }

    /** sha256_update */
    method Update(data: seq<U8>)
      requires Absorbed() && |data| + 63 < U32
      modifies this`lo, this`hi, this`state, this`buf, this`text
      ensures Absorbed() && text == old(text) + data
      ensures old(Valid()) ==> (Valid() <==> |data| < 0x2000_0000 || old(lo) + |data| * 8 % U32 >= U32)
    {
      hide Holds, Fold, Rest, Put, AddBits;
      BufferSize(f, IV, text, state, buf);
      var index := lo / 8 % BLOCK;
      ByteIndex(|text|);
      BitsAfterIff(|text|, |data|, hi);
      var c := AddBits(lo, hi, |data|);
      lo, hi := c.0, c.1;
      var partLen, i := BLOCK - index, 0;
      if |data| >= partLen {
        Completed(f, IV, text, state, buf, data);
        buf := Put(buf, index, data[..partLen]);
        state := f(state, buf);
        i := partLen;
        while i + 63 < |data|
          invariant 0 <= i <= |data| && |buf| == BLOCK
          invariant Fold(f, IV, text + data) == Fold(f, state, data[i..]) && Rest(text + data) == Rest(data[i..])
          modifies this`state
        {
          Straight(f, state, data[i..]);
          assert data[i..][..BLOCK] == data[i..i + 64] && data[i..][BLOCK..] == data[i + 64..];
          state := f(state, data[i..i + 64]);
          i := i + 64;
        }
        Leftover(f, IV, text + data, state, buf, data[i..]);
        index := 0;
      } else {
        Buffered(f, IV, text, state, buf, data);
        assert data[0..] == data;
      }
      buf := Put(buf, index, data[i..]);
      text := text + data;
    }

    /** sha256_final, but for the wiping of the context */
    method Final() returns (out: seq<U8>)
      requires Valid()
      modifies this`lo, this`hi, this`state, this`buf, this`text
      ensures out == OutBe(Sha(f, IV, old(text))) && |buf| == BLOCK
    {
      hide Holds, Fold, Rest, Be, OutBe, Filler, Zeros;
      WordsOf(|text| * 8);
      BeWords(|text| * 8 % U64);
      var bits := Be(hi, 4) + Be(lo, 4);
      var index := lo / 8 % BLOCK;
      ByteIndex(|text|);
      FillerLength(|text|);
      var padLen := if index < 56 then 56 - index else 64 + 56 - index;
      Update(Padding(padLen));
      Update(bits);
      BufferSize(f, IV, text, state, buf);
      AllTaken(f, IV, text, state, buf);
      out := OutBe(state);
    }
  }

  lemma ByteIndex(n: nat)
    ensures n * 8 % U32 / 8 % BLOCK == n % BLOCK
  {
    var q, r := n / 0x2000_0000, n % 0x2000_0000;
    assert n * 8 == q * U32 + r * 8;
    assert n * 8 % U32 == r * 8;
    assert n == q * 0x2000_0000 + r;
  }

  /** The lower word is always right, the upper one under the condition of AddBitsIff. */
  lemma BitsAfterIff(n: nat, len: nat, hi: nat)
    requires len < U32 && hi < U32
    ensures var c := AddBits(n * 8 % U32, hi, len);
            && c.0 == (n + len) * 8 % U32 && c.1 < U32
            && (hi == n * 8 / U32 % U32 ==>
                  (c.1 == (n + len) * 8 / U32 % U32 <==> len < 0x2000_0000 || n * 8 % U32 + len * 8 % U32 >= U32))
  {
    var lo := n * 8 % U32;
    var c := AddBits(lo, hi, len);
    assert c.0 == (n + len) * 8 % U32 by { LowWord(n, len); }
    AddBitsIff(lo, hi, len);
    WordsOf(n * 8);
    WordsOf((n + len) * 8);
    ModSum(n * 8, len * 8);
    assert c.1 < U32;
    hide AddBits;
    if hi == n * 8 / U32 % U32 {
      assert hi * U32 + lo == n * 8 % U64;
      assert (hi * U32 + lo + len * 8) % U64 == (n + len) * 8 % U64;
      TwoWays(c.1, c.0, (n + len) * 8 % U64);
    }
  }

  lemma LowWord(n: nat, len: nat)
    ensures (n * 8 % U32 + len * 8 % U32) % U32 == (n + len) * 8 % U32
  {
    var a, b := n * 8, len * 8;
    var x, y := a % U32, b % U32;
    assert a + b == U32 * (a / U32 + b / U32) + (x + y);
    WordPlus(a / U32 + b / U32, x + y);
  }

  lemma WordPlus(q: nat, b: nat)
    ensures (U32 * q + b) % U32 == b % U32
  {
  }

  lemma TwoWays(h: nat, l: nat, x: nat)
    requires l < U32 && l == x % U32
    ensures h * U32 + l == x <==> h == x / U32
  {
  }

  lemma ModSum(a: nat, b: nat)
    ensures (a % U64 + b) % U64 == (a + b) % U64
  {
  }
}
