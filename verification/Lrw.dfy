/** LRW: kernel/linux/crypto/lrw.c. A be128 is modelled by its bits, bit i of the 128-bit
    integer first at index i, which is also the coefficient of X^i. */
module Lrw {
  import opened Collections
  import Bits
  import opened Gf128
  import opened Gf128Tables

  const TWO64: nat := 0x1_0000_0000_0000_0000

  /** The block counter, two big-endian 64-bit words. */
  datatype Counter = Counter(a: nat, b: nat) {
    ghost predicate Valid() { a < TWO64 && b < TWO64 }

    function Number(): nat { a * TWO64 + b }
  }

  /** The bits of a block number. */
  function NumberBits(v: nat): Elem { Low(v, 128) }

  /** Bits 0 .. n - 1 set. */
  function Ones(n: nat): Elem {
    seq(128, i => i < n)
  }

  /** How many consecutive 1 bits a word ends with. */
  function TrailingOnes(s: seq<bool>): (n: nat)
    ensures n <= |s| && (forall i | 0 <= i < n :: s[i]) && (n < |s| ==> !s[n])
  {
    if s == [] || !s[0] then 0 else 1 + TrailingOnes(s[1..])
  }

  /** I * Key2 for block number I. */
  function Tweak(key2: Elem, v: nat): Elem {
    Mul(key2, NumberBits(v))
  }

  /** key2 times i + 1 ones: what changes the tweak when i trailing ones roll over. */
  function Step(key2: Elem, i: nat): Elem {
    Mul(key2, Ones(i + 1))
  }

  /** One block under mask t. */
  function Masked(f: Elem -> Elem, t: Elem, b: Elem): Elem {
    Add(f(Add(t, b)), t)
  }

  /** The cipher as its specification states it: block k is masked with tweak(I + k). */
  function Spec(f: Elem -> Elem, tweak: nat -> Elem, v: nat, blocks: seq<Elem>): (out: seq<Elem>)
    ensures |out| == |blocks|
    decreases |blocks|
  {
    if blocks == [] then []
    else [Masked(f, tweak(v), blocks[0])] + Spec(f, tweak, v + 1, blocks[1..])
  }

  /** The tweak of LRW: (I + k) * Key2. */
  function Tweaks(key2: Elem): nat -> Elem {
    v => Tweak(key2, v)
  }

  // Counting.

  /** Adding one flips the trailing ones and the zero above them. */
  lemma {:induction false} IncrementFlips(v: nat, n: nat)
    requires TrailingOnes(Low(v, n)) < n
    ensures forall i | 0 <= i < n :: Low(v + 1, n)[i] == (Low(v, n)[i] != (i <= TrailingOnes(Low(v, n))))
    decreases n
  {
    var s := Low(v, n);
    if v % 2 == 1 {
      assert s[1..] == Low(v / 2, n - 1);
      IncrementFlips(v / 2, n - 1);
      assert (v + 1) / 2 == v / 2 + 1;
    } else {
      assert (v + 1) / 2 == v / 2;
    }
  }

  /** Only the number with all n bits set ends in n ones. */
  lemma {:induction false} AllOnes(v: nat, n: nat)
    requires v < Pow2(n)
    ensures TrailingOnes(Low(v, n)) == n <==> v == Pow2(n) - 1
    decreases n
  {
    if n > 0 {
      assert Low(v, n)[1..] == Low(v / 2, n - 1);
      AllOnes(v / 2, n - 1);
    }
  }

  /** One XOR from the table moves the tweak to the next block number. */
  lemma TweakIncrement(key2: Elem, v: nat)
    requires TrailingOnes(NumberBits(v)) < 128
    ensures Add(Tweak(key2, v), Step(key2, TrailingOnes(NumberBits(v)))) == Tweak(key2, v + 1)
  {
    var n := TrailingOnes(NumberBits(v));
    IncrementFlips(v, 128);
    assert Bits.Xor(NumberBits(v), Ones(n + 1)) == NumberBits(v + 1);
    MulAdd(key2, NumberBits(v), Ones(n + 1));
  }

  /** The index into mulinc is in bounds exactly when the counter is not all ones. */
  lemma IndexInBounds(v: nat)
    requires v < Pow2(128)
    ensures TrailingOnes(NumberBits(v)) < 128 <==> v + 1 < Pow2(128)
  {
    AllOnes(v, 128);
  }

  // Key setup.

  /** struct priv, as setkey leaves it for the tweak key key2. */
  datatype Context = Context(table: Table, mulinc: seq<Elem>)

  ghost predicate ContextFor(ctx: Context, key2: Elem) {
    && ctx.table == TableOf(Bbe, key2)
    && |ctx.mulinc| == 128
    && forall i | 0 <= i < 128 :: ctx.mulinc[i] == Step(key2, i)
  }

  /** setkey, the part that prepares Key2 */
  method SetKey(key2: Elem) returns (ctx: Context)
    ensures ContextFor(ctx, key2)
  {
    var table := Init64kBbe(key2);
    var tmp: Elem := ZERO;
    var mulinc: seq<Elem> := [];
    var i := 0;
    assert tmp == Ones(0);
    while i < 128
      invariant 0 <= i <= 128 && |mulinc| == i && tmp == Ones(i)
      invariant forall k | 0 <= k < i :: mulinc[k] == Step(key2, k)
    {
      OneMore(i);
      tmp := tmp[i := true];
      var m := Mul64k(Bbe, tmp, table, key2);
      assert m == Step(key2, i);
      mulinc := mulinc + [m];
      i := i + 1;
    }
    ctx := Context(table, mulinc);
  }

  lemma OneMore(i: nat)
    requires i < 128
    ensures Ones(i)[i := true] == Ones(i + 1)
  {
  }

  /** inc: 64-bit addition with a carry into the upper word */
  method Inc(iv: Counter) returns (iv': Counter)
    requires iv.Valid()
    ensures iv'.Valid() && iv'.Number() == (iv.Number() + 1) % (TWO64 * TWO64)
  {
    var b := (iv.b + 1) % TWO64;
    if b == 0 {
      iv' := Counter((iv.a + 1) % TWO64, b);
    } else {
      iv' := Counter(iv.a, b);
    }
  }

  /** get_index128: skip whole words of ones, then find the first zero bit */
  method GetIndex128(block: Elem) returns (x: nat)
    ensures x == TrailingOnes(block)
  {
    x := 0;
    while x < 128
      invariant x % 32 == 0 && x <= 128 && forall i | 0 <= i < x :: block[i]
    {
      var val := block[x..x + 32];
      var zero := TrailingOnes(val);
      if zero < 32 {
        TrailingOnesUnique(block, x + zero);
        return x + zero;
      }
      forall i | x <= i < x + 32 ensures block[i] { assert val[i - x]; }
      x := x + 32;
    }
    TrailingOnesUnique(block, 128);
  }

  lemma TrailingOnesUnique(s: seq<bool>, n: nat)
    requires n <= |s| && (forall i | 0 <= i < n :: s[i]) && (n < |s| ==> !s[n])
    ensures TrailingOnes(s) == n
  {
  }

  // Encryption and decryption.

  /** lrw_round */
  method Round(f: Elem -> Elem, t: Elem, src: Elem) returns (dst: Elem)
    ensures dst == Masked(f, t, src)
  {
    dst := Add(t, src);
    dst := f(dst);
    dst := Add(dst, t);
  }

  function Flatten(chunks: seq<seq<Elem>>): seq<Elem> {
    if chunks == [] then [] else chunks[0] + Flatten(chunks[1..])
  }

  lemma {:induction false} FlattenSnoc(chunks: seq<seq<Elem>>, n: nat)
    requires n < |chunks|
    ensures Flatten(chunks[..n + 1]) == Flatten(chunks[..n]) + chunks[n]
    ensures |Flatten(chunks[..n + 1])| <= |Flatten(chunks)|
    decreases n
  {
    if n == 0 {
      assert chunks[..1] == [chunks[0]];
      assert Flatten(chunks[..1]) == chunks[0] + Flatten(chunks[..1][1..]);
    } else {
      FlattenSnoc(chunks[1..], n - 1);
      assert chunks[..n + 1][1..] == chunks[1..][..n] && chunks[..n][1..] == chunks[1..][..n - 1];
    }
  }

  lemma {:induction false} SpecSnoc(f: Elem -> Elem, tweak: nat -> Elem, v: nat, blocks: seq<Elem>, b: Elem)
    ensures Spec(f, tweak, v, blocks + [b]) ==
            Spec(f, tweak, v, blocks) + [Masked(f, tweak(v + |blocks|), b)]
    decreases |blocks|
  {
    if blocks == [] {
      assert [] + [b] == [b];
    } else {
      assert (blocks + [b])[1..] == blocks[1..] + [b];
      SpecSnoc(f, tweak, v + 1, blocks[1..], b);
    }
  }

  /** The tweak and the counter on their way through a message that starts at number v. */
  ghost predicate Tracks(tweak: nat -> Elem, t: Elem, iv: Counter, v: nat, done: nat) {
    && iv.Valid()
    && iv.Number() == (if done == 0 then v else v + done - 1)
    && t == tweak(iv.Number())
  }

  /** The incremental update in front of every block but the first. */
  method Advance(ctx: Context, ghost key2: Elem, t: Elem, iv: Counter) returns (t': Elem, iv': Counter)
    requires ContextFor(ctx, key2) && iv.Valid() && t == Tweak(key2, iv.Number())
    requires iv.Number() + 1 < TWO64 * TWO64
    ensures iv'.Valid() && iv'.Number() == iv.Number() + 1 && t' == Tweak(key2, iv'.Number())
  {
    hide Tweak, Step, NumberBits, Add, TrailingOnes;
    var x := GetIndex128(NumberBits(iv.Number()));
    NextTweak(key2, iv.Number());
    t' := Add(t, ctx.mulinc[x]);
    iv' := Inc(iv);
  }

  lemma NextTweak(key2: Elem, v: nat)
    requires v + 1 < TWO64 * TWO64
    ensures TrailingOnes(NumberBits(v)) < 128
    ensures Add(Tweak(key2, v), Step(key2, TrailingOnes(NumberBits(v)))) == Tweak(key2, v + 1)
  {
    Pow128();
    IndexInBounds(v);
    TweakIncrement(key2, v);
  }

  lemma Pow128()
    ensures Pow2(128) == TWO64 * TWO64
  {
    assert Pow2(4) == 0x10;
    hide Pow2;
    Pow2Sum(4, 4);
    assert Pow2(8) == 0x100;
    Pow2Sum(8, 8);
    assert Pow2(16) == 0x1_0000;
    Pow2Sum(16, 16);
    assert Pow2(32) == 0x1_0000_0000;
    Pow2Sum(32, 32);
    Pow2Sum(64, 64);
  }

  lemma {:induction false} Pow2Sum(m: nat, n: nat)
    ensures Pow2(m + n) == Pow2(m) * Pow2(n)
    decreases n
  {
    if n > 0 {
      Pow2Sum(m, n - 1);
      assert Pow2(m) * (2 * Pow2(n - 1)) == 2 * (Pow2(m) * Pow2(n - 1));
    }
  }

  /** One block of the inner loop, after the blocks done. */
  method CryptBlock(ctx: Context, ghost key2: Elem, f: Elem -> Elem, ghost v: nat, ghost done: seq<Elem>,
                    first: bool, b: Elem, t0: Elem, iv0: Counter)
    returns (dst: Elem, t: Elem, iv: Counter)
    requires ContextFor(ctx, key2) && (first <==> done == [])
    requires Tracks(Tweaks(key2), t0, iv0, v, |done|) && v + |done| < TWO64 * TWO64
    ensures Spec(f, Tweaks(key2), v, done + [b]) == Spec(f, Tweaks(key2), v, done) + [dst]
    ensures Tracks(Tweaks(key2), t, iv, v, |done| + 1)
  {
    t, iv := Position(ctx, key2, v, |done|, first, t0, iv0);
    dst := Round(f, t, b);
    SpecSnoc(f, Tweaks(key2), v, done, b);
  }

  /** The tweak of block n, from the tweak of block n - 1 (or of the first block). */
  method Position(ctx: Context, ghost key2: Elem, ghost v: nat, ghost n: nat, first: bool, t0: Elem, iv0: Counter)
    returns (t: Elem, iv: Counter)
    requires ContextFor(ctx, key2) && (first <==> n == 0)
    requires Tracks(Tweaks(key2), t0, iv0, v, n) && v + n < TWO64 * TWO64
    ensures t == Tweaks(key2)(v + n) && Tracks(Tweaks(key2), t, iv, v, n + 1)
  {
    hide Tweak, ContextFor;
    t, iv := t0, iv0;
    if !first {
      t, iv := Advance(ctx, key2, t, iv);
    }
  }

  /** The inner loop: the blocks of one chunk, after the blocks before have been done. */
  method CryptChunk(ctx: Context, ghost key2: Elem, f: Elem -> Elem, ghost v: nat,
                    ghost before: seq<Elem>, chunk: seq<Elem>, out0: seq<Elem>, t0: Elem, iv0: Counter)
    returns (out: seq<Elem>, t: Elem, iv: Counter)
    requires ContextFor(ctx, key2) && chunk != []
    requires out0 == Spec(f, Tweaks(key2), v, before) && Tracks(Tweaks(key2), t0, iv0, v, |before|)
    requires v + |before| + |chunk| <= TWO64 * TWO64
    ensures out == Spec(f, Tweaks(key2), v, before + chunk)
    ensures Tracks(Tweaks(key2), t, iv, v, |before| + |chunk|)
  {
    hide Spec, Tracks, ContextFor, Tweaks;
    out, t, iv := out0, t0, iv0;
    var i := 0;
    ghost var done := before;
    while i < |chunk|
      invariant 0 <= i <= |chunk| && done == before + chunk[..i]
      invariant out == Spec(f, Tweaks(key2), v, done)
      invariant Tracks(Tweaks(key2), t, iv, v, |done|)
    {
      var dst;
      dst, t, iv := CryptBlock(ctx, key2, f, v, done, |out| == 0, chunk[i], t, iv);
      out := out + [dst];
      done := done + [chunk[i]];
      i := i + 1;
    }
    assert chunk[..i] == chunk;
  }

  /** crypt: whatever chunks the walk delivers, block k of the message is masked with
      (I + k) * Key2. The counter must not be incremented from all ones. */
  method Crypt(ctx: Context, ghost key2: Elem, f: Elem -> Elem, iv0: Counter, chunks: seq<seq<Elem>>)
    returns (out: seq<Elem>, iv: Counter)
    requires ContextFor(ctx, key2) && iv0.Valid()
    requires forall i | 0 <= i < |chunks| :: chunks[i] != []
    requires iv0.Number() + |Flatten(chunks)| <= TWO64 * TWO64
    ensures out == Spec(f, Tweaks(key2), iv0.Number(), Flatten(chunks))
    ensures iv.Valid()
    ensures iv.Number() == if chunks == [] then iv0.Number() else iv0.Number() + |Flatten(chunks)| - 1
  {
    hide NumberBits, Mul, Add;
    out, iv := [], iv0;
    if chunks == [] { return; }
    var t := Mul64k(Bbe, NumberBits(iv.Number()), ctx.table, key2);
    var n := 0;
    ghost var done: seq<Elem> := [];
    while n < |chunks|
      invariant 0 <= n <= |chunks| && done == Flatten(chunks[..n]) && (n > 0 ==> done != [])
      invariant out == Spec(f, Tweaks(key2), iv0.Number(), done)
      invariant Tracks(Tweaks(key2), t, iv, iv0.Number(), |done|)
    {
      FlattenSnoc(chunks, n);
      out, t, iv := CryptChunk(ctx, key2, f, iv0.Number(), done, chunks[n], out, t, iv);
      done := done + chunks[n];
      n := n + 1;
    }
    assert chunks[..n] == chunks;
  }

  lemma UnmaskMasked(e: Elem -> Elem, d: Elem -> Elem, t: Elem, b: Elem)
    requires forall x: Elem :: d(e(x)) == x
    ensures Masked(d, t, Masked(e, t, b)) == b
  {
    var x := e(Add(t, b));
    assert Add(t, Add(x, t)) == x;
    assert Add(Add(t, b), t) == b;
  }

  /** Decryption undoes encryption for any invertible child cipher, whatever the tweaks. */
  lemma {:induction false} DecryptUndoesEncrypt(e: Elem -> Elem, d: Elem -> Elem, tweak: nat -> Elem,
                                                v: nat, blocks: seq<Elem>)
    requires forall x: Elem :: d(e(x)) == x
    ensures Spec(d, tweak, v, Spec(e, tweak, v, blocks)) == blocks
    decreases |blocks|
  {
    if blocks != [] {
      var c := Spec(e, tweak, v, blocks);
      UnmaskMasked(e, d, tweak(v), blocks[0]);
      assert c[1..] == Spec(e, tweak, v + 1, blocks[1..]);
      DecryptUndoesEncrypt(e, d, tweak, v + 1, blocks[1..]);
    }
  }
}
