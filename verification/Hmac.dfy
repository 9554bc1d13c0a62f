/** HMAC, kernel/linux/crypto/hmac.c, against section 2 of RFC 2104. */
module Hmac {
  import opened Collections
  import Bits
  import opened HashSpec
  import opened Hashes
  import opened Digest
  import opened ScatterText

  const IPAD: U8 := 0x36
  const OPAD: U8 := 0x5c

  function XorByte(a: U8, b: U8): U8 {
    var x := Bits.Xor(Bits.Binary(a, 8), Bits.Binary(b, 8));
    Bits.NumberBinary(x);
    Eight();
    Bits.Number(x)
  }

  lemma Eight()
    ensures Pow2(8) == 256
  {
  }

  lemma XorByteLaws(a: U8, b: U8)
    ensures XorByte(XorByte(a, b), b) == a && XorByte(a, b) == XorByte(b, a)
  {
    hide Bits.Binary, Bits.Number;
    var x, y := Bits.Binary(a, 8), Bits.Binary(b, 8);
    assert Bits.Xor(x, y) == Bits.Xor(y, x) && Bits.Xor(Bits.Xor(x, y), y) == x;
    Bits.NumberBinary(Bits.Xor(x, y));
    Eight();
    Bits.BinaryNumber(a, 8);
  }

  function XorAll(s: seq<U8>, b: U8): (r: seq<U8>)
    ensures |r| == |s| && forall i | 0 <= i < |s| :: r[i] == XorByte(s[i], b)
  {
    seq(|s|, i requires 0 <= i < |s| => XorByte(s[i], b))
  }

  // Section 2 of RFC 2104.

  /** Keys longer than a block are hashed first; then zeros are appended up to a block. */
  function BlockKey(alg: Alg, f: Compress, key: seq<U8>): (k: seq<U8>)
    requires |Hash(alg, f, key)| <= BLOCK
    ensures |k| == BLOCK
  {
    var short := if |key| > BLOCK then Hash(alg, f, key) else key;
    short + Zeros(BLOCK - |short|)
  }

  function Mac(alg: Alg, f: Compress, key: seq<U8>, text: seq<U8>): seq<U8>
    requires |Hash(alg, f, key)| <= BLOCK
  {
    var k := BlockKey(alg, f, key);
    Hash(alg, f, XorAll(k, 0x5c) + Hash(alg, f, XorAll(k, 0x36) + text))
  }

  // Digest sizes.

  /** The compression function keeps the number of words. */
  ghost predicate KeepsSize(f: Compress, n: nat) {
    forall h: State, b: seq<U8> | |h| == n && |b| == BLOCK :: |f(h, b)| == n
  }

  lemma {:induction false} FoldSize(f: Compress, h: State, m: seq<U8>)
    requires KeepsSize(f, |h|)
    ensures |Fold(f, h, m)| == |h|
    decreases |m|
  {
    if |m| >= BLOCK { FoldSize(f, f(h, m[..BLOCK]), m[BLOCK..]); }
  }

  function DigestSize(alg: Alg): (n: nat)
    ensures n <= BLOCK
  {
    match alg
    case MD5 => 16
    case SHA1 => 20
    case SHA256 => 32
  }

  lemma HashSize(alg: Alg, f: Compress, m: seq<U8>)
    requires KeepsSize(f, |Start(alg)|)
    ensures |Hash(alg, f, m)| == DigestSize(alg)
  {
    hide Fold, OutLe, OutBe, Padded;
    FoldSize(f, Start(alg), Padded(m, if alg == MD5 then LengthLe(|m|) else LengthBe(|m|)));
    assert |Start(alg)| * 4 == DigestSize(alg);
  }

  /** The context of an HMAC transform: the two pads, the digest behind the outer one, and the
      child hash. place is where the pads lie in their page. */
  class HmacTfm {
    const child: HashTfm
    const place: nat
    var ipad: seq<U8>
    var opad: seq<U8>
    var digest: seq<U8>
    ghost var key: seq<U8>

    ghost predicate Ready()
      reads this, child, child.md5, child.sha1, child.sha256
    {
      && child.Idle() && place < PAGE_SIZE && KeepsSize(child.f, |Start(child.alg)|)
    }

    /** The pads are those of the key. */
    ghost predicate Keyed()
      reads this
    {
      && |Hash(child.alg, child.f, key)| <= BLOCK
      && ipad == XorAll(BlockKey(child.alg, child.f, key), IPAD)
      && opad == XorAll(BlockKey(child.alg, child.f, key), OPAD)
    }

    constructor (child: HashTfm, place: nat)
      requires place < PAGE_SIZE
      ensures this.child == child && this.place == place
    {
      this.child, this.place := child, place;
      ipad, opad, digest, key := [], [], [], [];
    }

    /** hmac_setkey */
    method SetKey(inkey: seq<U8>, offset: nat)
      requires Ready() && offset < PAGE_SIZE
      modifies this, child.md5, child.sha1, child.sha256
      ensures Ready() && Keyed() && key == inkey
    {
      hide Hash, XorByte;
      var k := inkey;
      HashSize(child.alg, child.f, inkey);
      if |inkey| > BLOCK {
        OneEntry(offset, inkey);
        digest := child.Digest([Entry(offset, inkey)], |inkey|);
        k := digest;
      }
      ipad := k + Zeros(BLOCK - |k|);
      opad := ipad;
      ghost var block := ipad;
      var i := 0;
      while i < BLOCK
        invariant i <= BLOCK && |ipad| == BLOCK && |opad| == BLOCK
        invariant forall j | 0 <= j < i :: ipad[j] == XorByte(block[j], IPAD) && opad[j] == XorByte(block[j], OPAD)
        invariant forall j | i <= j < BLOCK :: ipad[j] == block[j] && opad[j] == block[j]
        modifies this`ipad, this`opad
      {
        ipad := ipad[i := XorByte(ipad[i], IPAD)];
        opad := opad[i := XorByte(opad[i], OPAD)];
        i := i + 1;
      }
      key := inkey;
      assert block == BlockKey(child.alg, child.f, key);
    }

    /** hmac_init */
    method Init()
      requires Ready() && Keyed()
      modifies child.md5, child.sha1, child.sha256
      ensures Ready() && Keyed() && child.Has(ipad)
    {
      hide Hash, BlockKey, XorAll;
      OneEntry(place, ipad);
      child.Init();
      child.Update2([Entry(place, ipad)], |ipad|, []);
      assert [] + ipad == ipad;
    }

    /** hmac_update */
    method Update(sg: seq<Entry<U8>>, nbytes: nat, ghost text: seq<U8>)
      requires Ready() && Keyed() && child.Has(ipad + text)
      requires nbytes <= |Flat(sg)| && forall k | 0 <= k < |sg| :: sg[k].offset < PAGE_SIZE
      modifies child.md5, child.sha1, child.sha256
      ensures Ready() && Keyed() && child.Has(ipad + (text + Flat(sg)[..nbytes]))
    {
      hide Hash, BlockKey, XorAll, Flat;
      child.Update2(sg, nbytes, ipad + text);
      assert ipad + text + Flat(sg)[..nbytes] == ipad + (text + Flat(sg)[..nbytes]);
    }

    /** hmac_final */
    method Final(ghost text: seq<U8>) returns (out: seq<U8>)
      requires Ready() && Keyed() && child.Has(ipad + text)
      modifies this`digest, child.md5, child.sha1, child.sha256
      ensures Ready() && Keyed() && out == Mac(child.alg, child.f, key, text)
    {
      hide Hash, BlockKey, XorAll;
      digest := child.Final(ipad + text);
      OneEntry(place, opad + digest);
      out := child.Digest([Entry(place, opad + digest)], |opad + digest|);
    }

    /** hmac_digest: the same in one go, with the inner pad chained in front of the message */
    method Digest(sg: seq<Entry<U8>>, nbytes: nat) returns (out: seq<U8>)
      requires Ready() && Keyed()
      requires nbytes <= |Flat(sg)| && forall k | 0 <= k < |sg| :: sg[k].offset < PAGE_SIZE
      modifies this`digest, child.md5, child.sha1, child.sha256
      ensures Ready() && Keyed() && out == Mac(child.alg, child.f, key, Flat(sg)[..nbytes])
    {
      hide Hash, BlockKey, XorAll;
      var sg1 := [Entry(place, ipad)] + sg;
      assert sg1[1..] == sg && Flat(sg1) == ipad + Flat(sg);
      assert Flat(sg1)[..nbytes + BLOCK] == ipad + Flat(sg)[..nbytes];
      digest := child.Digest(sg1, nbytes + BLOCK);
      OneEntry(place, opad + digest);
      out := child.Digest([Entry(place, opad + digest)], |opad + digest|);
    }
  }

  lemma OneEntry(offset: nat, data: seq<U8>)
    ensures Flat([Entry(offset, data)]) == data && data[..|data|] == data
  {
    assert [Entry(offset, data)][1..] == [];
  }
}
