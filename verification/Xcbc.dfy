/** The XCBC message authentication code: kernel/linux/crypto/xcbc.c against section 4 of
    RFC 3566, for any cut of the message into calls, scatter-list entries and pages. */
module Xcbc {
  import opened Collections
  import Bits
  import opened CbcSpec
  import ScatterWalk
  import opened ScatterText

  const BS: nat := 16
  const PAGE_SIZE: nat := ScatterWalk.PAGE_SIZE
  const U32: nat := 0x1_0000_0000

  /** Key and block in, block out. */
  type BlockCipher = (seq<Byte>, seq<Byte>) -> seq<Byte>

  ghost predicate IsCipher(e: BlockCipher) {
    forall k: seq<Byte>, x: seq<Byte> | |k| == BS && |x| == BS :: |e(k, x)| == BS
  }

  function Repeat(b: Byte, n: nat): (s: seq<Byte>)
    ensures |s| == n && forall i | 0 <= i < n :: s[i] == b
  {
    seq(n, _ => b)
  }

  function Zero(): Byte {
    Bits.Zeros(8)
  }

  /** The bytes 0x01, 0x02, 0x03 and 0x80 */
  function Small(hi: bool, lo: bool): Byte {
    Bits.Zeros(6) + [hi, lo]
  }

  function Top(): Byte {
    [true] + Bits.Zeros(7)
  }

  // Section 4 of RFC 3566.

  ghost function Key1(e: BlockCipher, key: seq<Byte>): seq<Byte> {
    e(key, Repeat(Bits.Binary(0x01, 8), BS))
  }

  ghost function Key2(e: BlockCipher, key: seq<Byte>): seq<Byte> {
    e(key, Repeat(Bits.Binary(0x02, 8), BS))
  }

  ghost function Key3(e: BlockCipher, key: seq<Byte>): seq<Byte> {
    e(key, Repeat(Bits.Binary(0x03, 8), BS))
  }

  /** The source's byte constants are those of the RFC. */
  lemma ConstantBytes()
    ensures Small(false, true) == Bits.Binary(0x01, 8) && Small(true, false) == Bits.Binary(0x02, 8)
    ensures Small(true, true) == Bits.Binary(0x03, 8) && Top() == Bits.Binary(0x80, 8) && Zero() == Bits.Binary(0, 8)
  {
    Bits.ZeroBits(8);
    Bits.ZeroBits(6);
    Bits.ZeroBits(7);
    Bits.TopBits(7);
    hide Bits.Zeros;
    assert Bits.Binary(1, 7) == Bits.Binary(0, 6) + [true];
    assert Pow2(7) == 0x80;
  }

  /** The chaining value over all blocks but the last, from e0 on. */
  ghost function Chained(e: BlockCipher, k1: seq<Byte>, e0: seq<Byte>, m: seq<Byte>): (c: seq<Byte>)
    requires IsCipher(e) && |k1| == BS && |e0| == BS
    ensures |c| == BS
    decreases |m|
  {
    if |m| <= BS then e0 else Chained(e, k1, e(k1, Xor(e0, m[..BS])), m[BS..])
  }

  /** The last block: complete, partial, or empty if the message is. */
  function Last(m: seq<Byte>): (r: seq<Byte>)
    ensures |r| <= BS && (m != [] ==> |r| >= 1)
    decreases |m|
  {
    if |m| <= BS then m else Last(m[BS..])
  }

  /** A single 1 bit, then 0 bits up to the block size. */
  function Pad(r: seq<Byte>): (p: seq<Byte>)
    requires |r| < BS
    ensures |p| == BS
  {
    r + [Bits.Binary(0x80, 8)] + Repeat(Bits.Binary(0, 8), BS - |r| - 1)
  }

  ghost function Mac(e: BlockCipher, key: seq<Byte>, m: seq<Byte>): seq<Byte>
    requires IsCipher(e) && |key| == BS
  {
    var k1 := Key1(e, key);
    var c, r := Chained(e, k1, Repeat(Zero(), BS), m), Last(m);
    if |r| == BS then e(k1, Xor(Xor(c, r), Key2(e, key)))
    else e(k1, Xor(Xor(c, Pad(r)), Key3(e, key)))
  }

  /** More text can be taken in after the last block so far, without the rest. */
  lemma {:induction false} MoreText(e: BlockCipher, k1: seq<Byte>, e0: seq<Byte>, m: seq<Byte>, t: seq<Byte>)
    requires IsCipher(e) && |k1| == BS && |e0| == BS
    ensures Chained(e, k1, e0, m + t) == Chained(e, k1, Chained(e, k1, e0, m), Last(m) + t)
    ensures Last(m + t) == Last(Last(m) + t)
    decreases |m|
  {
    if |m| > BS {
      MoreText(e, k1, e(k1, Xor(e0, m[..BS])), m[BS..], t);
      assert (m + t)[..BS] == m[..BS] && (m + t)[BS..] == m[BS..] + t;
    }
  }

  /** nbytes - total as an unsigned int */
  function Left(nbytes: nat, total: nat): (n: nat)
    ensures n < U32
  {
    (nbytes - total) % U32
  }

  /** The count comes out at zero exactly at a total that agrees with it. */
  lemma ZeroLeft(nbytes: nat, total: nat)
    requires nbytes < U32
    ensures Left(nbytes, total) == 0 <==> total % U32 == nbytes
  {
  }

  lemma NextLeft(nbytes: nat, total: nat, len: nat)
    ensures Left(nbytes, 0) == nbytes % U32
    ensures Left(nbytes, total + len) == (Left(nbytes, total) - len) % U32
  {
  }

  datatype Error = OK | EINVAL

  /** struct crypto_xcbc_ctx */
  class XcbcCtx {
    const enc: BlockCipher
    var child: seq<Byte>          // the key the child cipher holds
    var key: seq<Byte>
    var odds: seq<Byte>
    var prev: seq<Byte>
    var len: nat
    ghost var text: seq<Byte>     // the message so far

    /** Between calls the child cipher is keyed with K1. */
    ghost predicate Keyed()
      reads this
    {
      IsCipher(enc) && |key| == BS && child == Key1(enc, key) && |odds| == BS && |prev| == BS
    }

    /** The last block so far is held back in odds, all before it is chained into prev. */
    ghost predicate Absorbing()
      reads this
    {
      && Keyed() && len == |Last(text)| && odds[..len] == Last(text)
      && prev == Chained(enc, child, Repeat(Zero(), BS), text)
    }

    constructor (enc: BlockCipher)
      requires IsCipher(enc)
      ensures this.enc == enc && |odds| == BS && |prev| == BS
    {
      this.enc := enc;
      child, key, odds, prev, len, text := [], [], Repeat(Zero(), BS), Repeat(Zero(), BS), 0, [];
    }

    /** _crypto_xcbc_digest_setkey */
    method Rekey()
      requires IsCipher(enc) && |key| == BS && |odds| == BS && |prev| == BS
      modifies this`child
      ensures Keyed()
    {
      ConstantBytes();
      child := key;
      var key1 := enc(child, Repeat(Small(false, true), BS));
      child := key1;
    }

    /** crypto_xcbc_digest_setkey */
    method SetKey(inkey: seq<Byte>) returns (err: Error)
      requires IsCipher(enc) && |odds| == BS && |prev| == BS
      modifies this`child, this`key
      ensures err == if |inkey| == BS then OK else EINVAL
      ensures err == OK ==> Keyed() && key == inkey
      ensures err == EINVAL ==> unchanged(this)
    {
      if |inkey| != BS {
        return EINVAL;
      }
      key := inkey;
      Rekey();
      err := OK;
    }

    /** crypto_xcbc_digest_init */
    method Init()
      requires Keyed()
      modifies this`len, this`odds, this`prev, this`text
      ensures Absorbing() && text == []
    {
      len, odds, prev, text := 0, Repeat(Zero(), BS), Repeat(Zero(), BS), [];
    }

    /** The middle of crypto_xcbc_digest_update2: a piece that does not fit into odds. */
    method Absorb(p0: seq<Byte>)
      requires Absorbing() && len + |p0| > BS
      modifies this`odds, this`prev, this`len, this`text
      ensures Absorbing() && text == old(text) + p0
    {
      ghost var zero := Repeat(Zero(), BS);
      MoreText(enc, child, zero, text, p0);
      var p, fill := p0, BS - len;
      ghost var rest := Last(text) + p0;
      ghost var start := prev;
      odds := ScatterWalk.Put(odds, len, p[..fill]);
      p := p[fill..];
      assert odds == rest[..BS] && p == rest[BS..];
      prev := enc(child, Xor(prev, odds));
      len := 0;
      while |p| > BS
        invariant |p| >= 1 && |prev| == BS
        invariant Chained(enc, child, start, rest) == Chained(enc, child, prev, p) && Last(rest) == Last(p)
        modifies this`prev
        decreases |p|
      {
        prev := enc(child, Xor(prev, p[..BS]));
        p := p[BS..];
      }
      odds := ScatterWalk.Put(odds, 0, p);
      len := |p|;
      text := text + p0;
      assert odds[..len] == p;
    }

    /** The start of crypto_xcbc_digest_update2: a piece that fits. */
    method Collect(p: seq<Byte>)
      requires Absorbing() && len + |p| <= BS
      modifies this`odds, this`len, this`text
      ensures Absorbing() && text == old(text) + p
    {
      MoreText(enc, child, Repeat(Zero(), BS), text, p);
      odds := ScatterWalk.Put(odds, len, p);
      len := len + |p|;
      text := text + p;
      assert odds[..len] == Last(old(text)) + p;
    }

    /** crypto_xcbc_digest_update2, for one entry: page by page */
    method UpdateEntry(sg: Entry<Byte>)
      requires Absorbing() && sg.offset < PAGE_SIZE
      modifies this`odds, this`prev, this`len, this`text
      ensures Absorbing() && text == old(text) + sg.data
    {
      hide XcbcCtx.Absorbing;
      var at, offset, slen := 0, sg.offset, |sg.data|;
      while slen > 0
        invariant Absorbing() && 0 <= at <= at + slen == |sg.data| && offset < PAGE_SIZE
        invariant text == old(text) + sg.data[..at]
      {
        var n := if slen < PAGE_SIZE - offset then slen else PAGE_SIZE - offset;
        var p := sg.data[at..at + n];
        assert sg.data[..at + n] == sg.data[..at] + p;
        if len + n <= BS {
          Collect(p);
          offset := if n + offset >= PAGE_SIZE then 0 else offset + n;
        } else {
          Absorb(p);
          offset := 0;
        }
        at, slen := at + n, slen - n;
      }
      assert sg.data[..at] == sg.data;
    }

    /** crypto_xcbc_digest_update2: whole entries until the unsigned count comes out at zero; at
        least one is looked at. */
    method Update(sg: seq<Entry<Byte>>, nbytes: nat) returns (i: nat)
      requires Absorbing() && nbytes < U32
      requires forall k | 0 <= k < |sg| :: sg[k].offset < PAGE_SIZE && |sg[k].data| < U32
      requires exists k | 1 <= k <= |sg| :: |Flat(sg[..k])| % U32 == nbytes
      modifies this`odds, this`prev, this`len, this`text
      ensures 1 <= i <= |sg| && |Flat(sg[..i])| % U32 == nbytes
      ensures forall j | 1 <= j < i :: |Flat(sg[..j])| % U32 != nbytes
      ensures Absorbing() && text == old(text) + Flat(sg[..i])
    {
      hide XcbcCtx.Absorbing, Left, Flat;
      ghost var k :| 1 <= k <= |sg| && |Flat(sg[..k])| % U32 == nbytes;
      FlatUpTo(sg, 0);
      FlatNothing(sg);
      NextLeft(nbytes, 0, |sg[0].data|);
      UpdateEntry(sg[0]);
      var left: nat := (nbytes - |sg[0].data|) % U32;
      i := 1;
      while left > 0
        invariant 1 <= i <= k && Absorbing() && text == old(text) + Flat(sg[..i])
        invariant left == Left(nbytes, |Flat(sg[..i])|)
        invariant forall j | 1 <= j < i :: |Flat(sg[..j])| % U32 != nbytes
        decreases k - i
      {
        ZeroLeft(nbytes, |Flat(sg[..i])|);
        FlatUpTo(sg, i);
        NextLeft(nbytes, |Flat(sg[..i])|, |sg[i].data|);
        UpdateEntry(sg[i]);
        left := (left - |sg[i].data|) % U32;
        i := i + 1;
      }
      ZeroLeft(nbytes, |Flat(sg[..i])|);
    }

    /** crypto_xcbc_digest_final */
    method Final() returns (out: seq<Byte>)
      requires Absorbing()
      modifies this`child, this`odds, this`prev
      ensures Keyed() && out == Mac(enc, key, text)
    {
      hide Bits.Binary, Small, Top, Zero;
      ConstantBytes();
      if len == BS {
        child := key;
        var key2 := enc(child, Repeat(Small(true, false), BS));
        assert odds == Last(text);
        prev := Xor(prev, odds);
        prev := Xor(prev, key2);
      } else {
        odds := odds[..len] + [Top()] + Repeat(Zero(), BS - len - 1);
        assert odds == Pad(Last(text));
        child := key;
        var key3 := enc(child, Repeat(Small(true, true), BS));
        prev := Xor(prev, odds);
        prev := Xor(prev, key3);
      }
      Rekey();
      out := enc(child, prev);
    }

    /** crypto_xcbc_digest */
    method Digest(sg: seq<Entry<Byte>>, nbytes: nat) returns (out: seq<Byte>, ghost i: nat)
      requires Keyed() && nbytes < U32
      requires forall k | 0 <= k < |sg| :: sg[k].offset < PAGE_SIZE && |sg[k].data| < U32
      requires exists k | 1 <= k <= |sg| :: |Flat(sg[..k])| % U32 == nbytes
      modifies this
      ensures 1 <= i <= |sg| && |Flat(sg[..i])| % U32 == nbytes
      ensures forall j | 1 <= j < i :: |Flat(sg[..j])| % U32 != nbytes
      ensures Keyed() && out == Mac(enc, key, Flat(sg[..i]))
      ensures key == old(key)
    {
      Init();
      i := Update(sg, nbytes);
      assert [] + Flat(sg[..i]) == Flat(sg[..i]);
      out := Final();
    }
  }
}
