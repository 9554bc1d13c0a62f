/** The hash front end, kernel/linux/crypto/digest.c: any cut of a message into calls, entries,
    pages and alignment fix-ups hashes like the message in one piece. */
module Digest {
  import opened HashSpec
  import opened Hashes
  import ScatterWalk
  import opened ScatterText

  const PAGE_SIZE: nat := ScatterWalk.PAGE_SIZE

  datatype Alg = MD5 | SHA1 | SHA256

  function Start(alg: Alg): State {
    match alg
    case MD5 => Md5Ctx.IV
    case SHA1 => Sha1Ctx.IV
    case SHA256 => Sha256Ctx.IV
  }

  /** The digest, as the standards have it */
  function Hash(alg: Alg, f: Compress, m: seq<U8>): seq<U8> {
    match alg
    case MD5 => OutLe(Md5(f, Start(alg), m))
    case SHA1 => OutBe(Sha(f, Start(alg), m))
    case SHA256 => OutBe(Sha(f, Start(alg), m))
  }

  /** A hash transform with the context of its algorithm */
  class HashTfm {
    const alg: Alg
    const f: Compress
    const align: nat            // the alignment mask plus one
    const md5: Md5Ctx
    const sha1: Sha1Ctx
    const sha256: Sha256Ctx

    ghost predicate Idle()
      reads this, md5, sha1, sha256
    {
      && md5.f == f && sha1.f == f && sha256.f == f && align > 0
      && |md5.block| == BLOCK && |sha256.buf| == BLOCK
    }

    /** The context has taken in the text. */
    ghost predicate Has(text: seq<U8>)
      reads this, md5, sha1, sha256
    {
      && Idle()
      && match alg
         case MD5 => md5.Valid() && md5.text == text
         case SHA1 => sha1.Valid() && sha1.text == text
         case SHA256 => sha256.Valid() && sha256.text == text
    }

    constructor (alg: Alg, f: Compress, align: nat)
      requires align > 0
      ensures Idle() && this.alg == alg && this.f == f && fresh(md5) && fresh(sha1) && fresh(sha256)
    {
      this.alg, this.f, this.align := alg, f, align;
      md5 := new Md5Ctx(f);
      sha1 := new Sha1Ctx(f);
      sha256 := new Sha256Ctx(f);
    }

    /** init */
    method Init()
      requires Idle()
      modifies md5, sha1, sha256
      ensures Has([])
    {
      match alg {
        case MD5 => md5.Init();
        case SHA1 => sha1.Init();
        case SHA256 => sha256.Init();
      }
    }

    /** dia_update */
    method DiaUpdate(data: seq<U8>, ghost text: seq<U8>)
      requires Has(text) && |data| <= PAGE_SIZE
      modifies md5, sha1, sha256
      ensures Has(text + data)
    {
      match alg {
        case MD5 => md5.Update(data);
        case SHA1 => sha1.Update(data);
        case SHA256 => sha256.Update(data);
      }
    }

    /** final */
    method Final(ghost text: seq<U8>) returns (out: seq<U8>)
      requires Has(text)
      modifies md5, sha1, sha256
      ensures Idle() && out == Hash(alg, f, text)
    {
      match alg {
        case MD5 => out := md5.Final();
        case SHA1 => out := sha1.Final();
        case SHA256 => out := sha256.Final();
      }
    }

    /** The inner loop of update2: one entry, page by page, the start of a page that is not
        aligned on its own */
    method UpdateEntry(data: seq<U8>, offset0: nat, ghost text: seq<U8>)
      requires Has(text) && offset0 < PAGE_SIZE
      modifies md5, sha1, sha256
      ensures Has(text + data)
    {
      hide HashTfm.Has;
      var at: nat, offset, again := 0, offset0, true;
      assert text + data[..0] == text;
      while again
        invariant at <= |data| && 0 <= offset < PAGE_SIZE && Has(text + data[..at])
        invariant again == (at < |data| || (at == 0 && |data| == 0 && again))
        decreases |data| - at, again
      {
        var n := if |data| - at < PAGE_SIZE - offset then |data| - at else PAGE_SIZE - offset;
        if align > 0 && offset % align != 0 {
          var bytes := if align - offset % align < n then align - offset % align else n;
          Extend(text, data, at, bytes);
          DiaUpdate(data[at..at + bytes], text + data[..at]);
          at, n := at + bytes, n - bytes;
        }
        Extend(text, data, at, n);
        DiaUpdate(data[at..at + n], text + data[..at]);
        at, offset := at + n, 0;
        again := at < |data|;
      }
      assert data[..at] == data;
    }

    /** update2: entries until nbytes are taken in */
    method Update2(sg: seq<Entry<U8>>, nbytes: nat, ghost text: seq<U8>)
      requires Has(text) && nbytes <= |Flat(sg)| && forall k | 0 <= k < |sg| :: sg[k].offset < PAGE_SIZE
      modifies md5, sha1, sha256
      ensures Has(text + Flat(sg)[..nbytes])
    {
      hide HashTfm.Has;
      if nbytes == 0 {
        assert text + Flat(sg)[..0] == text;
        return;
      }
      var left: nat, i := nbytes, 0;
      ghost var done: nat := 0;
      assert sg[0..] == sg && Flat(sg)[0..] == Flat(sg) && text + Flat(sg)[..0] == text;
      while true
        invariant 0 <= i <= |sg| && left > 0 && done + left == nbytes
        invariant Flat(sg)[done..] == Flat(sg[i..]) && Has(text + Flat(sg)[..done])
        decreases |sg| - i
      {
        var l := if |sg[i].data| > left then left else |sg[i].data|;
        var data := sg[i].data[..l];
        NextEntry(Flat(sg), done, sg, i, l);
        Extend(text, Flat(sg), done, l);
        left := left - l;
        UpdateEntry(data, sg[i].offset, text + Flat(sg)[..done]);
        done := done + l;
        if left == 0 {
          break;
        }
        i := i + 1;
      }
    }

    /** digest */
    method Digest(sg: seq<Entry<U8>>, nbytes: nat) returns (out: seq<U8>)
      requires Idle() && nbytes <= |Flat(sg)| && forall k | 0 <= k < |sg| :: sg[k].offset < PAGE_SIZE
      modifies md5, sha1, sha256
      ensures Idle() && out == Hash(alg, f, Flat(sg)[..nbytes])
    {
      Init();
      Update2(sg, nbytes, []);
      assert [] + Flat(sg)[..nbytes] == Flat(sg)[..nbytes];
      out := Final(Flat(sg)[..nbytes]);
    }
  }

  lemma Extend(text: seq<U8>, data: seq<U8>, at: nat, n: nat)
    requires at + n <= |data|
    ensures text + data[..at] + data[at..at + n] == text + data[..at + n]
  {
  }
}
