/**
  The cbc and ctr templates: the walk loop around the per-segment loops computes the flat mode,
  for every cut of the lists, every alignment and in place or not.
*/
module Modes {
  import opened ModeSpec
  import opened ModeBlocks
  import opened ModeWalk

  /** The walk as blkcipher_walk_init leaves it, for a mode whose chaining value is one block. */
  ghost predicate Fresh(c: Cipher, w: Walk)
    reads w
  {
    && Ok(c) && w.Separate() && ListsOk(w.l, w.mem.Length, w.page.Length)
    && w.p.total == |w.l.src| && w.p.inPos == w.p.outPos == 0 && !w.ivCopied
    && w.blocksize == c.bsize == w.info.Length
  }

  /** Where the loop stands: at a buffer, or at the end with the chaining value handed back. */
  ghost predicate Standing(w: Walk, m0: seq<Byte>, done: seq<Byte>, v: seq<Byte>, err: int)
    reads w, w.mem, w.page, w.buffer, w.info, w.ivCopy
  {
    && |v| == w.info.Length == w.blocksize && |done| <= |w.l.src| && Holds(w.Iv(), 0, v)
    && if w.p.nbytes > 0
       then err == 0 && w.Ready(m0, done) && w.p.total >= w.algBlock
       else && WrittenTo(w.mem[..], m0, w.l.dst, done) && Holds(w.info, 0, v)
            && var rest := |w.l.src| - |done|;
               if rest == 0 then err == 0 else rest < w.algBlock && err == -EINVAL
  }

  // ---------------------------------------------------------------------------
  // CBC encryption
  // ---------------------------------------------------------------------------

  /** A segment of `n` bytes takes the state on by its whole blocks. */
  lemma {:induction false} EncChunk(c: Cipher, v: seq<Byte>, p: seq<Byte>, w: seq<Byte>, out: seq<Byte>,
                                    rest: seq<Byte>, n: nat)
    requires Ok(c) && |v| == |w| == c.bsize && EncState(c, v, p, w, out, rest) && n <= |rest|
    ensures var x := rest[..n]; var m := n - Left(c.bsize, n);
      EncState(c, v, p, CbcEncIv(c, w, x), out + CbcEnc(c, w, x), rest[m..])
  {
    hide Ok, Enc, Xor, CbcEnc, CbcEncIv;
    var b := c.bsize;
    var x, m := rest[..n], n - Left(b, n);
    WholeBlocks(b, n);
    EncWhole(c, w, x);
    assert x[..m] == rest[..m];
    CbcEncSplit(c, w, rest, m);
    LeftMinus(b, |rest|, m);
    var y, z := CbcEnc(c, w, x), CbcEnc(c, CbcEncIv(c, w, x), rest[m..]);
    assert out + (y + z) == out + y + z;
  }

  ghost predicate InRange(src: seq<nat>, m0: seq<Byte>) {
    forall i :: 0 <= i < |src| ==> src[i] < |m0|
  }

  lemma {:induction false} ListsGather(l: Lists, m0: seq<Byte>, pageSize: nat)
    requires ListsOk(l, |m0|, pageSize)
    ensures InRange(l.src, m0) && WrittenTo(m0, m0, l.dst, [])
  {
  }

  /** One buffer through the mode. */
  method CbcEncryptBuffer(c: Cipher, w: Walk, ghost m0: seq<Byte>, ghost done: seq<Byte>, ghost x: seq<Byte>,
                          ghost v: seq<Byte>)
    returns (left: nat)
    requires Ok(c) && w.Ready(m0, done) && c.bsize == w.blocksize == w.info.Length == |v| && w.p.nbytes >= c.bsize
    requires x == Gather(m0, w.l.src)[|done|..|done| + w.p.nbytes] && Holds(w.Iv(), 0, v)
    modifies w.mem, w.page, w.buffer, w.info, w.ivCopy
    ensures left == Left(c.bsize, |x|) && w.Cooked(m0, done, CbcEnc(c, v, x), left)
    ensures Holds(w.Iv(), 0, CbcEncIv(c, v, x))
  {
    hide Ok, Enc, Xor, CbcEnc, CbcEncIv, WrittenTo, ListsOk, Gather;
    var buf, iv, n := w.Buf(), w.Iv(), w.p.nbytes;
    if w.p.so == w.p.dOff {
      left := CbcEncryptInPlace(c, buf, w.p.so, n, iv, x, v);
    } else {
      left := CbcEncryptSegment(c, buf, w.p.so, buf, w.p.dOff, n, iv, x, v);
    }
  }

  method CbcEncryptStep(c: Cipher, w: Walk, ghost m0: seq<Byte>, ghost v0: seq<Byte>, ghost p: seq<Byte>,
                        ghost done: seq<Byte>, ghost v: seq<Byte>)
    returns (err: int, ghost done': seq<Byte>, ghost v': seq<Byte>)
    requires Ok(c) && |v0| == |v| == c.bsize == w.algBlock && ListsOk(w.l, |m0|, w.page.Length)
    requires InRange(w.l.src, m0) && p == Gather(m0, w.l.src)
    requires w.p.nbytes > 0 && Standing(w, m0, done, v, 0) && EncState(c, v0, p, v, done, p[|done|..])
    modifies w`p, w`snap, w.mem, w.page, w.buffer, w.info, w.ivCopy
    ensures |done| < |done'| <= |p| && |v'| == c.bsize
    ensures EncState(c, v0, p, v', done', p[|done'|..]) && Standing(w, m0, done', v', err)
  {
    hide Ok, Enc, Xor, CbcEnc, CbcEncIv, EncState, WrittenTo, ListsOk, Gather, Holds, Left;
    var n := w.p.nbytes;
    ghost var rest := p[|done|..];
    ghost var x := rest[..n];
    assert x == p[|done|..|done| + n];
    EncChunk(c, v0, p, v, done, rest, n);
    ghost var out := CbcEnc(c, v, x);
    var left := CbcEncryptBuffer(c, w, m0, done, x, v);
    done', v' := done + out, CbcEncIv(c, v, x);
    assert rest[n - left..] == p[|done'|..];
    WholeBlocks(c.bsize, n);
    err := w.Done(left, m0, done, out, v');
  }

  /** crypto_cbc_encrypt. */
  method CbcEncrypt(c: Cipher, w: Walk) returns (err: int)
    requires Fresh(c, w) && w.algBlock == c.bsize
    modifies w, w.mem, w.page, w.buffer, w.info, w.ivCopy
    ensures InRange(w.l.src, old(w.mem[..]))
    ensures var p, v := Gather(old(w.mem[..]), w.l.src), old(w.info[..]);
      && WrittenTo(w.mem[..], old(w.mem[..]), w.l.dst, CbcEnc(c, v, p))
      && w.info[..] == CbcEncIv(c, v, p)
      && err == if |p| % c.bsize == 0 then 0 else -EINVAL
  {
    hide Ok, Enc, Xor, CbcEnc, CbcEncIv, EncState, WrittenTo, ListsOk, Gather, Left;
    ghost var m0, v0 := w.mem[..], w.info[..];
    ListsGather(w.l, m0, w.page.Length);
    ghost var p := Gather(m0, w.l.src);
    ghost var done, v := [], v0;
    EncStart(c, v0, p);
    err := w.First(m0, v0);
    assert p[0..] == p;
    while w.p.nbytes > 0
      invariant |v| == c.bsize && |done| <= |p| && EncState(c, v0, p, v, done, p[|done|..])
      invariant Standing(w, m0, done, v, err)
      decreases |p| - |done|
    {
      err, done, v := CbcEncryptStep(c, w, m0, v0, p, done, v);
    }
    EncAdvance(c, v0, p, v, done, p[|done|..]);
    LeftIsRemainder(c.bsize, |p|);
    assert w.info[..] == v;
  }

  // ---------------------------------------------------------------------------
  // CBC decryption
  // ---------------------------------------------------------------------------

  lemma {:induction false} DecChunk(c: Cipher, v: seq<Byte>, p: seq<Byte>, w: seq<Byte>, out: seq<Byte>,
                                    rest: seq<Byte>, n: nat)
    requires Ok(c) && |v| == |w| == c.bsize && DecState(c, v, p, w, out, rest) && n <= |rest|
    ensures var x := rest[..n]; var m := n - Left(c.bsize, n);
      DecState(c, v, p, CbcDecIv(c, w, x), out + CbcDec(c, w, x), rest[m..])
  {
    hide Ok, Dec, Xor, CbcDec, CbcDecIv;
    var b := c.bsize;
    var x, m := rest[..n], n - Left(b, n);
    WholeBlocks(b, n);
    DecWhole(c, w, x);
    assert x[..m] == rest[..m];
    CbcDecSplit(c, w, rest, m);
    LeftMinus(b, |rest|, m);
    var y, z := CbcDec(c, w, x), CbcDec(c, CbcDecIv(c, w, x), rest[m..]);
    assert out + (y + z) == out + y + z;
  }

  method CbcDecryptBuffer(c: Cipher, w: Walk, ghost m0: seq<Byte>, ghost done: seq<Byte>, ghost x: seq<Byte>,
                          ghost v: seq<Byte>)
    returns (left: nat)
    requires Ok(c) && w.Ready(m0, done) && c.bsize == w.blocksize == w.info.Length == |v| && w.p.nbytes >= c.bsize
    requires x == Gather(m0, w.l.src)[|done|..|done| + w.p.nbytes] && Holds(w.Iv(), 0, v)
    modifies w.mem, w.page, w.buffer, w.info, w.ivCopy
    ensures left == Left(c.bsize, |x|) && w.Cooked(m0, done, CbcDec(c, v, x), left)
    ensures Holds(w.Iv(), 0, CbcDecIv(c, v, x))
  {
    hide Ok, Dec, Xor, CbcDec, CbcDecIv, WrittenTo, ListsOk, Gather;
    var buf, iv, n := w.Buf(), w.Iv(), w.p.nbytes;
    if w.p.so == w.p.dOff {
      left := CbcDecryptInPlace(c, buf, w.p.so, n, iv, x, v);
    } else {
      left := CbcDecryptSegment(c, buf, w.p.so, buf, w.p.dOff, n, iv, x, v);
    }
  }

  method CbcDecryptStep(c: Cipher, w: Walk, ghost m0: seq<Byte>, ghost v0: seq<Byte>, ghost p: seq<Byte>,
                        ghost done: seq<Byte>, ghost v: seq<Byte>)
    returns (err: int, ghost done': seq<Byte>, ghost v': seq<Byte>)
    requires Ok(c) && |v0| == |v| == c.bsize == w.algBlock && ListsOk(w.l, |m0|, w.page.Length)
    requires InRange(w.l.src, m0) && p == Gather(m0, w.l.src)
    requires w.p.nbytes > 0 && Standing(w, m0, done, v, 0) && DecState(c, v0, p, v, done, p[|done|..])
    modifies w`p, w`snap, w.mem, w.page, w.buffer, w.info, w.ivCopy
    ensures |done| < |done'| <= |p| && |v'| == c.bsize
    ensures DecState(c, v0, p, v', done', p[|done'|..]) && Standing(w, m0, done', v', err)
  {
    hide Ok, Dec, Xor, CbcDec, CbcDecIv, DecState, WrittenTo, ListsOk, Gather, Holds, Left;
    var n := w.p.nbytes;
    ghost var rest := p[|done|..];
    ghost var x := rest[..n];
    assert x == p[|done|..|done| + n];
    DecChunk(c, v0, p, v, done, rest, n);
    ghost var out := CbcDec(c, v, x);
    var left := CbcDecryptBuffer(c, w, m0, done, x, v);
    done', v' := done + out, CbcDecIv(c, v, x);
    assert rest[n - left..] == p[|done'|..];
    WholeBlocks(c.bsize, n);
    err := w.Done(left, m0, done, out, v');
  }

  /** crypto_cbc_decrypt. */
  method CbcDecrypt(c: Cipher, w: Walk) returns (err: int)
    requires Fresh(c, w) && w.algBlock == c.bsize
    modifies w, w.mem, w.page, w.buffer, w.info, w.ivCopy
    ensures InRange(w.l.src, old(w.mem[..]))
    ensures var p, v := Gather(old(w.mem[..]), w.l.src), old(w.info[..]);
      && WrittenTo(w.mem[..], old(w.mem[..]), w.l.dst, CbcDec(c, v, p))
      && w.info[..] == CbcDecIv(c, v, p)
      && err == if |p| % c.bsize == 0 then 0 else -EINVAL
  {
    hide Ok, Dec, Xor, CbcDec, CbcDecIv, DecState, WrittenTo, ListsOk, Gather, Left;
    ghost var m0, v0 := w.mem[..], w.info[..];
    ListsGather(w.l, m0, w.page.Length);
    ghost var p := Gather(m0, w.l.src);
    ghost var done, v := [], v0;
    DecStart(c, v0, p);
    err := w.First(m0, v0);
    assert p[0..] == p;
    while w.p.nbytes > 0
      invariant |v| == c.bsize && |done| <= |p| && DecState(c, v0, p, v, done, p[|done|..])
      invariant Standing(w, m0, done, v, err)
      decreases |p| - |done|
    {
      err, done, v := CbcDecryptStep(c, w, m0, v0, p, done, v);
    }
    DecAdvance(c, v0, p, v, done, p[|done|..]);
    LeftIsRemainder(c.bsize, |p|);
    assert w.info[..] == v;
  }

  // ---------------------------------------------------------------------------
  // CTR
  // ---------------------------------------------------------------------------

  /** The first `|done|` bytes are whole blocks and done; the counter block is `v`. */
  ghost predicate CtrSoFar(c: Cipher, v0: seq<Byte>, p: seq<Byte>, done: seq<Byte>, v: seq<Byte>)
    requires Ok(c) && |v0| == c.bsize
  {
    && |done| <= |p| && Left(c.bsize, |done|) == 0
    && done == Ctr(c, v0, p[..|done|]) && v == CtrNext(c, v0, |done|)
  }

  /** `m` more bytes: whole blocks, or all that is left. */
  lemma {:induction false} CtrMore(c: Cipher, v0: seq<Byte>, p: seq<Byte>, done: seq<Byte>, v: seq<Byte>, m: nat)
    requires Ok(c) && |v0| == |v| == c.bsize && CtrSoFar(c, v0, p, done, v) && |done| + m <= |p|
    ensures var k := |done|; var out := Ctr(c, v, p[k..k + m]);
      && done + out == Ctr(c, v0, p[..k + m]) && CtrNext(c, v, m) == CtrNext(c, v0, k + m)
      && (Left(c.bsize, m) == 0 ==> CtrSoFar(c, v0, p, done + out, CtrNext(c, v, m)))
  {
    hide Ok, Enc, Xor, Ctr, CtrNext;
    var k := |done|;
    var q := p[..k + m];
    assert q[..k] == p[..k] && q[k..] == p[k..k + m];
    CtrSplit(c, v0, q, k);
    if Left(c.bsize, m) == 0 {
      LeftPlus(c.bsize, k, m);
    }
  }

  method CtrBuffer(c: Cipher, w: Walk, ghost m0: seq<Byte>, ghost done: seq<Byte>, ghost x: seq<Byte>,
                   ghost v: seq<Byte>)
    returns (left: nat)
    requires Ok(c) && w.Ready(m0, done) && c.bsize == w.blocksize == w.info.Length == |v| && w.p.nbytes >= c.bsize
    requires x == Gather(m0, w.l.src)[|done|..|done| + w.p.nbytes] && Holds(w.Iv(), 0, v)
    modifies w.mem, w.page, w.buffer, w.info, w.ivCopy
    ensures left == Left(c.bsize, |x|) && w.Cooked(m0, done, Ctr(c, v, x[..|x| - left]), left)
    ensures Holds(w.Iv(), 0, CtrNext(c, v, |x| - left))
  {
    hide Ok, Enc, Xor, Ctr, CtrNext, WrittenTo, ListsOk, Gather;
    var buf, iv, n := w.Buf(), w.Iv(), w.p.nbytes;
    if w.p.so == w.p.dOff {
      left := CtrInPlace(c, buf, w.p.so, n, iv, x, v);
    } else {
      left := CtrSegment(c, buf, w.p.so, buf, w.p.dOff, n, iv, x, v);
    }
  }

  method CtrStep(c: Cipher, w: Walk, ghost m0: seq<Byte>, ghost v0: seq<Byte>, ghost p: seq<Byte>,
                 ghost done: seq<Byte>, ghost v: seq<Byte>)
    returns (err: int, ghost done': seq<Byte>, ghost v': seq<Byte>)
    requires Ok(c) && |v0| == |v| == c.bsize && w.algBlock == 1 && ListsOk(w.l, |m0|, w.page.Length)
    requires InRange(w.l.src, m0) && p == Gather(m0, w.l.src)
    requires w.p.nbytes >= c.bsize && Standing(w, m0, done, v, 0) && CtrSoFar(c, v0, p, done, v)
    modifies w`p, w`snap, w.mem, w.page, w.buffer, w.info, w.ivCopy
    ensures |done| < |done'| <= |p| && |v'| == c.bsize
    ensures CtrSoFar(c, v0, p, done', v') && Standing(w, m0, done', v', err)
  {
    hide Ok, Enc, Xor, Ctr, CtrNext, CtrSoFar, WrittenTo, ListsOk, Gather, Holds, Left;
    var n := w.p.nbytes;
    ghost var k := |done|;
    ghost var x := p[k..k + n];
    var left := CtrBuffer(c, w, m0, done, x, v);
    WholeBlocks(c.bsize, n);
    assert x[..n - left] == p[k..k + (n - left)];
    CtrMore(c, v0, p, done, v, n - left);
    ghost var out := Ctr(c, v, x[..n - left]);
    done', v' := done + out, CtrNext(c, v, n - left);
    err := w.Done(left, m0, done, out, v');
  }

  method CtrLast(c: Cipher, w: Walk, ghost m0: seq<Byte>, ghost v0: seq<Byte>, ghost p: seq<Byte>,
                 ghost done: seq<Byte>, ghost v: seq<Byte>)
    returns (err: int)
    requires Ok(c) && |v0| == |v| == c.bsize && w.algBlock == 1 && ListsOk(w.l, |m0|, w.page.Length)
    requires InRange(w.l.src, m0) && p == Gather(m0, w.l.src)
    requires 0 < w.p.nbytes < c.bsize && Standing(w, m0, done, v, 0) && CtrSoFar(c, v0, p, done, v)
    modifies w`p, w`snap, w.mem, w.page, w.buffer, w.info, w.ivCopy
    ensures err == 0 && WrittenTo(w.mem[..], m0, w.l.dst, Ctr(c, v0, p)) && Holds(w.info, 0, CtrNext(c, v0, |p|))
  {
    hide Ok, Enc, Xor, Ctr, CtrNext, CtrSoFar, WrittenTo, ListsOk, Gather, Holds;
    var n := w.p.nbytes;
    ghost var k := |done|;
    ghost var x := p[k..k + n];
    CtrLastBuffer(c, w, m0, done, x, v);
    assert k + n == |p| && p[..k + n] == p;
    CtrMore(c, v0, p, done, v, n);
    err := w.Done(0, m0, done, Ctr(c, v, x), CtrNext(c, v, n));
  }

  method CtrLastBuffer(c: Cipher, w: Walk, ghost m0: seq<Byte>, ghost done: seq<Byte>, ghost x: seq<Byte>,
                       ghost v: seq<Byte>)
    requires Ok(c) && w.Ready(m0, done) && c.bsize == w.blocksize == w.info.Length == |v| && 0 < w.p.nbytes < c.bsize
    requires x == Gather(m0, w.l.src)[|done|..|done| + w.p.nbytes] && Holds(w.Iv(), 0, v)
    modifies w.mem, w.page, w.buffer, w.info, w.ivCopy
    ensures w.Cooked(m0, done, Ctr(c, v, x), 0) && Holds(w.Iv(), 0, CtrNext(c, v, |x|))
  {
    hide Ok, Enc, Xor, Ctr, CtrNext, WrittenTo, ListsOk, Gather;
    CtrFinal(c, w.Buf(), w.p.so, w.Buf(), w.p.dOff, w.p.nbytes, w.Iv(), x, v);
  }

  /** crypto_ctr_crypt: all bytes are done, whatever their number. */
  method CtrCrypt(c: Cipher, w: Walk) returns (err: int)
    requires Fresh(c, w) && w.algBlock == 1
    modifies w, w.mem, w.page, w.buffer, w.info, w.ivCopy
    ensures InRange(w.l.src, old(w.mem[..]))
    ensures var p, v := Gather(old(w.mem[..]), w.l.src), old(w.info[..]);
      && WrittenTo(w.mem[..], old(w.mem[..]), w.l.dst, Ctr(c, v, p))
      && w.info[..] == CtrNext(c, v, |p|) && err == 0
  {
    hide Ok, Enc, Xor, Ctr, CtrNext, CtrSoFar, WrittenTo, ListsOk, Gather, Left;
    ghost var m0, v0 := w.mem[..], w.info[..];
    ListsGather(w.l, m0, w.page.Length);
    ghost var p := Gather(m0, w.l.src);
    ghost var done, v := [], v0;
    CtrNothing(c, v0, p);
    err := w.First(m0, v0);
    while w.p.nbytes >= c.bsize
      invariant |v| == c.bsize && |done| <= |p| && CtrSoFar(c, v0, p, done, v)
      invariant Standing(w, m0, done, v, err)
      decreases |p| - |done|
    {
      err, done, v := CtrStep(c, w, m0, v0, p, done, v);
    }
    if w.p.nbytes > 0 {
      err := CtrLast(c, w, m0, v0, p, done, v);
    } else {
      CtrComplete(c, v0, p, done, v);
    }
    assert w.info[..] == CtrNext(c, v0, |p|);
  }

  lemma {:induction false} CtrNothing(c: Cipher, v0: seq<Byte>, p: seq<Byte>)
    requires Ok(c) && |v0| == c.bsize
    ensures CtrSoFar(c, v0, p, [], v0)
  {
  }

  lemma {:induction false} CtrComplete(c: Cipher, v0: seq<Byte>, p: seq<Byte>, done: seq<Byte>, v: seq<Byte>)
    requires Ok(c) && |v0| == c.bsize && CtrSoFar(c, v0, p, done, v) && |done| == |p|
    ensures done == Ctr(c, v0, p) && v == CtrNext(c, v0, |p|)
  {
    assert p[..|p|] == p;
  }
}
