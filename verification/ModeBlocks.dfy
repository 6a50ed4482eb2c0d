/**
  The byte operations and the per-segment loops of CBC and CTR, in place on buffers. A buffer is
  an array and an offset; the source and the destination of a segment may lie in one array.
*/
module ModeBlocks {
  import opened ModeSpec

  predicate Within(a: array<Byte>, o: nat, n: nat) {
    o + n <= a.Length
  }

  /** The two byte ranges share nothing. */
  predicate Apart(a: array<Byte>, ao: nat, b: array<Byte>, bo: nat, n: nat) {
    a != b || ao + n <= bo || bo + n <= ao
  }

  /** The bytes from `o` on are `x`. */
  ghost predicate Holds(a: array<Byte>, o: nat, x: seq<Byte>)
    reads a
  {
    Within(a, o, |x|) && forall j :: o <= j < o + |x| ==> a[j] == x[j - o]
  }

  lemma {:induction false} HoldsSlice(a: array<Byte>, o: nat, x: seq<Byte>, i: nat, j: nat)
    requires Holds(a, o, x) && i <= j <= |x|
    ensures Holds(a, o + i, x[i..j])
  {
  }

  lemma {:induction false} HoldsNothing(a: array<Byte>, o: nat)
    requires Within(a, o, 0)
    ensures Holds(a, o, [])
  {
  }

  lemma {:induction false} HoldsFits(a: array<Byte>, o: nat, x: seq<Byte>)
    requires Holds(a, o, x)
    ensures Within(a, o, |x|)
  {
  }

  lemma {:induction false} HoldsJoin(a: array<Byte>, o: nat, x: seq<Byte>, y: seq<Byte>)
    requires Holds(a, o, x) && Holds(a, o + |x|, y)
    ensures Holds(a, o, x + y)
  {
  }

  /** Only the range was written. */
  twostate predicate OnlyWrote(a: array<Byte>, o: nat, n: nat)
    reads a
  {
    forall j :: 0 <= j < a.Length && !(o <= j < o + n) ==> a[j] == old(a[j])
  }

  // ---------------------------------------------------------------------------
  // Byte operations
  // ---------------------------------------------------------------------------

  method Memcpy(dst: array<Byte>, d: nat, src: array<Byte>, s: nat, n: nat, ghost x: seq<Byte>)
    requires |x| == n && Holds(src, s, x) && Within(dst, d, n) && Apart(dst, d, src, s, n)
    modifies dst
    ensures Holds(dst, d, x) && OnlyWrote(dst, d, n)
  {
    for i := 0 to n
      invariant forall j :: d <= j < d + i ==> dst[j] == x[j - d]
      invariant forall j :: s + i <= j < s + n ==> src[j] == x[j - s]
      invariant OnlyWrote(dst, d, i)
    {
      dst[d + i] := src[s + i];
    }
  }

  /** crypto_xor. Its words are four bytes at a time of the same loop. */
  method CryptoXor(dst: array<Byte>, d: nat, src: array<Byte>, s: nat, n: nat, ghost x: seq<Byte>, ghost y: seq<Byte>)
    requires |x| == |y| == n && Holds(dst, d, x) && Holds(src, s, y) && Apart(dst, d, src, s, n)
    modifies dst
    ensures Holds(dst, d, Xor(x, y)) && OnlyWrote(dst, d, n)
  {
    hide XorByte;
    for i := 0 to n
      invariant forall j :: d <= j < d + i ==> dst[j] == XorByte(x[j - d], y[j - d])
      invariant forall j :: d + i <= j < d + n ==> dst[j] == x[j - d]
      invariant forall j :: s + i <= j < s + n ==> src[j] == y[j - s]
      invariant OnlyWrote(dst, d, i)
    {
      dst[d + i] := XorByte(dst[d + i], src[s + i]);
    }
  }

  method Put(dst: array<Byte>, d: nat, x: seq<Byte>)
    requires Within(dst, d, |x|)
    modifies dst
    ensures Holds(dst, d, x) && OnlyWrote(dst, d, |x|)
  {
    for i := 0 to |x|
      invariant forall j :: d <= j < d + i ==> dst[j] == x[j - d]
      invariant OnlyWrote(dst, d, i)
    {
      dst[d + i] := x[i];
    }
  }

  /** A call of the block cipher; the two blocks may be the same one. */
  method Encipher(c: Cipher, dst: array<Byte>, d: nat, src: array<Byte>, s: nat, ghost x: seq<Byte>)
    requires Ok(c) && |x| == c.bsize && Holds(src, s, x) && Within(dst, d, c.bsize)
    modifies dst
    ensures Holds(dst, d, Enc(c, x)) && OnlyWrote(dst, d, c.bsize)
  {
    assert src[s..s + c.bsize] == x;
    Put(dst, d, c.enc(src[s..s + c.bsize]));
  }

  method Decipher(c: Cipher, dst: array<Byte>, d: nat, src: array<Byte>, s: nat, ghost x: seq<Byte>)
    requires Ok(c) && |x| == c.bsize && Holds(src, s, x) && Within(dst, d, c.bsize)
    modifies dst
    ensures Holds(dst, d, Dec(c, x)) && OnlyWrote(dst, d, c.bsize)
  {
    assert src[s..s + c.bsize] == x;
    Put(dst, d, c.dec(src[s..s + c.bsize]));
  }

  // ---------------------------------------------------------------------------
  // CBC encryption
  // ---------------------------------------------------------------------------

  /** Part way through `p` from chaining value `v`: `out` is written, `rest` is to come and the
      chaining value is `w`. */
  ghost predicate EncState(c: Cipher, v: seq<Byte>, p: seq<Byte>, w: seq<Byte>, out: seq<Byte>, rest: seq<Byte>)
    requires Ok(c) && |v| == |w| == c.bsize
  {
    && Left(c.bsize, |rest|) == Left(c.bsize, |p|)
    && CbcEnc(c, v, p) == out + CbcEnc(c, w, rest) && CbcEncIv(c, v, p) == CbcEncIv(c, w, rest)
  }

  lemma {:induction false} EncAdvance(c: Cipher, v: seq<Byte>, p: seq<Byte>, w: seq<Byte>, out: seq<Byte>,
                                      rest: seq<Byte>)
    requires Ok(c) && |v| == |w| == c.bsize && EncState(c, v, p, w, out, rest)
    ensures |rest| < c.bsize ==> |rest| == Left(c.bsize, |p|) && out == CbcEnc(c, v, p) && w == CbcEncIv(c, v, p)
    ensures |rest| >= c.bsize ==>
      var w' := Enc(c, Xor(w, rest[..c.bsize])); EncState(c, v, p, w', out + w', rest[c.bsize..])
  {
    hide Ok, Enc, Xor, CbcEnc, CbcEncIv;
    CbcEncUnfold(c, w, rest);
    if |rest| >= c.bsize {
      var w' := Enc(c, Xor(w, rest[..c.bsize]));
      assert out + (w' + CbcEnc(c, w', rest[c.bsize..])) == out + w' + CbcEnc(c, w', rest[c.bsize..]);
    }
  }

  lemma {:induction false} EncStart(c: Cipher, v: seq<Byte>, p: seq<Byte>)
    requires Ok(c) && |v| == c.bsize
    ensures EncState(c, v, p, v, [], p)
  {
  }

  method CbcEncryptBlock(c: Cipher, src: array<Byte>, s: nat, dst: array<Byte>, d: nat, iv: array<Byte>,
                         ghost p: seq<Byte>, ghost v: seq<Byte>)
    requires Ok(c) && iv.Length == |p| == |v| == c.bsize && iv != src && iv != dst
    requires Holds(src, s, p) && Holds(iv, 0, v) && Within(dst, d, c.bsize) && Apart(dst, d, src, s, c.bsize)
    modifies dst, iv
    ensures OnlyWrote(dst, d, c.bsize)
    ensures Holds(dst, d, Enc(c, Xor(v, p))) && Holds(iv, 0, Enc(c, Xor(v, p)))
  {
    hide Ok, Enc, Xor;
    CryptoXor(iv, 0, src, s, c.bsize, v, p);
    Encipher(c, dst, d, iv, 0, Xor(v, p));
    Memcpy(iv, 0, dst, d, c.bsize, Enc(c, Xor(v, p)));
  }

  /** crypto_cbc_encrypt_segment. */
  method CbcEncryptSegment(c: Cipher, src: array<Byte>, s: nat, dst: array<Byte>, d: nat, n: nat, iv: array<Byte>,
                           ghost p: seq<Byte>, ghost v: seq<Byte>)
    returns (left: nat)
    requires Ok(c) && iv.Length == |v| == c.bsize <= n == |p| && iv != src && iv != dst
    requires Holds(src, s, p) && Holds(iv, 0, v) && Within(dst, d, n) && Apart(dst, d, src, s, n)
    modifies dst, iv
    ensures left == Left(c.bsize, n) && OnlyWrote(dst, d, n - left)
    ensures Holds(dst, d, CbcEnc(c, v, p)) && Holds(iv, 0, CbcEncIv(c, v, p))
  {
    hide Ok, Enc, Xor, CbcEnc, CbcEncIv, EncState, Left;
    var b := c.bsize;
    ghost var w, out, rest := v, [], p;
    EncStart(c, v, p);
    left := n;
    while left >= b
      invariant left == |rest| == n - |out| && |w| == b && EncState(c, v, p, w, out, rest)
      invariant Holds(src, s + n - left, rest) && Holds(dst, d, out) && Holds(iv, 0, w)
      invariant OnlyWrote(dst, d, n - left)
    {
      EncAdvance(c, v, p, w, out, rest);
      CbcEncryptBlock(c, src, s + n - left, dst, d + n - left, iv, rest[..b], w);
      w := Enc(c, Xor(w, rest[..b]));
      out, rest := out + w, rest[b..];
      left := left - b;
    }
    EncAdvance(c, v, p, w, out, rest);
  }

  method CbcEncryptHere(c: Cipher, buf: array<Byte>, s: nat, prev: array<Byte>, o: nat, ghost p: seq<Byte>,
                        ghost v: seq<Byte>)
    requires Ok(c) && |p| == |v| == c.bsize
    requires Holds(buf, s, p) && Holds(prev, o, v) && Apart(buf, s, prev, o, c.bsize)
    modifies buf
    ensures OnlyWrote(buf, s, c.bsize) && Holds(buf, s, Enc(c, Xor(v, p)))
  {
    XorSelf(p, v);
    hide Ok, Enc, Xor;
    CryptoXor(buf, s, prev, o, c.bsize, p, v);
    Encipher(c, buf, s, buf, s, Xor(v, p));
  }

  /** crypto_cbc_encrypt_inplace: the chaining value is read from the block before. */
  method CbcEncryptInPlace(c: Cipher, buf: array<Byte>, s: nat, n: nat, iv: array<Byte>,
                           ghost p: seq<Byte>, ghost v: seq<Byte>)
    returns (left: nat)
    requires Ok(c) && iv.Length == |v| == c.bsize <= n == |p| && iv != buf
    requires Holds(buf, s, p) && Holds(iv, 0, v)
    modifies buf, iv
    ensures left == Left(c.bsize, n) && OnlyWrote(buf, s, n - left)
    ensures Holds(buf, s, CbcEnc(c, v, p)) && Holds(iv, 0, CbcEncIv(c, v, p))
  {
    hide Ok, Enc, Xor, CbcEnc, CbcEncIv, EncState, Left;
    var b := c.bsize;
    var prev, o: nat := iv, 0;
    ghost var w, out, rest := v, [], p;
    EncStart(c, v, p);
    left := n;
    while left >= b
      modifies buf
      invariant left == |rest| == n - |out| && |w| == b && EncState(c, v, p, w, out, rest)
      invariant Holds(buf, s + n - left, rest) && Holds(buf, s, out)
      invariant (left == n && prev == iv && o == 0) || (left < n && prev == buf && o + b == s + n - left)
      invariant Holds(prev, o, w) && OnlyWrote(buf, s, n - left)
    {
      EncAdvance(c, v, p, w, out, rest);
      CbcEncryptHere(c, buf, s + n - left, prev, o, rest[..b], w);
      prev, o := buf, s + n - left;
      w := Enc(c, Xor(w, rest[..b]));
      out, rest := out + w, rest[b..];
      left := left - b;
    }
    EncAdvance(c, v, p, w, out, rest);
    Memcpy(iv, 0, prev, o, b, w);
  }

  // ---------------------------------------------------------------------------
  // CBC decryption
  // ---------------------------------------------------------------------------

  ghost predicate DecState(c: Cipher, v: seq<Byte>, p: seq<Byte>, w: seq<Byte>, out: seq<Byte>, rest: seq<Byte>)
    requires Ok(c) && |v| == |w| == c.bsize
  {
    && Left(c.bsize, |rest|) == Left(c.bsize, |p|)
    && CbcDec(c, v, p) == out + CbcDec(c, w, rest) && CbcDecIv(c, v, p) == CbcDecIv(c, w, rest)
  }

  lemma {:induction false} DecAdvance(c: Cipher, v: seq<Byte>, p: seq<Byte>, w: seq<Byte>, out: seq<Byte>,
                                      rest: seq<Byte>)
    requires Ok(c) && |v| == |w| == c.bsize && DecState(c, v, p, w, out, rest)
    ensures |rest| < c.bsize ==> |rest| == Left(c.bsize, |p|) && out == CbcDec(c, v, p) && w == CbcDecIv(c, v, p)
    ensures |rest| >= c.bsize ==>
      var x := rest[..c.bsize]; DecState(c, v, p, x, out + Xor(Dec(c, x), w), rest[c.bsize..])
  {
    hide Ok, Dec, Xor, CbcDec, CbcDecIv;
    CbcDecUnfold(c, w, rest);
    if |rest| >= c.bsize {
      var x := rest[..c.bsize];
      var y := Xor(Dec(c, x), w);
      assert out + (y + CbcDec(c, x, rest[c.bsize..])) == out + y + CbcDec(c, x, rest[c.bsize..]);
    }
  }

  lemma {:induction false} DecStart(c: Cipher, v: seq<Byte>, p: seq<Byte>)
    requires Ok(c) && |v| == c.bsize
    ensures DecState(c, v, p, v, [], p)
  {
  }

  method CbcDecryptBlock(c: Cipher, src: array<Byte>, s: nat, dst: array<Byte>, d: nat, prev: array<Byte>, o: nat,
                         ghost x: seq<Byte>, ghost v: seq<Byte>)
    requires Ok(c) && |x| == |v| == c.bsize && Within(dst, d, c.bsize)
    requires Holds(src, s, x) && Holds(prev, o, v) && Apart(dst, d, prev, o, c.bsize)
    modifies dst
    ensures OnlyWrote(dst, d, c.bsize) && Holds(dst, d, Xor(Dec(c, x), v))
  {
    hide Ok, Dec, Xor;
    Decipher(c, dst, d, src, s, x);
    CryptoXor(dst, d, prev, o, c.bsize, Dec(c, x), v);
  }

  /** Decrypt the block at `k` behind what has been written. */
  method CbcDecryptNext(c: Cipher, src: array<Byte>, s: nat, dst: array<Byte>, d: nat, k: nat, prev: array<Byte>,
                        o: nat, ghost p: seq<Byte>, ghost out: seq<Byte>, ghost w: seq<Byte>)
    requires Ok(c) && |w| == c.bsize && k == |out| && k + c.bsize <= |p|
    requires Holds(src, s, p) && Holds(dst, d, out) && Within(dst, d, |p|) && Apart(dst, d, src, s, |p|)
    requires Holds(prev, o, w) && Apart(dst, d + k, prev, o, c.bsize)
    modifies dst
    ensures Holds(src, s, p) && Holds(dst, d, out + Xor(Dec(c, p[k..k + c.bsize]), w)) && OnlyWrote(dst, d + k, c.bsize)
  {
    hide Ok, Dec, Xor;
    HoldsSlice(src, s, p, k, k + c.bsize);
    CbcDecryptBlock(c, src, s + k, dst, d + k, prev, o, p[k..k + c.bsize], w);
  }

  /** crypto_cbc_decrypt_segment. */
  method CbcDecryptSegment(c: Cipher, src: array<Byte>, s: nat, dst: array<Byte>, d: nat, n: nat, iv: array<Byte>,
                           ghost p: seq<Byte>, ghost v: seq<Byte>)
    returns (left: nat)
    requires Ok(c) && iv.Length == |v| == c.bsize <= n == |p| && iv != src && iv != dst
    requires Holds(src, s, p) && Holds(iv, 0, v) && Within(dst, d, n) && Apart(dst, d, src, s, n)
    modifies dst, iv
    ensures left == Left(c.bsize, n) && OnlyWrote(dst, d, n - left)
    ensures Holds(dst, d, CbcDec(c, v, p)) && Holds(iv, 0, CbcDecIv(c, v, p))
  {
    hide Ok, Dec, Xor, CbcDec, CbcDecIv, DecState, Left, Holds;
    HoldsNothing(dst, d);
    var b := c.bsize;
    var prev, o: nat := iv, 0;
    ghost var w, out := v, [];
    DecStart(c, v, p);
    assert p[0..] == p;
    left := n;
    while left >= b
      modifies dst
      invariant left <= n && |out| == n - left && |w| == b && DecState(c, v, p, w, out, p[n - left..])
      invariant Holds(src, s, p) && Holds(dst, d, out) && OnlyWrote(dst, d, n - left)
      invariant if left == n then prev == iv && o == 0 else prev == src && s <= o && o + b == s + n - left
      invariant Holds(prev, o, w)
    {
      var k := n - left;
      ghost var x := p[k..k + b];
      DecAdvance(c, v, p, w, out, p[k..]);
      assert p[k..][..b] == x && p[k..][b..] == p[k + b..];
      CbcDecryptNext(c, src, s, dst, d, k, prev, o, p, out, w);
      HoldsSlice(src, s, p, k, k + b);
      prev, o := src, s + k;
      out := out + Xor(Dec(c, x), w);
      w := x;
      left := left - b;
    }
    DecAdvance(c, v, p, w, out, p[n - left..]);
    Memcpy(iv, 0, prev, o, b, w);
  }

  /** The block before position `k`, or the chaining value. */
  ghost function Before(b: nat, v: seq<Byte>, p: seq<Byte>, k: nat): (r: seq<Byte>)
    requires k <= |p| && |v| == b && (k == 0 || b <= k)
    ensures |r| == b
  {
    if k == 0 then v else p[k - b..k]
  }

  /** The blocks of `p`, those from `k` on decrypted. */
  ghost function Image(c: Cipher, v: seq<Byte>, p: seq<Byte>, k: nat): (r: seq<Byte>)
    requires Ok(c) && |v| == c.bsize && k <= |p| && (k == 0 || c.bsize <= k)
    ensures k <= |r|
  {
    p[..k] + CbcDec(c, Before(c.bsize, v, p, k), p[k..])
  }

  lemma {:induction false} ImageStep(c: Cipher, v: seq<Byte>, p: seq<Byte>, k: nat)
    requires Ok(c) && |v| == c.bsize && k + c.bsize <= |p| && (k == 0 || c.bsize <= k)
    ensures Image(c, v, p, k) ==
      p[..k] + (Xor(Dec(c, p[k..k + c.bsize]), Before(c.bsize, v, p, k)) + Image(c, v, p, k + c.bsize)[k + c.bsize..])
    ensures Image(c, v, p, k + c.bsize)[..k + c.bsize] == p[..k + c.bsize]
  {
    hide Ok, Dec, Xor, CbcDec;
    var b := c.bsize;
    CbcDecUnfold(c, Before(b, v, p, k), p[k..]);
    assert p[k..][..b] == p[k..k + b] && p[k..][b..] == p[k + b..];
    assert p[k..k + b] == Before(b, v, p, k + b);
  }

  lemma {:induction false} ImageEnds(c: Cipher, v: seq<Byte>, p: seq<Byte>)
    requires Ok(c) && |v| == c.bsize <= |p| && Left(c.bsize, |p|) == 0
    ensures Image(c, v, p, 0) == CbcDec(c, v, p) && Image(c, v, p, |p|) == p
  {
    hide Ok, Dec, Xor, CbcDec;
    assert p[0..] == p && p[|p|..] == [] && p[..|p|] == p;
    CbcDecUnfold(c, Before(c.bsize, v, p, |p|), []);
  }

  /** The chaining value is the last block. */
  lemma {:induction false} DecLast(c: Cipher, v: seq<Byte>, p: seq<Byte>)
    requires Ok(c) && |v| == c.bsize <= |p| && Left(c.bsize, |p|) == 0
    ensures CbcDecIv(c, v, p) == p[|p| - c.bsize..]
  {
    hide Ok, Dec, Xor, CbcDec, CbcDecIv;
    var b, k := c.bsize, |p| - c.bsize;
    WholeBlocks(b, |p|);
    CbcDecSplit(c, v, p, k);
    var w, last := CbcDecIv(c, v, p[..k]), p[k..];
    CbcDecUnfold(c, w, last);
    CbcDecUnfold(c, last[..b], last[b..]);
    assert last[..b] == last;
  }

  method CbcDecryptBetween(c: Cipher, buf: array<Byte>, s: nat, k: nat, prev: array<Byte>, o: nat,
                           ghost front: seq<Byte>, ghost x: seq<Byte>, ghost back: seq<Byte>, ghost v: seq<Byte>)
    requires Ok(c) && |x| == |v| == c.bsize && k == |front| && Holds(buf, s, front + (x + back))
    requires Holds(prev, o, v) && Apart(buf, s + k, prev, o, c.bsize)
    modifies buf
    ensures Holds(buf, s, front + (Xor(Dec(c, x), v) + back)) && OnlyWrote(buf, s + k, c.bsize)
  {
    hide Ok, Dec, Xor;
    ghost var all := front + (x + back);
    assert forall j :: 0 <= j < |x| ==> all[k + j] == x[j];
    CbcDecryptBlock(c, buf, s + k, buf, s + k, prev, o, x, v);
  }

  /** Decrypt block `k` where the later ones are already decrypted. */
  method CbcDecryptHere(c: Cipher, buf: array<Byte>, s: nat, k: nat, prev: array<Byte>, o: nat,
                        ghost q: seq<Byte>, ghost v: seq<Byte>)
    requires Ok(c) && |v| == c.bsize && k + c.bsize <= |q| && (k == 0 || c.bsize <= k)
    requires Holds(buf, s, Image(c, v, q, k + c.bsize))
    requires Holds(prev, o, Before(c.bsize, v, q, k)) && Apart(buf, s + k, prev, o, c.bsize)
    modifies buf
    ensures Holds(buf, s, Image(c, v, q, k)) && OnlyWrote(buf, s + k, c.bsize)
  {
    hide Ok, Dec, Xor, Image, Holds, Before;
    var b := c.bsize;
    ImageStep(c, v, q, k);
    ghost var back := Image(c, v, q, k + b)[k + b..];
    assert Image(c, v, q, k + b) == q[..k] + (q[k..k + b] + back) by {
      assert q[..k + b] == q[..k] + q[k..k + b];
      assert Image(c, v, q, k + b) == Image(c, v, q, k + b)[..k + b] + back;
    }
    CbcDecryptBetween(c, buf, s, k, prev, o, q[..k], q[k..k + b], back, Before(b, v, q, k));
  }

  /** crypto_cbc_decrypt_inplace: from the last block to the first. */
  method CbcDecryptInPlace(c: Cipher, buf: array<Byte>, s: nat, n: nat, iv: array<Byte>,
                           ghost p: seq<Byte>, ghost v: seq<Byte>)
    returns (left: nat)
    requires Ok(c) && iv.Length == |v| == c.bsize <= n == |p| && iv != buf
    requires Holds(buf, s, p) && Holds(iv, 0, v)
    modifies buf, iv
    ensures left == Left(c.bsize, n) && OnlyWrote(buf, s, n - left)
    ensures Holds(buf, s, CbcDec(c, v, p)) && Holds(iv, 0, CbcDecIv(c, v, p))
  {
    hide Ok, Dec, Xor, CbcDec, CbcDecIv, Left, Image, Before, Holds;
    var b := c.bsize;
    LeftIsRemainder(b, n);
    var k := n - n % b - b;
    ghost var m := n - Left(b, n);
    ghost var q := p[..m];
    DecryptSetup(c, v, p);
    var lastIv := new Byte[b];
    HoldsSlice(buf, s, p, 0, m);
    HoldsSlice(buf, s, p, k, m);
    assert p[0..m] == q && p[k..m] == q[k..];
    HoldsFits(buf, s, q);
    Memcpy(lastIv, 0, buf, s + k, b, q[k..]);
    left := n;
    while left >= 2 * b
      modifies buf
      invariant 0 <= k && k + b <= m && left == k + b + Left(b, n) && Left(b, k) == 0
      invariant Holds(buf, s, Image(c, v, q, k + b)) && OnlyWrote(buf, s, m)
    {
      LeftStep(b, k);
      PrevBlock(c, buf, s, k, q, v);
      CbcDecryptHere(c, buf, s, k, buf, s + k - b, q, v);
      left := left - b;
      k := k - b;
    }
    LeftStep(b, k);
    assert Before(b, v, q, 0) == v by { FirstBlock(b, v, q); }
    CbcDecryptHere(c, buf, s, k, iv, 0, q, v);
    left := left - b;
    Memcpy(iv, 0, lastIv, 0, b, q[m - b..]);
  }

  lemma {:induction false} FirstBlock(b: nat, v: seq<Byte>, p: seq<Byte>)
    requires |v| == b
    ensures Before(b, v, p, 0) == v
  {
  }

  lemma {:induction false} PrevBlock(c: Cipher, buf: array<Byte>, s: nat, k: nat, q: seq<Byte>, v: seq<Byte>)
    requires Ok(c) && |v| == c.bsize <= k && k + c.bsize <= |q| && Holds(buf, s, Image(c, v, q, k + c.bsize))
    ensures Holds(buf, s + k - c.bsize, Before(c.bsize, v, q, k))
  {
    hide Ok, Dec, Xor, CbcDec;
    var all := Image(c, v, q, k + c.bsize);
    HoldsSlice(buf, s, all, k - c.bsize, k);
    assert all[k - c.bsize..k] == q[k - c.bsize..k];
  }

  lemma {:induction false} DecryptSetup(c: Cipher, v: seq<Byte>, p: seq<Byte>)
    requires Ok(c) && |v| == c.bsize <= |p|
    ensures var m := |p| - Left(c.bsize, |p|); var q := p[..m];
      && c.bsize <= m && Left(c.bsize, m) == Left(c.bsize, m - c.bsize) == 0 && CbcDecIv(c, v, p) == q[m - c.bsize..]
      && Image(c, v, q, m) == q && Image(c, v, q, 0) == CbcDec(c, v, p)
  {
    hide Ok, Dec, Xor, CbcDec, CbcDecIv, Left, Image, Before;
    WholeBlocks(c.bsize, |p|);
    DecWhole(c, v, p);
    DecLast(c, v, p[..|p| - Left(c.bsize, |p|)]);
    ImageEnds(c, v, p[..|p| - Left(c.bsize, |p|)]);
  }

  // ---------------------------------------------------------------------------
  // Counter blocks
  // ---------------------------------------------------------------------------

  /** One big-endian word or byte of the counter, plus one. */
  method IncDigits(a: array<Byte>, o: nat, n: nat, ghost t: seq<Byte>) returns (carry: bool)
    requires |t| == n && Holds(a, o, t)
    modifies a
    ensures Holds(a, o, Inc(t)) && OnlyWrote(a, o, n) && carry == (Num(t) + 1 == Pow(n))
  {
    assert a[o..o + n] == t;
    IncValue(t);
    Put(a, o, Digits(n, Num(a[o..o + n]) + 1));
    carry := Num(a[o..o + n]) == 0;
    assert a[o..o + n] == Inc(t);
  }

  ghost predicate IncState(t: seq<Byte>, front: seq<Byte>, back: seq<Byte>) {
    Inc(t) == Inc(front) + back
  }

  lemma {:induction false} IncAdvance(t: seq<Byte>, front: seq<Byte>, back: seq<Byte>, k: nat)
    requires IncState(t, front, back) && k <= |front|
    ensures var f, u := front[..k], front[k..];
      if Num(u) + 1 == Pow(|u|) then IncState(t, f, Inc(u) + back) else Inc(t) == f + (Inc(u) + back)
  {
    hide Inc, Num, Pow;
    var f, u := front[..k], front[k..];
    IncTail(f, u);
    assert f + u == front;
    assert (Inc(f) + Inc(u)) + back == Inc(f) + (Inc(u) + back) && (f + Inc(u)) + back == f + (Inc(u) + back);
  }

  /** Increment the digits from `k` to `k + n` and put them before what is done. */
  method IncPart(a: array<Byte>, k: nat, n: nat, ghost t: seq<Byte>, ghost front: seq<Byte>, ghost back: seq<Byte>)
    returns (carry: bool)
    requires |front| == k + n && IncState(t, front, back) && Holds(a, 0, front + back)
    modifies a
    ensures Holds(a, 0, front[..k] + (Inc(front[k..]) + back))
    ensures if carry then IncState(t, front[..k], Inc(front[k..]) + back)
      else Inc(t) == front[..k] + (Inc(front[k..]) + back)
  {
    hide Inc, Num, Pow, IncState;
    IncAdvance(t, front, back, k);
    carry := IncDigits(a, k, n, front[k..]);
  }

  /** crypto_inc and crypto_inc_byte: words from the end, then bytes, as long as there is a carry. */
  method CryptoInc(a: array<Byte>, ghost t: seq<Byte>)
    requires a.Length == |t| && Holds(a, 0, t)
    modifies a
    ensures Holds(a, 0, Inc(t))
  {
    hide Inc, Num, Pow, IncState, Holds;
    var size := a.Length;
    ghost var front, back := t, [];
    IncStart(t);
    var carry := true;
    while size >= 4 && carry
      invariant if carry then IncState(t, front, back) && |front| == size else Inc(t) == front + back
      invariant Holds(a, 0, front + back)
      decreases size, carry
    {
      carry := IncPart(a, size - 4, 4, t, front, back);
      front, back := front[..size - 4], Inc(front[size - 4..]) + back;
      size := size - 4;
    }
    while size > 0 && carry
      invariant if carry then IncState(t, front, back) && |front| == size else Inc(t) == front + back
      invariant Holds(a, 0, front + back)
      decreases size, carry
    {
      carry := IncPart(a, size - 1, 1, t, front, back);
      front, back := front[..size - 1], Inc(front[size - 1..]) + back;
      size := size - 1;
    }
    IncEnd(t, front, back);
  }

  lemma {:induction false} IncStart(t: seq<Byte>)
    ensures IncState(t, t, []) && t + [] == t
  {
  }

  lemma {:induction false} IncEnd(t: seq<Byte>, front: seq<Byte>, back: seq<Byte>)
    ensures front == [] && IncState(t, front, back) ==> Inc(t) == front + back
  {
  }

  // ---------------------------------------------------------------------------
  // CTR
  // ---------------------------------------------------------------------------

  ghost predicate CtrState(c: Cipher, v: seq<Byte>, p: seq<Byte>, w: seq<Byte>, out: seq<Byte>, rest: seq<Byte>)
    requires Ok(c) && |v| == |w| == c.bsize
  {
    && Left(c.bsize, |rest|) == 0
    && Ctr(c, v, p) == out + Ctr(c, w, rest) && CtrNext(c, v, |p|) == CtrNext(c, w, |rest|)
  }

  lemma {:induction false} CtrAdvance(c: Cipher, v: seq<Byte>, p: seq<Byte>, w: seq<Byte>, out: seq<Byte>,
                                      rest: seq<Byte>)
    requires Ok(c) && |v| == |w| == c.bsize && CtrState(c, v, p, w, out, rest)
    ensures |rest| < c.bsize ==> rest == [] && out == Ctr(c, v, p) && w == CtrNext(c, v, |p|)
    ensures |rest| >= c.bsize ==> CtrState(c, v, p, Inc(w), out + Xor(rest[..c.bsize], Enc(c, w)), rest[c.bsize..])
  {
    hide Ok, Enc, Xor, Ctr, Inc;
    CtrUnfold(c, w, rest);
    if |rest| >= c.bsize {
      var x := Xor(rest[..c.bsize], Enc(c, w));
      assert out + (x + Ctr(c, Inc(w), rest[c.bsize..])) == out + x + Ctr(c, Inc(w), rest[c.bsize..]);
    }
  }

  lemma {:induction false} CtrStart(c: Cipher, v: seq<Byte>, p: seq<Byte>)
    requires Ok(c) && |v| == c.bsize && Left(c.bsize, |p|) == 0
    ensures CtrState(c, v, p, v, [], p)
  {
  }

  method CtrBlock(c: Cipher, src: array<Byte>, s: nat, dst: array<Byte>, d: nat, iv: array<Byte>,
                  ghost p: seq<Byte>, ghost v: seq<Byte>)
    requires Ok(c) && iv.Length == |p| == |v| == c.bsize && iv != src && iv != dst
    requires Holds(src, s, p) && Holds(iv, 0, v) && Within(dst, d, c.bsize) && Apart(dst, d, src, s, c.bsize)
    modifies dst, iv
    ensures OnlyWrote(dst, d, c.bsize)
    ensures Holds(dst, d, Xor(p, Enc(c, v))) && Holds(iv, 0, Inc(v))
  {
    hide Ok, Enc, Xor, Inc;
    XorSelf(p, Enc(c, v));
    Encipher(c, dst, d, iv, 0, v);
    CryptoXor(dst, d, src, s, c.bsize, Enc(c, v), p);
    CryptoInc(iv, v);
  }

  /** crypto_ctr_crypt_segment. */
  method CtrSegment(c: Cipher, src: array<Byte>, s: nat, dst: array<Byte>, d: nat, n: nat, iv: array<Byte>,
                    ghost p: seq<Byte>, ghost v: seq<Byte>)
    returns (left: nat)
    requires Ok(c) && iv.Length == |v| == c.bsize <= n == |p| && iv != src && iv != dst
    requires Holds(src, s, p) && Holds(iv, 0, v) && Within(dst, d, n) && Apart(dst, d, src, s, n)
    modifies dst, iv
    ensures left == Left(c.bsize, n) && OnlyWrote(dst, d, n - left)
    ensures Holds(dst, d, Ctr(c, v, p[..n - left])) && Holds(iv, 0, CtrNext(c, v, n - left))
  {
    hide Ok, Enc, Xor, Ctr, CtrNext, CtrState, Left, Inc;
    var b := c.bsize;
    WholeBlocks(b, n);
    ghost var odd := Left(b, n);
    ghost var q := p[..n - odd];
    ghost var w, out, rest := v, [], q;
    CtrStart(c, v, q);
    left := n;
    while left >= b
      invariant left == |rest| + odd == n - |out| && |w| == b && CtrState(c, v, q, w, out, rest)
      invariant Holds(src, s + n - left, rest) && Holds(dst, d, out) && Holds(iv, 0, w)
      invariant OnlyWrote(dst, d, n - left)
    {
      CtrAdvance(c, v, q, w, out, rest);
      CtrBlock(c, src, s + n - left, dst, d + n - left, iv, rest[..b], w);
      out, rest := out + Xor(rest[..b], Enc(c, w)), rest[b..];
      w := Inc(w);
      left := left - b;
    }
    CtrAdvance(c, v, q, w, out, rest);
  }

  method CtrHere(c: Cipher, buf: array<Byte>, s: nat, iv: array<Byte>, keystream: array<Byte>,
                 ghost p: seq<Byte>, ghost v: seq<Byte>)
    requires Ok(c) && iv.Length == keystream.Length == |p| == |v| == c.bsize
    requires iv != buf && keystream != buf && keystream != iv
    requires Holds(buf, s, p) && Holds(iv, 0, v)
    modifies buf, iv, keystream
    ensures OnlyWrote(buf, s, c.bsize)
    ensures Holds(buf, s, Xor(p, Enc(c, v))) && Holds(iv, 0, Inc(v))
  {
    hide Ok, Enc, Xor, Inc;
    Encipher(c, keystream, 0, iv, 0, v);
    CryptoXor(buf, s, keystream, 0, c.bsize, p, Enc(c, v));
    CryptoInc(iv, v);
  }

  /** crypto_ctr_crypt_inplace. */
  method CtrInPlace(c: Cipher, buf: array<Byte>, s: nat, n: nat, iv: array<Byte>, ghost p: seq<Byte>,
                    ghost v: seq<Byte>)
    returns (left: nat)
    requires Ok(c) && iv.Length == |v| == c.bsize <= n == |p| && iv != buf
    requires Holds(buf, s, p) && Holds(iv, 0, v)
    modifies buf, iv
    ensures left == Left(c.bsize, n) && OnlyWrote(buf, s, n - left)
    ensures Holds(buf, s, Ctr(c, v, p[..n - left])) && Holds(iv, 0, CtrNext(c, v, n - left))
  {
    hide Ok, Enc, Xor, Ctr, CtrNext, CtrState, Left, Inc;
    var b := c.bsize;
    WholeBlocks(b, n);
    ghost var odd := Left(b, n);
    ghost var q := p[..n - odd];
    ghost var w, out, rest := v, [], q;
    CtrStart(c, v, q);
    var keystream := new Byte[b];
    left := n;
    while left >= b
      invariant left == |rest| + odd == n - |out| && |w| == b && CtrState(c, v, q, w, out, rest)
      invariant Holds(buf, s + n - left, rest) && Holds(buf, s, out) && Holds(iv, 0, w)
      invariant OnlyWrote(buf, s, n - left)
    {
      CtrAdvance(c, v, q, w, out, rest);
      CtrHere(c, buf, s + n - left, iv, keystream, rest[..b], w);
      out, rest := out + Xor(rest[..b], Enc(c, w)), rest[b..];
      w := Inc(w);
      left := left - b;
    }
    CtrAdvance(c, v, q, w, out, rest);
  }

  /** crypto_ctr_crypt_final: the bytes after the last whole block. */
  method CtrFinal(c: Cipher, src: array<Byte>, s: nat, dst: array<Byte>, d: nat, n: nat, iv: array<Byte>,
                  ghost p: seq<Byte>, ghost v: seq<Byte>)
    requires Ok(c) && iv.Length == |v| == c.bsize && 0 < n == |p| < c.bsize && iv != src && iv != dst
    requires Holds(src, s, p) && Holds(iv, 0, v) && Within(dst, d, n)
    modifies dst, iv
    ensures OnlyWrote(dst, d, n)
    ensures Holds(dst, d, Ctr(c, v, p)) && Holds(iv, 0, CtrNext(c, v, n))
  {
    hide Ok, Enc, Xor, Ctr, Inc;
    var keystream := new Byte[c.bsize];
    Encipher(c, keystream, 0, iv, 0, v);
    ghost var k := Enc(c, v)[..n];
    HoldsSlice(keystream, 0, Enc(c, v), 0, n);
    assert Enc(c, v)[0..n] == k;
    CryptoXor(keystream, 0, src, s, n, k, p);
    XorSelf(p, k);
    CtrUnfold(c, v, p);
    Memcpy(dst, d, keystream, 0, n, Xor(k, p));
    CryptoInc(iv, v);
  }
}
