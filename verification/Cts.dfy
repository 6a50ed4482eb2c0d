/**
  Ciphertext stealing over CBC (section 8 of RFC 2040): the last full block and the partial one
  change places, and the message does not grow.
*/
module Cts {
  import opened ModeSpec
  import opened ModeBlocks

  const EINVAL := 22

  // ---------------------------------------------------------------------------
  // The flat mode
  // ---------------------------------------------------------------------------

  /** How many bytes plain CBC takes: all but the last one or two blocks. */
  function Front(b: Size, n: nat): (k: nat)
    ensures k <= n && (n > b ==> b < n - k <= 2 * b)
    ensures Left(b, k) == 0
    decreases n
  {
    if n <= 2 * b then 0
    else
      LeftPlus(b, b, Front(b, n - b));
      LeftStep(b, b);
      LeftStep(b, 0);
      b + Front(b, n - b)
  }

  /** The last two blocks, the second possibly partial. */
  function TailEnc(c: Cipher, iv: seq<Byte>, x: seq<Byte>): (r: seq<Byte>)
    requires Ok(c) && |iv| == c.bsize <= |x| <= 2 * c.bsize
    ensures |r| == |x|
  {
    var b := c.bsize;
    var e := Enc(c, Xor(iv, x[..b]));
    Enc(c, Xor(e, x[b..] + Zeros(2 * b - |x|))) + e[..|x| - b]
  }

  function TailDec(c: Cipher, iv: seq<Byte>, y: seq<Byte>): (r: seq<Byte>)
    requires Ok(c) && |iv| == c.bsize <= |y| <= 2 * c.bsize
    ensures |r| == |y|
  {
    var b := c.bsize;
    var n := |y| - b;
    var x := Xor(Dec(c, y[..b]), y[b..] + Zeros(b - n));
    Xor(Dec(c, y[b..] + x[n..]), iv) + x[..n]
  }

  /** The whole message of at least one block. */
  function CtsEnc(c: Cipher, iv: seq<Byte>, x: seq<Byte>): (r: seq<Byte>)
    requires Ok(c) && |iv| == c.bsize <= |x|
    ensures |r| == |x|
  {
    LeftStep(c.bsize, c.bsize);
    LeftStep(c.bsize, 0);
    if |x| == c.bsize then CbcEnc(c, iv, x)
    else
      var k := Front(c.bsize, |x|);
      CbcEnc(c, iv, x[..k]) + TailEnc(c, CbcEncIv(c, iv, x[..k]), x[k..])
  }

  function CtsDec(c: Cipher, iv: seq<Byte>, y: seq<Byte>): (r: seq<Byte>)
    requires Ok(c) && |iv| == c.bsize <= |y|
    ensures |r| == |y|
  {
    LeftStep(c.bsize, c.bsize);
    LeftStep(c.bsize, 0);
    if |y| == c.bsize then CbcDec(c, iv, y)
    else
      var k := Front(c.bsize, |y|);
      CbcDec(c, iv, y[..k]) + TailDec(c, CbcDecIv(c, iv, y[..k]), y[k..])
  }

  /** The chaining value that is left: the block that was encrypted last, which comes before the
      stolen bytes. */
  function LastBlock(b: Size, y: seq<Byte>): seq<Byte>
    requires b <= |y|
  {
    if |y| == b then y else y[Front(b, |y|)..Front(b, |y|) + b]
  }

  // ---------------------------------------------------------------------------
  // Round trip
  // ---------------------------------------------------------------------------

  /** Unmasking with the first `n` bytes of `e` gives the first `n` bytes of the plaintext, and
      behind them the stolen bytes of `e`. */
  lemma {:induction false} Stolen(e: seq<Byte>, p: seq<Byte>)
    requires |p| <= |e|
    ensures var n, z := |p|, Zeros(|e| - |p|); Xor(Xor(e, p + z), e[..n] + z) == p + e[n..]
  {
    hide XorByte;
    var n, z := |p|, Zeros(|e| - |p|);
    forall i | 0 <= i < |e|
      ensures Xor(Xor(e, p + z), e[..n] + z)[i] == (p + e[n..])[i]
    {
      if i < n {
        XorByteSelf(e[i], p[i]);
        XorByteSelf(p[i], e[i]);
      } else {
        XorByteZero(e[i]);
      }
    }
  }

  lemma {:induction false} TailRoundTrip(c: Cipher, iv: seq<Byte>, x: seq<Byte>)
    requires Ok(c) && |iv| == c.bsize <= |x| <= 2 * c.bsize
    ensures TailDec(c, iv, TailEnc(c, iv, x)) == x
  {
    hide Ok, Enc, Dec, Xor, Zeros;
    var b := c.bsize;
    var n, p := |x| - b, x[b..];
    var e := Enc(c, Xor(iv, x[..b]));
    var y := TailEnc(c, iv, x);
    assert y[..b] == Enc(c, Xor(e, p + Zeros(b - n))) && y[b..] == e[..n];
    DecEnc(c, Xor(e, p + Zeros(b - n)));
    Stolen(e, p);
    assert (p + e[n..])[..n] == p && (p + e[n..])[n..] == e[n..];
    assert e[..n] + e[n..] == e;
    DecEnc(c, Xor(iv, x[..b]));
    XorSelf(x[..b], iv);
    XorSelf(iv, x[..b]);
    assert x[..b] + p == x;
  }

  /** Decryption undoes encryption from the same chaining value. */
  lemma {:induction false} CtsRoundTrip(c: Cipher, iv: seq<Byte>, x: seq<Byte>)
    requires Ok(c) && |iv| == c.bsize <= |x|
    ensures CtsDec(c, iv, CtsEnc(c, iv, x)) == x
  {
    hide Ok, Enc, Dec, Xor, Zeros, CbcEnc, CbcDec, CbcEncIv, CbcDecIv, TailEnc, TailDec;
    LeftStep(c.bsize, c.bsize);
    LeftStep(c.bsize, 0);
    if |x| == c.bsize {
      CbcRoundTrip(c, iv, x);
      assert x[..|x| - 0] == x;
    } else {
      var k := Front(c.bsize, |x|);
      CbcRoundTrip(c, iv, x[..k]);
      assert x[..k][..k - 0] == x[..k];
      TailRoundTrip(c, CbcEncIv(c, iv, x[..k]), x[k..]);
      var y := CtsEnc(c, iv, x);
      assert y[..k] == CbcEnc(c, iv, x[..k]) && y[k..] == TailEnc(c, CbcEncIv(c, iv, x[..k]), x[k..]);
      assert x[..k] + x[k..] == x;
    }
  }

  // ---------------------------------------------------------------------------
  // The template
  // ---------------------------------------------------------------------------

  lemma {:induction false} HoldsFront(a: array<Byte>, o: nat, x: seq<Byte>, n: nat)
    requires Holds(a, o, x) && n <= |x|
    ensures Holds(a, o, x[..n]) && Holds(a, o + n, x[n..])
  {
  }

  lemma {:induction false} HoldsAll(a: array<Byte>, x: seq<Byte>, n: nat)
    requires Holds(a, 0, x) && n == |x|
    ensures n <= a.Length && a[..n] == x
  {
  }

  lemma {:induction false} HoldsIs(a: array<Byte>)
    ensures Holds(a, 0, a[..])
  {
  }

  /** A buffer with `x` and zeros behind it. */
  method Load(dst: array<Byte>, x: seq<Byte>)
    requires |x| <= dst.Length
    modifies dst
    ensures Holds(dst, 0, x + Zeros(dst.Length - |x|))
  {
    Put(dst, 0, Zeros(dst.Length));
    Put(dst, 0, x);
  }

  /** Copy to the front of a buffer; what follows it there stays. */
  method CopyFront(dst: array<Byte>, src: array<Byte>, s: nat, n: nat, ghost x: seq<Byte>, ghost rest: seq<Byte>)
    requires |x| == n && dst != src && Holds(src, s, x) && Holds(dst, n, rest)
    modifies dst
    ensures Holds(dst, 0, x + rest)
  {
    Memcpy(dst, 0, src, s, n, x);
  }

  /** Copy behind what is at `o` in a buffer; what is in front stays. */
  method CopyBehind(dst: array<Byte>, o: nat, k: nat, src: array<Byte>, s: nat, n: nat, ghost front: seq<Byte>,
                    ghost y: seq<Byte>, ghost x: seq<Byte>)
    requires |x| == n && |y| == k && dst != src && Holds(src, s, x) && o + k + n <= dst.Length
    requires Holds(dst, 0, front) && |front| == o && Holds(dst, o, y)
    modifies dst
    ensures Holds(dst, 0, front) && Holds(dst, o, y + x)
  {
    Memcpy(dst, o + k, src, s, n, x);
  }

  /** cts_cbc_encrypt. */
  method TailEncrypt(c: Cipher, info: array<Byte>, x: seq<Byte>) returns (err: int, out: seq<Byte>)
    requires Ok(c) && info.Length == c.bsize && |x| <= 2 * c.bsize
    modifies info
    ensures |x| < c.bsize ==> err == -EINVAL && out == [] && info[..] == old(info[..])
    ensures |x| >= c.bsize ==> err == 0 && out == TailEnc(c, old(info[..]), x) && info[..] == out[..c.bsize]
  {
    hide Ok, Enc, Dec, Xor, Zeros, Holds, OnlyWrote;
    var b := c.bsize;
    var lastn := |x| - b;
    if lastn < 0 {
      return -EINVAL, [];
    }
    var s, d := new Byte[2 * b], new Byte[2 * b];
    var iv, tmp, tmp2 := new Byte[b], new Byte[b], new Byte[b];
    TailEncryptIn(c, info, x, s, d, iv, tmp, tmp2, info[..]);
    err, out := 0, d[..|x|];
  }

  /** The message as two blocks, filled up with zeros. */
  method LoadBlocks(s: array<Byte>, b: nat, x: seq<Byte>)
    requires s.Length == 2 * b && b <= |x| <= 2 * b
    modifies s
    ensures Holds(s, 0, x[..b]) && Holds(s, b, x[b..] + Zeros(2 * b - |x|))
  {
    hide Zeros, Holds;
    Load(s, x);
    ghost var full := x + Zeros(2 * b - |x|);
    HoldsFront(s, 0, full, b);
    assert full[..b] == x[..b] && full[b..] == x[b..] + Zeros(2 * b - |x|);
  }

  method TailEncryptIn(c: Cipher, info: array<Byte>, x: seq<Byte>, s: array<Byte>, d: array<Byte>, iv: array<Byte>,
                       tmp: array<Byte>, tmp2: array<Byte>,
                       ghost v: seq<Byte>)
    requires Ok(c) && c.bsize == info.Length == iv.Length == tmp.Length == tmp2.Length && c.bsize <= |x| <= 2 * c.bsize
    requires s.Length == d.Length == 2 * c.bsize && v == info[..] && info != d && info != iv && info != tmp
    requires info != tmp2 && info != s
    requires s != d && s != iv && s != tmp && s != tmp2 && d != iv && d != tmp && d != tmp2 && iv != tmp
    requires iv != tmp2 && tmp != tmp2
    modifies info, s, d, iv, tmp, tmp2
    ensures d[..|x|] == TailEnc(c, v, x) && info[..] == TailEnc(c, v, x)[..c.bsize]
  {
    hide Ok, Enc, Dec, Xor, Zeros, Holds, OnlyWrote;
    var b := c.bsize;
    var lastn := |x| - b;
    ghost var first, last := x[..b], x[b..] + Zeros(b - lastn);
    LoadBlocks(s, b, x);
    HoldsIs(info);
    Memcpy(iv, 0, info, 0, b, v);
    Steal(c, s, d, iv, tmp, tmp2, lastn, first, last, v);
    ghost var e := Enc(c, Xor(v, first));
    ghost var e2 := Enc(c, Xor(e, last));
    HoldsAll(d, e2 + e[..lastn], |x|);
    Memcpy(info, 0, tmp2, 0, b, e2);
    HoldsAll(info, e2, b);
    assert info[..b] == info[..];
  }

  /** The two blocks in `s`: the second one's ciphertext goes first, then what is kept of the first
      one's. */
  method Steal(c: Cipher, s: array<Byte>, d: array<Byte>, iv: array<Byte>, tmp: array<Byte>, tmp2: array<Byte>,
               lastn: nat, ghost first: seq<Byte>, ghost last: seq<Byte>, ghost v: seq<Byte>)
    requires Ok(c) && |first| == |last| == |v| == c.bsize == iv.Length == tmp.Length == tmp2.Length && lastn <= c.bsize
    requires s.Length == d.Length == 2 * c.bsize && Holds(s, 0, first) && Holds(s, c.bsize, last) && Holds(iv, 0, v)
    requires s != d && s != iv && s != tmp && s != tmp2 && d != iv && d != tmp && d != tmp2 && iv != tmp
    requires iv != tmp2 && tmp != tmp2
    modifies d, iv, tmp, tmp2
    ensures var e := Enc(c, Xor(v, first)); var e2 := Enc(c, Xor(e, last));
      Holds(d, 0, e2 + e[..lastn]) && Holds(tmp2, 0, e2)
  {
    hide Ok, Enc, Dec, Xor, Holds, OnlyWrote;
    var b := c.bsize;
    ghost var e := Enc(c, Xor(v, first));
    CbcEncryptBlock(c, s, 0, tmp, 0, iv, first, v);
    HoldsFront(tmp, 0, e, lastn);
    Memcpy(d, b, tmp, 0, lastn, e[..lastn]);
    ghost var e2 := Enc(c, Xor(e, last));
    CbcEncryptBlock(c, s, b, tmp2, 0, tmp, last, e);
    CopyFront(d, tmp2, 0, b, e2, e[..lastn]);
  }

  /** One block through the child cipher with a chaining value of zeros. */
  method DecryptOne(c: Cipher, dst: array<Byte>, src: array<Byte>, s: nat, iv: array<Byte>, ghost x: seq<Byte>)
    requires Ok(c) && |x| == c.bsize == iv.Length && c.bsize <= dst.Length && Holds(src, s, x)
    requires iv != dst && iv != src && dst != src
    modifies dst, iv
    ensures Holds(dst, 0, Dec(c, x)) && OnlyWrote(dst, 0, c.bsize)
  {
    hide Ok, Dec, Xor, Zeros, Holds;
    Put(iv, 0, Zeros(c.bsize));
    CbcDecryptBlock(c, src, s, dst, 0, iv, 0, x, Zeros(c.bsize));
    XorZeros(Dec(c, x));
    XorSelf(Dec(c, x), Zeros(c.bsize));
  }

  /** The last block: decrypted, and masked with the chaining value. */
  method DecryptFirst(c: Cipher, d: array<Byte>, src: array<Byte>, s: nat, iv: array<Byte>, info: array<Byte>,
                      ghost x: seq<Byte>, ghost v: seq<Byte>, ghost rest: seq<Byte>)
    requires Ok(c) && |x| == |v| == c.bsize == iv.Length && Holds(src, s, x) && Holds(info, 0, v)
    requires Holds(d, c.bsize, rest)
    requires iv != d && iv != src && d != src && iv != info && d != info
    modifies d, iv
    ensures Holds(d, 0, Xor(Dec(c, x), v) + rest)
  {
    hide Ok, Dec, Xor;
    DecryptOne(c, d, src, s, iv, x);
    CryptoXor(d, 0, info, 0, c.bsize, Dec(c, x), v);
  }

  /** cts_cbc_decrypt. */
  method TailDecrypt(c: Cipher, info: array<Byte>, y: seq<Byte>) returns (err: int, out: seq<Byte>)
    requires Ok(c) && info.Length == c.bsize && |y| <= 2 * c.bsize
    modifies info
    ensures |y| < c.bsize ==> err == -EINVAL && out == [] && info[..] == old(info[..])
    ensures |y| >= c.bsize ==> err == 0 && out == TailDec(c, old(info[..]), y) && info[..] == y[..c.bsize]
  {
    hide Ok, Enc, Dec, Xor, Zeros, Holds, OnlyWrote;
    var b := c.bsize;
    var lastn := |y| - b;
    if lastn < 0 {
      return -EINVAL, [];
    }
    var s, d := new Byte[2 * b], new Byte[2 * b];
    var iv, tmp := new Byte[b], new Byte[b];
    TailDecryptIn(c, info, y, s, d, iv, tmp, info[..]);
    err, out := 0, d[..|y|];
  }

  method TailDecryptIn(c: Cipher, info: array<Byte>, y: seq<Byte>, s: array<Byte>, d: array<Byte>, iv: array<Byte>,
                       tmp: array<Byte>, ghost v: seq<Byte>)
    requires Ok(c) && c.bsize == info.Length == iv.Length == tmp.Length && c.bsize <= |y| <= 2 * c.bsize
    requires s.Length == d.Length == 2 * c.bsize && v == info[..]
    requires info != d && info != iv && info != tmp && info != s
    requires s != d && s != iv && s != tmp && d != iv && d != tmp && iv != tmp
    modifies info, s, d, iv, tmp
    ensures d[..|y|] == TailDec(c, v, y) && info[..] == y[..c.bsize]
  {
    hide Ok, Enc, Dec, Xor, Zeros, Holds, OnlyWrote;
    var b := c.bsize;
    var lastn := |y| - b;
    ghost var front, cn := y[..b], y[b..];
    Put(s, 0, y);
    HoldsFront(s, 0, y, b);
    ghost var x := Xor(Dec(c, front), cn + Zeros(b - lastn));
    Unmask(c, s, iv, tmp, y, x);
    HoldsFront(tmp, 0, x, lastn);
    Memcpy(d, b, tmp, 0, lastn, x[..lastn]);
    CopyBehind(s, b, lastn, tmp, lastn, b - lastn, front, cn, x[lastn..]);
    HoldsIs(info);
    DecryptFirst(c, d, s, b, iv, info, cn + x[lastn..], v, x[..lastn]);
    HoldsAll(d, Xor(Dec(c, cn + x[lastn..]), v) + x[..lastn], |y|);
    Memcpy(info, 0, s, 0, b, front);
    HoldsAll(info, front, b);
    assert info[..b] == info[..];
  }

  /** The first block, decrypted and masked with the last one, which is filled up with zeros. */
  method Unmask(c: Cipher, s: array<Byte>, iv: array<Byte>, tmp: array<Byte>, y: seq<Byte>, ghost x: seq<Byte>)
    requires Ok(c) && c.bsize == iv.Length == tmp.Length && c.bsize <= |y| <= 2 * c.bsize
    requires Holds(s, 0, y[..c.bsize]) && s != iv && s != tmp && iv != tmp
    requires x == Xor(Dec(c, y[..c.bsize]), y[c.bsize..] + Zeros(2 * c.bsize - |y|))
    modifies iv, tmp
    ensures Holds(tmp, 0, x)
  {
    hide Ok, Enc, Dec, Xor, Zeros, Holds, OnlyWrote;
    var b := c.bsize;
    DecryptOne(c, tmp, s, 0, iv, y[..b]);
    Load(iv, y[b..]);
    CryptoXor(tmp, 0, iv, 0, b, Dec(c, y[..b]), y[b..] + Zeros(2 * b - |y|));
  }

  /** The number of blocks as the templates compute it. */
  lemma {:induction false} FrontIs(b: Size, n: nat)
    ensures var tot := (n + b - 1) / b;
      && (tot == 1 <==> 0 < n <= b) && (tot == 0 <==> n == 0)
      && (n > 2 * b ==> tot > 2 && (tot - 2) * b == Front(b, n))
    decreases n
  {
    hide Left;
    var tot := (n + b - 1) / b;
    if n > b {
      FrontIs(b, n - b);
      Ceiling(b, n);
      var t := (n - b + b - 1) / b;
      assert tot == t + 1 && t >= 1;
      if n > 2 * b {
        assert (t + 1 - 2) * b == (t - 2) * b + b;
        if n - b <= 2 * b {
          CeilingTwo(b, n - b);
        }
      }
    } else if n > 0 {
      DivideIs(b, n + b - 1, 1, n - 1);
    } else {
      DivideIs(b, b - 1, 0, b - 1);
    }
  }

  lemma {:induction false} DivideIs(b: nat, n: nat, q: nat, r: nat)
    requires r < b && n == b * q + r
    ensures n / b == q
  {
    Cancel(b, q, n / b, r, n % b);
  }

  lemma {:induction false} Ceiling(b: Size, n: nat)
    requires n > b
    ensures (n + b - 1) / b == (n - b + b - 1) / b + 1
  {
    var q, r := (n - 1) / b, (n - 1) % b;
    assert n + b - 1 == b * (q + 1) + r;
    DivideIs(b, n + b - 1, q + 1, r);
  }

  lemma {:induction false} CeilingTwo(b: Size, n: nat)
    requires b < n <= 2 * b
    ensures (n + b - 1) / b == 2
  {
    DivideIs(b, n + b - 1, 2, n - b - 1);
  }

  /** tot_blocks, and the bytes of cbc_blocks. */
  method CountBlocks(b: Size, n: nat) returns (tot: nat, k: nat)
    ensures (tot == 1 <==> 0 < n <= b) && (tot == 0 <==> n == 0) && (n > 2 * b ==> k == Front(b, n))
  {
    FrontIs(b, n);
    tot := (n + b - 1) / b;
    k := if tot > 2 then (tot - 2) * b else 0;
  }

  /** crypto_cts_encrypt of the first bytes of `src`. A message shorter than a block is taken to
      be a whole one. */
  method Encrypt(c: Cipher, info: array<Byte>, src: seq<Byte>, nbytes: nat) returns (err: int, out: seq<Byte>)
    requires Ok(c) && info.Length == c.bsize && nbytes <= |src| && (0 < nbytes < c.bsize ==> c.bsize <= |src|)
    modifies info
    ensures nbytes == 0 ==> err == -EINVAL && out == []
    ensures nbytes > 0 ==> err == 0
    ensures nbytes > 0 ==> var x := src[..if nbytes < c.bsize then c.bsize else nbytes];
      out == CtsEnc(c, old(info[..]), x) && info[..] == LastBlock(c.bsize, out)
  {
    hide Ok, CbcEnc, CbcEncIv, TailEnc, Front, Left, CtsEnc, LastBlock;
    var b := c.bsize;
    var tot, k := CountBlocks(b, nbytes);
    if tot == 1 {
      OneBlock(c, info[..], src[..b]);
      out := CbcEnc(c, info[..], src[..b]);
      Put(info, 0, CbcEncIv(c, info[..], src[..b]));
      err := 0;
      assert info[..] == info[0..b];
    } else if nbytes <= 2 * b {
      FrontNone(b, nbytes);
      err, out := TailEncrypt(c, info, src[..nbytes]);
      if nbytes > 0 {
        EncNoFront(c, old(info[..]), src[..nbytes]);
      }
    } else {
      var x := src[..nbytes];
      FrontFits(b, nbytes);
      var front, v := CbcEnc(c, info[..], x[..k]), CbcEncIv(c, info[..], x[..k]);
      Put(info, 0, v);
      assert info[..] == v;
      var tail;
      err, tail := TailEncrypt(c, info, x[k..]);
      out := front + tail;
      EncParts(c, old(info[..]), x);
    }
  }

  lemma {:induction false} FrontNone(b: Size, n: nat)
    requires n <= 2 * b
    ensures Front(b, n) == 0
  {
  }

  lemma {:induction false} FrontFits(b: Size, n: nat)
    requires n > 2 * b
    ensures var k := Front(b, n); k <= n && b < n - k <= 2 * b && Left(b, k) == 0
  {
  }

  lemma {:induction false} OneBlock(c: Cipher, iv: seq<Byte>, x: seq<Byte>)
    requires Ok(c) && |iv| == |x| == c.bsize
    ensures CtsEnc(c, iv, x) == CbcEnc(c, iv, x) == CbcEncIv(c, iv, x) == LastBlock(c.bsize, CtsEnc(c, iv, x))
    ensures CtsDec(c, iv, x) == CbcDec(c, iv, x) && CbcDecIv(c, iv, x) == x == LastBlock(c.bsize, x)
  {
    hide Ok, Enc, Dec, Xor, CbcEnc, CbcEncIv, CbcDec, CbcDecIv;
    LeftStep(c.bsize, c.bsize);
    LeftStep(c.bsize, 0);
    CbcEncUnfold(c, iv, x);
    CbcEncUnfold(c, Enc(c, Xor(iv, x[..c.bsize])), x[c.bsize..]);
    CbcDecUnfold(c, iv, x);
    CbcDecUnfold(c, x[..c.bsize], x[c.bsize..]);
    assert x[..c.bsize] == x;
  }

  lemma {:induction false} EncParts(c: Cipher, iv: seq<Byte>, x: seq<Byte>)
    requires Ok(c) && |iv| == c.bsize && |x| > 2 * c.bsize
    ensures var k := Front(c.bsize, |x|);
      k <= |x| && c.bsize < |x| - k <= 2 * c.bsize
    ensures var k := Front(c.bsize, |x|);
      var e, d := TailEnc(c, CbcEncIv(c, iv, x[..k]), x[k..]), TailDec(c, CbcDecIv(c, iv, x[..k]), x[k..]);
      && CtsEnc(c, iv, x) == CbcEnc(c, iv, x[..k]) + e && LastBlock(c.bsize, CtsEnc(c, iv, x)) == e[..c.bsize]
      && CtsDec(c, iv, x) == CbcDec(c, iv, x[..k]) + d && LastBlock(c.bsize, x) == x[k..][..c.bsize]
  {
    hide Ok, Enc, Dec, Xor, CbcEnc, CbcEncIv, CbcDec, CbcDecIv, TailEnc, TailDec, Left;
  }

  lemma {:induction false} EncNoFront(c: Cipher, iv: seq<Byte>, x: seq<Byte>)
    requires Ok(c) && |iv| == c.bsize < |x| <= 2 * c.bsize
    ensures CtsEnc(c, iv, x) == TailEnc(c, iv, x)
    ensures LastBlock(c.bsize, CtsEnc(c, iv, x)) == TailEnc(c, iv, x)[..c.bsize]
    ensures CtsDec(c, iv, x) == TailDec(c, iv, x) && LastBlock(c.bsize, x) == x[..c.bsize]
  {
    hide Ok, Enc, Dec, Xor, CbcEnc, CbcEncIv, CbcDec, CbcDecIv, TailEnc, TailDec;
    FrontNone(c.bsize, |x|);
    assert x[..0] == [] && x[0..] == x;
    CbcEncUnfold(c, iv, []);
    CbcDecUnfold(c, iv, []);
  }

  /** crypto_cts_decrypt. */
  method Decrypt(c: Cipher, info: array<Byte>, src: seq<Byte>, nbytes: nat) returns (err: int, out: seq<Byte>)
    requires Ok(c) && info.Length == c.bsize && nbytes <= |src| && (0 < nbytes < c.bsize ==> c.bsize <= |src|)
    modifies info
    ensures nbytes == 0 ==> err == -EINVAL && out == []
    ensures nbytes > 0 ==> err == 0
    ensures nbytes > 0 ==> var y := src[..if nbytes < c.bsize then c.bsize else nbytes];
      out == CtsDec(c, old(info[..]), y) && info[..] == LastBlock(c.bsize, y)
  {
    hide Ok, CbcDec, CbcDecIv, TailDec, Front, Left, CtsDec, LastBlock;
    var b := c.bsize;
    var tot, k := CountBlocks(b, nbytes);
    if tot == 1 {
      OneBlock(c, info[..], src[..b]);
      out := CbcDec(c, info[..], src[..b]);
      Put(info, 0, CbcDecIv(c, info[..], src[..b]));
      err := 0;
      assert info[..] == info[0..b];
    } else if nbytes <= 2 * b {
      FrontNone(b, nbytes);
      err, out := TailDecrypt(c, info, src[..nbytes]);
      if nbytes > 0 {
        EncNoFront(c, old(info[..]), src[..nbytes]);
      }
    } else {
      var y := src[..nbytes];
      FrontFits(b, nbytes);
      var front, v := CbcDec(c, info[..], y[..k]), CbcDecIv(c, info[..], y[..k]);
      Put(info, 0, v);
      assert info[..] == v;
      var tail;
      err, tail := TailDecrypt(c, info, y[k..]);
      out := front + tail;
      EncParts(c, old(info[..]), y);
    }
  }
}
