/**
  The ccm template. The MAC is computed in place over data that comes in pieces of any size; the
  counter mode pass is the flat one of the ctr template.
*/
module Ccm {
  import opened ModeSpec
  import opened ModeBlocks
  import opened CcmSpec

  const EINVAL := 22
  const EBADMSG := 74
  const EOVERFLOW := 75

  // ---------------------------------------------------------------------------
  // CBC-MAC in pieces
  // ---------------------------------------------------------------------------

  /** What is left of the data after its whole blocks. */
  function Rest(x: seq<Byte>): (r: seq<Byte>)
    ensures |r| == Left(16, |x|)
  {
    x[|x| - Left(16, |x|)..]
  }

  lemma {:induction false} RestSlice(y: seq<Byte>, m: nat)
    requires m == |y| - Left(16, |y|)
    ensures y[m..|y|] == Rest(y)
  {
    assert y[m..|y|] == y[m..];
  }

  /** The MAC over two pieces, the rest of the first put before the second. */
  lemma {:induction false} MacCompose(c: Cipher, o: seq<Byte>, x: seq<Byte>, y: seq<Byte>)
    requires Ok(c) && |o| == c.bsize == 16
    ensures CbcEncIv(c, CbcEncIv(c, o, x), Rest(x) + y) == CbcEncIv(c, o, x + y)
    ensures Rest(Rest(x) + y) == Rest(x + y)
  {
    hide Ok, Enc, Xor, CbcEnc, CbcEncIv, Left;
    var k := |x| - Left(16, |x|);
    WholeBlocks(16, |x|);
    EncWhole(c, o, x);
    var z := x + y;
    assert z[..k] == x[..k] && z[k..] == Rest(x) + y;
    CbcEncSplit(c, o, z, k);
    LeftMinus(16, |z|, k);
  }

  /** The padded rest as one more block. */
  lemma {:induction false} MacPad(c: Cipher, o: seq<Byte>, x: seq<Byte>)
    requires Ok(c) && |o| == c.bsize == 16
    ensures var r := Rest(x); var m := CbcEncIv(c, o, x);
      CbcEncIv(c, o, Pad(x)) == if r == [] then m else Enc(c, Xor(m, r + Zeros(16 - |r|)))
  {
    hide Ok, Enc, Xor, CbcEnc, CbcEncIv, Left;
    var r, k := Rest(x), |x| - Left(16, |x|);
    if r != [] {
      var z, last := Pad(x), r + Zeros(16 - |r|);
      WholeBlocks(16, |x|);
      EncWhole(c, o, x);
      assert z[..k] == x[..k] && z[k..] == last && last[..16] == last && last[16..] == [];
      CbcEncSplit(c, o, z, k);
      CbcEncUnfold(c, CbcEncIv(c, o, x), last);
      CbcEncUnfold(c, Enc(c, Xor(CbcEncIv(c, o, x), last)), []);
    }
  }

  lemma {:induction false} MacStep(c: Cipher, o: seq<Byte>, x: seq<Byte>)
    requires Ok(c) && |o| == c.bsize == 16
    ensures |x| < 16 ==> CbcEncIv(c, o, x) == o && Rest(x) == x
    ensures |x| >= 16 ==> CbcEncIv(c, o, x) == CbcEncIv(c, Enc(c, Xor(o, x[..16])), x[16..]) && Rest(x) == Rest(x[16..])
  {
    hide Ok, Enc, Xor, CbcEnc, CbcEncIv, Left;
    CbcEncUnfold(c, o, x);
    LeftStep(16, |x|);
  }

  // ---------------------------------------------------------------------------
  // The buffer bound
  // ---------------------------------------------------------------------------

  const INT_LIMIT := 0x8000_0000
  const SIZE_LIMIT := 0x1_0000_0000_0000_0000

  /** `getlen` and `padlen`: 16 - ilen, computed on 32 bits without sign and stored as an int. */
  function Room(ilen: nat): (r: int)
    requires ilen < UINT_LIMIT
    ensures ilen <= 16 ==> r == 16 - ilen
    ensures ilen > 16 ==> r < 0 || r > 16
  {
    var u := if ilen <= 16 then 16 - ilen else UINT_LIMIT + 16 - ilen;
    if u < INT_LIMIT then u else u - UINT_LIMIT
  }

  /** An int as the size of a copy. */
  function Size(n: int): (r: nat)
    requires -INT_LIMIT <= n < INT_LIMIT
    ensures n >= 0 ==> r == n
    ensures n < 0 ==> r > UINT_LIMIT
  {
    if n >= 0 then n else SIZE_LIMIT + n
  }

  /** compute_mac writes behind the sixteen bytes of idata. */
  predicate MacOverruns(ilen: nat, n: nat)
    requires ilen < UINT_LIMIT
  {
    if n >= Room(ilen) then ilen + Size(Room(ilen)) > 16 else Left(16, n) > 0 && ilen + Left(16, n) > 16
  }

  /** What compute_mac leaves in ilen when it stays inside. */
  function MacIlen(ilen: nat, n: nat): (r: nat)
    requires ilen < UINT_LIMIT && !MacOverruns(ilen, n)
    ensures r < UINT_LIMIT
  {
    if n >= Room(ilen) then Left(16, n - Room(ilen)) else ilen + Left(16, n)
  }

  /** get_data_to_compute over pieces of the lengths `ns` writes behind idata somewhere, the padding
      included. */
  predicate DataOverruns(ilen: nat, ns: seq<nat>)
    requires ilen < UINT_LIMIT
    decreases |ns|
  {
    if ns == [] then ilen > 0 && ilen + Size(Room(ilen)) > 16
    else MacOverruns(ilen, ns[0]) || DataOverruns(MacIlen(ilen, ns[0]), ns[1..])
  }

  /** It stays inside exactly when at most sixteen bytes are pending, in whatever pieces the data
      comes. */
  lemma {:induction false} PendingBound(ilen: nat, ns: seq<nat>)
    requires ilen < UINT_LIMIT
    ensures DataOverruns(ilen, ns) <==> ilen > 16
    decreases |ns|
  {
    if ns != [] && !MacOverruns(ilen, ns[0]) {
      PendingBound(MacIlen(ilen, ns[0]), ns[1..]);
      if ilen <= 16 && ns[0] < Room(ilen) {
        LeftStep(16, ns[0]);
      }
    }
  }

  // ---------------------------------------------------------------------------
  // The MAC
  // ---------------------------------------------------------------------------

  class Mac {
    const odata: array<Byte>
    const idata: array<Byte>
    var ilen: nat

    constructor ()
      ensures Shape() && fresh(odata) && fresh(idata)
    {
      odata := new Byte[16];
      idata := new Byte[16];
    }

    ghost predicate Shape() {
      odata.Length == idata.Length == 16 && odata != idata
    }

    /** `pend` waits to be absorbed. The code leaves less than a block there; it can find a block
        there, but no more. */
    ghost predicate Pending(pend: seq<Byte>)
      reads this, idata
    {
      ilen == |pend| <= 16 && Holds(idata, 0, pend)
    }

    /** The MAC so far is `o`, and `pend` waits to be absorbed. */
    ghost predicate At(o: seq<Byte>, pend: seq<Byte>)
      reads this, odata, idata
    {
      Shape() && |o| == 16 && Holds(odata, 0, o) && Pending(pend)
    }

    /** One block into the MAC. */
    method Absorb(c: Cipher, data: array<Byte>, s: nat, ghost o: seq<Byte>, ghost x: seq<Byte>)
      requires Ok(c) && c.bsize == 16 == |x| == |o| && odata.Length == 16 && data != odata
      requires Holds(odata, 0, o) && Holds(data, s, x)
      modifies odata
      ensures Holds(odata, 0, Enc(c, Xor(o, x)))
    {
      hide Ok, Enc, Xor;
      CryptoXor(odata, 0, data, s, 16, o, x);
      Encipher(c, odata, 0, odata, 0, Xor(o, x));
    }

    /** The whole blocks of `rest`, the data from `s` on. */
    method AbsorbAll(c: Cipher, data: array<Byte>, s: nat, n: nat, ghost o: seq<Byte>,
                     ghost x: seq<Byte>) returns (k: nat)
      requires Ok(c) && c.bsize == 16 == |o| && n == |x| && odata.Length == 16 && data != odata
      requires Holds(odata, 0, o) && Holds(data, s, x)
      modifies odata
      ensures k == n - Left(16, n) && Holds(odata, 0, CbcEncIv(c, o, x))
    {
      hide Ok, Enc, Xor, CbcEncIv, Left, Holds;
      k := 0;
      ghost var o', x' := o, x;
      while n - k >= 16
        invariant k + |x'| == n && |o'| == 16 && CbcEncIv(c, o', x') == CbcEncIv(c, o, x)
        invariant Left(16, |x'|) == Left(16, n)
        invariant Holds(odata, 0, o') && Holds(data, s + k, x')
      {
        MacStep(c, o', x');
        HoldsSlice(data, s + k, x', 0, 16);
        HoldsSlice(data, s + k, x', 16, |x'|);
        assert x'[0..16] == x'[..16] && x'[16..|x'|] == x'[16..];
        Absorb(c, data, s + k, o', x'[..16]);
        LeftStep(16, |x'|);
        o', x' := Enc(c, Xor(o', x'[..16])), x'[16..];
        k := k + 16;
      }
      MacStep(c, o', x');
      LeftStep(16, |x'|);
    }

    /** Append to the block that is not full. */
    method Append(data: array<Byte>, s: nat, n: nat, ghost pend: seq<Byte>, ghost x: seq<Byte>)
      requires ilen == |pend| && n == |x| && |pend| + n <= 16 == idata.Length && data != idata
      requires Holds(idata, 0, pend) && Holds(data, s, x)
      modifies idata
      ensures Holds(idata, 0, pend + x)
    {
      Memcpy(idata, ilen, data, s, n, x);
    }

    /** compute_mac. */
    method ComputeMac(c: Cipher, data: array<Byte>, s: nat, n: nat, ghost o: seq<Byte>, ghost pend: seq<Byte>,
                      ghost x: seq<Byte>)
      requires Ok(c) && c.bsize == 16 && At(o, pend) && n == |x| && Holds(data, s, x) && data != odata && data != idata
      modifies this`ilen, odata, idata
      ensures At(CbcEncIv(c, o, pend + x), Rest(pend + x))
    {
      hide Ok, Enc, Xor, CbcEncIv, Left, Holds;
      var k := 0;
      ghost var o', y, z := o, x, pend + x;
      var getlen := 16 - ilen;
      if n >= getlen {
        HoldsSlice(data, s, x, 0, getlen);
        HoldsSlice(data, s, x, getlen, n);
        assert x[0..getlen] == x[..getlen] && x[getlen..n] == x[getlen..];
        ghost var block := pend + x[..getlen];
        Append(data, s, getlen, pend, x[..getlen]);
        Absorb(c, idata, 0, o, block);
        assert block == z[..16] && x[getlen..] == z[16..];
        MacStep(c, o, z);
        o', y := Enc(c, Xor(o, block)), x[getlen..];
        ilen, k := 0, getlen;
        var m := AbsorbAll(c, data, s + k, n - k, o', y);
        HoldsSlice(data, s + k, y, m, n - k);
        RestSlice(y, m);
        HoldsNothing(idata, 0);
        Append(data, s + k + m, n - k - m, [], Rest(y));
        assert [] + Rest(y) == Rest(y);
        ilen := n - k - m;
      } else {
        MacStep(c, o, z);
        Append(data, s, n, pend, x);
        ilen := ilen + n;
      }
    }

    /** The end of get_data_to_compute: an unfinished block is filled with zeros. */
    method Flush(c: Cipher, ghost o: seq<Byte>, ghost pend: seq<Byte>)
      requires Ok(c) && c.bsize == 16 == |o| && At(o, pend)
      modifies this`ilen, odata, idata
      ensures At(CbcEncIv(c, o, Pad(pend)), [])
    {
      hide Ok, Enc, Xor, CbcEncIv, Left, Holds, Pad;
      MacLast(c, o, pend);
      HoldsNothing(idata, 0);
      if ilen > 0 {
        var pad := new Byte[16](_ => 0);
        assert Holds(pad, 0, Zeros(16 - ilen)) by { HoldsZeros(pad, 16 - ilen); }
        Append(pad, 0, 16 - ilen, pend, Zeros(16 - ilen));
        Absorb(c, idata, 0, o, pend + Zeros(16 - ilen));
        HoldsNothing(idata, 0);
        ilen := 0;
      }
    }

    /** get_data_to_compute; `run` says how many bytes are mapped at a position. */
    method GetData(c: Cipher, data: array<Byte>, run: nat -> nat, ghost o: seq<Byte>, ghost pend: seq<Byte>)
      requires Ok(c) && c.bsize == 16 && At(o, pend) && data != odata && data != idata
      requires forall i :: 0 <= i < data.Length ==> 1 <= run(i)
      modifies this`ilen, odata, idata
      ensures At(CbcEncIv(c, o, Pad(pend + data[..])), [])
    {
      hide Ok, Enc, Xor, CbcEncIv, Left, Holds, Pad;
      ghost var x := data[..];
      var k := 0;
      ghost var o', pend' := o, pend;
      assert pend + x[..0] == pend;
      HoldsArray(data);
      while k < data.Length
        invariant k <= data.Length && At(o', pend')
        invariant Absorbed(c, o, pend + x[..k], o', pend')
      {
        var n := if run(k) < data.Length - k then run(k) else data.Length - k;
        HoldsSlice(data, 0, x, k, k + n);
        ComputeMac(c, data, k, n, o', pend', x[k..k + n]);
        AbsorbMore(c, o, pend + x[..k], o', pend', x[k..k + n]);
        assert pend + x[..k] + x[k..k + n] == pend + x[..k + n];
        o', pend' := CbcEncIv(c, o', pend' + x[k..k + n]), Rest(pend' + x[k..k + n]);
        k := k + n;
      }
      assert x[..k] == x;
      AbsorbPad(c, o, pend + x, o', pend');
      Flush(c, o', pend');
    }
  }

  /** Of `x` the MAC has taken the whole blocks and has the rest pending; or nothing has been taken
      yet. */
  ghost predicate Absorbed(c: Cipher, o: seq<Byte>, x: seq<Byte>, o': seq<Byte>, pend: seq<Byte>)
    requires Ok(c) && |o| == c.bsize == 16
  {
    (o' == o && pend == x) || (o' == CbcEncIv(c, o, x) && pend == Rest(x))
  }

  lemma {:induction false} AbsorbMore(c: Cipher, o: seq<Byte>, x: seq<Byte>, o': seq<Byte>, pend: seq<Byte>,
                                      y: seq<Byte>)
    requires Ok(c) && |o| == c.bsize == 16 && Absorbed(c, o, x, o', pend) && |o'| == 16
    ensures Absorbed(c, o, x + y, CbcEncIv(c, o', pend + y), Rest(pend + y))
  {
    hide Ok, CbcEncIv, Left;
    MacCompose(c, o, x, y);
  }

  lemma {:induction false} AbsorbPad(c: Cipher, o: seq<Byte>, x: seq<Byte>, o': seq<Byte>, pend: seq<Byte>)
    requires Ok(c) && |o| == c.bsize == 16 && Absorbed(c, o, x, o', pend) && |o'| == 16
    ensures CbcEncIv(c, o', Pad(pend)) == CbcEncIv(c, o, Pad(x))
  {
    hide Ok, Enc, Xor, CbcEncIv, Left, Pad;
    if !(o' == o && pend == x) {
      MacPad(c, o, x);
      WholeBlocks(16, |x|);
      MacLast(c, o', pend);
    }
  }

  /** A last block, padded. */
  lemma {:induction false} MacLast(c: Cipher, o: seq<Byte>, pend: seq<Byte>)
    requires Ok(c) && |o| == c.bsize == 16 && |pend| <= 16
    ensures CbcEncIv(c, o, Pad(pend)) == if pend == [] then o else Enc(c, Xor(o, pend + Zeros(16 - |pend|)))
  {
    hide Ok, Enc, Xor, CbcEncIv, Left;
    LeftStep(16, |pend|);
    LeftStep(16, 0);
    var z := Pad(pend);
    CbcEncUnfold(c, o, z);
    if pend != [] {
      assert z == pend + Zeros(16 - |pend|) && z[..16] == z && z[16..] == [];
      CbcEncUnfold(c, Enc(c, Xor(o, z)), []);
    }
  }

  lemma {:induction false} HoldsZeros(a: array<Byte>, n: nat)
    requires n <= a.Length && forall i :: 0 <= i < a.Length ==> a[i] == 0
    ensures Holds(a, 0, Zeros(n))
  {
  }

  lemma {:induction false} HoldsArray(a: array<Byte>)
    ensures Holds(a, 0, a[..])
  {
  }

  // ---------------------------------------------------------------------------
  // Formatting
  // ---------------------------------------------------------------------------

  lemma {:induction false} DigitsSuffix(m: nat, n: nat, v: nat)
    requires n <= m
    ensures Digits(m, v)[m - n..] == Digits(n, v)
  {
    if n > 0 {
      DigitsSuffix(m - 1, n - 1, v / 256);
    }
  }

  /** set_msg_len. */
  method SetMsgLen(block: array<Byte>, o: nat, msglen: nat, csize: nat) returns (err: int)
    requires Within(block, o, csize) && 0 < csize
    modifies block
    ensures err == if LengthAccepted(msglen, csize) then 0 else -EOVERFLOW
    ensures OnlyWrote(block, o, csize) && (err == 0 ==> Holds(block, o, LengthField(msglen, csize)))
  {
    hide Pow, Digits, LengthField;
    Put(block, o, Zeros(csize));
    var n := csize;
    if csize >= 4 {
      n := 4;
    } else if msglen > Pow(csize) {
      return -EOVERFLOW;
    }
    ghost var x := Digits(4, msglen)[4 - n..];
    FieldParts(msglen, csize);
    Put(block, o + csize - n, Digits(4, msglen)[4 - n..]);
    assert Holds(block, o, Zeros(csize - n));
    HoldsJoin(block, o, Zeros(csize - n), x);
    return 0;
  }

  lemma {:induction false} FieldParts(msglen: nat, csize: nat)
    ensures var n := if csize >= 4 then 4 else csize;
      Zeros(csize - n) + Digits(4, msglen)[4 - n..] == LengthField(msglen, csize)
  {
    hide Digits;
    DigitsSuffix(4, if csize >= 4 then 4 else csize, msglen);
  }

  /** format_input. */
  method FormatInput(info: array<Byte>, iv: array<Byte>, m: nat, a: nat, n: nat) returns (err: int)
    requires info.Length == iv.Length == 16 && info != iv && IvOk(iv[..]) && TagSizeOk(m)
    modifies info
    ensures err == if LengthAccepted(n, iv[0] + 1) then 0 else -EOVERFLOW
    ensures err == 0 ==> Holds(info, 0, B0(iv[..], m, a, n))
  {
    hide LengthField, LengthAccepted;
    ghost var v := iv[..];
    Memcpy(info, 0, iv, 0, 16, v);
    info[0] := info[0] + 8 * ((m - 2) / 2);
    if a > 0 {
      info[0] := info[0] + 64;
    }
    err := SetMsgLen(info, 15 - iv[0], n, iv[0] + 1);
  }

  /** format_adata. */
  method FormatAdata(adata: array<Byte>, a: nat) returns (len: nat)
    requires adata.Length == 16
    modifies adata
    ensures len == |AdataField(a)| <= 6 && Holds(adata, 0, AdataField(a))
  {
    hide Digits;
    if a < 65280 {
      Put(adata, 0, Digits(2, a));
      len := 2;
    } else {
      Put(adata, 0, Digits(2, 0xfffe));
      Put(adata, 2, Digits(4, a));
      len := 6;
    }
  }

  // ---------------------------------------------------------------------------
  // Authentication
  // ---------------------------------------------------------------------------

  /** CBC-MAC of whole blocks. */
  function CbcMac(c: Cipher, x: seq<Byte>): (r: seq<Byte>)
    requires Ok(c) && c.bsize == 16
    ensures |r| == 16
  {
    CbcEncIv(c, Zeros(16), x)
  }

  /** The tag before it is masked. */
  function Tag(c: Cipher, iv: seq<Byte>, m: nat, a: seq<Byte>, p: seq<Byte>): (r: seq<Byte>)
    requires Ok(c) && c.bsize == 16 && IvOk(iv) && TagSizeOk(m)
    ensures |r| == 16
  {
    CbcMac(c, Format(iv, m, a, p))
  }

  /** The MAC goes on where it was over whole blocks. */
  lemma {:induction false} MacFollows(c: Cipher, o: seq<Byte>, x: seq<Byte>, y: seq<Byte>)
    requires Ok(c) && |o| == c.bsize == 16 && Left(16, |x|) == 0
    ensures CbcEncIv(c, CbcEncIv(c, o, x), y) == CbcEncIv(c, o, x + y)
  {
    hide Ok, Enc, Xor, CbcEncIv, Left;
    CbcEncSplit(c, o, x + y, |x|);
    assert (x + y)[..|x|] == x && (x + y)[|x|..] == y;
  }

  lemma {:induction false} FirstBlock(c: Cipher, b: seq<Byte>)
    requires Ok(c) && c.bsize == 16 == |b|
    ensures Enc(c, b) == CbcMac(c, b)
  {
    hide Ok, Enc, Xor, CbcEncIv, Left;
    XorZeros(b);
    CbcEncUnfold(c, Zeros(16), b);
    assert b[..16] == b && b[16..] == [];
    CbcEncUnfold(c, Enc(c, b), []);
  }

  lemma {:induction false} PadWhole(x: seq<Byte>)
    ensures Left(16, |Pad(x)|) == 0
  {
    var k := Left(16, |x|);
    WholeBlocks(16, |x|);
    if k > 0 {
      LeftPlus(16, |x| - k, 16);
    }
  }

  /** crypto_ccm_auth. Without associated data it starts from whatever the request context has
      pending, up to a block of it. */
  method Auth(c: Cipher, mac: Mac, iv: array<Byte>, m: nat, assoc: array<Byte>, aRun: nat -> nat,
              plain: array<Byte>, pRun: nat -> nat, ghost pend: seq<Byte>)
    returns (err: int)
    requires Ok(c) && c.bsize == 16 && iv.Length == 16 && IvOk(iv[..]) && TagSizeOk(m)
    requires mac.Shape() && (assoc.Length == 0 ==> mac.Pending(pend))
    requires {mac.odata, mac.idata} !! {iv, assoc, plain}
    requires forall i :: 0 <= i < assoc.Length ==> 1 <= aRun(i)
    requires forall i :: 0 <= i < plain.Length ==> 1 <= pRun(i)
    modifies mac`ilen, mac.odata, mac.idata
    ensures err == if LengthAccepted(plain.Length, L(iv[..])) then 0 else -EOVERFLOW
    ensures err == 0 ==> mac.At(CbcMac(c, Authenticated(iv[..], m, assoc[..], pend, plain[..])), [])
  {
    hide Ok, Enc, Xor, CbcEncIv, Left, Holds, Pad, B0, AdataField, CbcMac, LengthAccepted;
    err := FormatInput(mac.odata, iv, m, assoc.Length, plain.Length);
    if err != 0 {
      return;
    }
    ghost var b := B0(iv[..], m, assoc.Length, plain.Length);
    Encipher(c, mac.odata, 0, mac.odata, 0, b);
    FirstBlock(c, b);
    ghost var x, wait := b, pend;
    LeftStep(16, 16);
    LeftStep(16, 0);
    if assoc.Length > 0 {
      mac.ilen := FormatAdata(mac.idata, assoc.Length);
      ghost var f := AdataField(assoc.Length);
      mac.GetData(c, assoc, aRun, CbcMac(c, b), f);
      MacMore(c, b, Pad(f + assoc[..]));
      PadWhole(f + assoc[..]);
      LeftPlus(16, |b|, |Pad(f + assoc[..])|);
      x, wait := b + Pad(f + assoc[..]), [];
    }
    assert x == b + Adata(assoc[..]);
    mac.GetData(c, plain, pRun, CbcMac(c, x), wait);
    MacMore(c, x, Pad(wait + plain[..]));
  }

  lemma {:induction false} MacMore(c: Cipher, x: seq<Byte>, y: seq<Byte>)
    requires Ok(c) && c.bsize == 16 && Left(16, |x|) == 0
    ensures CbcEncIv(c, CbcMac(c, x), y) == CbcMac(c, x + y)
  {
    hide Ok, CbcEncIv, Left;
    MacFollows(c, Zeros(16), x, y);
  }

  // ---------------------------------------------------------------------------
  // The counter
  // ---------------------------------------------------------------------------

  /** The counter block with counter zero. */
  function Counter0(iv: seq<Byte>): (r: seq<Byte>)
    requires IvOk(iv)
    ensures |r| == 16 && r[..16 - L(iv)] == iv[..16 - L(iv)]
  {
    iv[..16 - L(iv)] + Zeros(L(iv))
  }

  /** How many counter blocks `n` bytes take. */
  function Blocks(n: nat): nat {
    if n == 0 then 0 else if n < 16 then 1 else 1 + Blocks(n - 16)
  }

  lemma {:induction false} BlocksBound(n: nat)
    ensures 16 * Blocks(n) <= n + 15
  {
    if n >= 16 {
      BlocksBound(n - 16);
    }
  }

  lemma {:induction false} CtrNextIsCounter(c: Cipher, v: seq<Byte>, n: nat)
    requires c.bsize == 16 == |v|
    ensures CtrNext(c, v, n) == CounterAt(v, Blocks(n))
    decreases n
  {
    hide Inc, CounterAt;
    CounterSteps(v, 0);
    if n >= 16 {
      CtrNextIsCounter(c, Inc(v), n - 16);
      CounterSteps(v, Blocks(n - 16));
    } else if n > 0 {
      CounterSteps(Inc(v), 0);
    }
  }

  /** A counter that stays below its limit leaves the bytes before it alone. */
  lemma {:induction false} NoCarry(s: seq<Byte>, t: seq<Byte>, j: nat)
    requires Num(t) + j < Pow(|t|)
    ensures CounterAt(s + t, j) == s + Digits(|t|, Num(t) + j)
  {
    hide Num, Pow, Digits;
    var r := s + Digits(|t|, Num(t) + j);
    NumConcat(s, t);
    NumConcat(s, Digits(|t|, Num(t) + j));
    SmallDigits(|t|, Num(t) + j);
    NumRange(r);
    SmallRemainder(Num(r), Pow(|r|), Num(r));
    NumUnique(r, Num(s + t) + j);
  }

  /** A counter that passes its limit once adds one to the bytes before it. */
  lemma {:induction false} Carry(s: seq<Byte>, t: seq<Byte>, j: nat)
    requires Pow(|t|) <= Num(t) + j < 2 * Pow(|t|) && Num(s) + 1 < Pow(|s|)
    ensures CounterAt(s + t, j) == Inc(s) + Digits(|t|, Num(t) + j - Pow(|t|))
  {
    hide Num, Pow, Digits, Inc;
    var v := Num(t) + j - Pow(|t|);
    var r := Inc(s) + Digits(|t|, v);
    NumConcat(s, t);
    NumConcat(Inc(s), Digits(|t|, v));
    IncValue(s);
    SmallDigits(|t|, v);
    NumRange(r);
    assert Num(r) == Num(s + t) + j;
    SmallRemainder(Num(r), Pow(|r|), Num(r));
    NumUnique(r, Num(s + t) + j);
  }

  lemma {:induction false} IncByte(b: Byte)
    requires b < 255
    ensures Num([b]) == b && Pow(1) == 256 && Inc([b]) == [b + 1]
  {
    assert [b][..0] == [];
    assert Num([b]) == b;
    assert Digits(1, b + 1) == [b + 1];
  }

  /** The length of the counter after `j` blocks: it is one more when the bytes behind the first
      run over. */
  lemma {:induction false} FirstByte(v: seq<Byte>, j: nat)
    requires |v| == 16 && v[0] < 255 && j <= Pow(15)
    ensures CounterAt(v, j)[0] == v[0] + if Num(v[1..]) + j >= Pow(15) then 1 else 0
  {
    hide Num, Pow, Digits, Inc, CounterAt;
    var s, t := [v[0]], v[1..];
    assert v == s + t;
    NumRange(t);
    IncByte(v[0]);
    if Num(t) + j >= Pow(15) {
      Carry(s, t, j);
    } else {
      NoCarry(s, t, j);
    }
  }

  /** How many blocks a pass can take, and which counters it can overrun. */
  lemma {:induction false} PassBlocks(n: nat, l: nat)
    requires n < UINT_LIMIT && l >= 2
    ensures Blocks(16 + n) < Pow(15) && (l >= 4 ==> Blocks(16 + n) < Pow(l))
    ensures LengthAccepted(n, l) ==> Blocks(16 + n) < Pow(l)
  {
    hide Pow;
    BlocksBound(16 + n);
    PowFour();
    PowGrows(4, 15);
    PowGrows(if l < 4 then 2 else 4, l);
  }

  /** The counter block after the pass over tag and message is again well formed; its first byte is
      as before, or one more when everything behind it ran over. */
  lemma {:induction false} PassForm(c: Cipher, iv: seq<Byte>, n: nat)
    requires c.bsize == 16 && IvOk(iv) && n < UINT_LIMIT
    ensures var v, r := Counter0(iv), CtrNext(c, Counter0(iv), 16 + n);
      IvOk(r) && L(r) == L(iv) + if Num(v[1..]) + Blocks(16 + n) >= Pow(15) then 1 else 0
  {
    hide Pow, Num, CounterAt, CtrNext;
    var v := Counter0(iv);
    CtrNextIsCounter(c, v, 16 + n);
    PassBlocks(n, L(iv));
    assert v[0] == v[..16 - L(iv)][0] == iv[0];
    FirstByte(v, Blocks(16 + n));
    if L(iv) >= 4 {
      NoCarryPass(c, iv, n);
    }
  }

  lemma {:induction false} NoCarryPass(c: Cipher, iv: seq<Byte>, n: nat)
    requires c.bsize == 16 && IvOk(iv) && Blocks(16 + n) < Pow(L(iv))
    ensures CtrNext(c, Counter0(iv), 16 + n)[..16 - L(iv)] == iv[..16 - L(iv)]
    ensures CtrNext(c, Counter0(iv), 16 + n)[0] == iv[0]
  {
    hide Pow, Digits, Num, CounterAt, CtrNext;
    var l := L(iv);
    CtrNextIsCounter(c, Counter0(iv), 16 + n);
    ZerosValue(l);
    NoCarry(iv[..16 - l], Zeros(l), Blocks(16 + n));
    var r := CtrNext(c, Counter0(iv), 16 + n);
    assert r[..16 - l][0] == r[0] && iv[..16 - l][0] == iv[0];
  }

  /** The pass leaves the first byte and the nonce alone exactly when its blocks fit the counter. */
  lemma {:induction false} PassExact(c: Cipher, iv: seq<Byte>, n: nat)
    requires c.bsize == 16 && IvOk(iv) && n < UINT_LIMIT
    ensures CtrNext(c, Counter0(iv), 16 + n)[..16 - L(iv)] == iv[..16 - L(iv)] <==> Blocks(16 + n) < Pow(L(iv))
  {
    hide Pow, Digits, Num, CounterAt, CtrNext;
    var l, j, v := L(iv), Blocks(16 + n), Counter0(iv);
    var r := CtrNext(c, v, 16 + n);
    if j < Pow(l) {
      NoCarryPass(c, iv, n);
    } else if r[..16 - l] == iv[..16 - l] {
      CtrNextIsCounter(c, v, 16 + n);
      PassBlocks(n, l);
      PowGrows(15, 16);
      var s := iv[..16 - l];
      assert r == s + r[16 - l..] && v == s + Zeros(l);
      NumConcat(s, r[16 - l..]);
      NumConcat(s, Zeros(l));
      ZerosValue(l);
      NumRange(r[16 - l..]);
      CounterValue(v, j);
      SameCounter(Pow(16), Num(v), j, Num(r));
      assert false;
    }
  }

  lemma {:induction false} CounterValue(v: seq<Byte>, j: nat)
    ensures Num(CounterAt(v, j)) == (Num(v) + j) % Pow(|v|)
  {
    NumDigits(|v|, Num(v) + j);
  }

  /** Less than one turn of the counter cannot come out a little above where it began, unless it
      went there. */
  lemma {:induction false} SameCounter(p: nat, v: nat, j: nat, r: nat)
    requires 0 < p && v < p && j < p && r == (v + j) % p && v <= r
    ensures r == v + j
  {
    if v + j < p {
      SmallRemainder(v + j, p, v + j);
    } else {
      WrappedOnce(v + j, p);
    }
  }

  lemma {:induction false} WrappedOnce(x: nat, p: nat)
    requires 0 < p <= x < 2 * p
    ensures x % p == x - p
  {
    assert x == 1 * p + (x - p);
  }

  /** A nonce of ones and a message of 65535 blocks: the carry goes into the first byte. The counter
      is now one byte longer, so the length is accepted although its field had been too short. */
  lemma {:induction false} CarryAccepted(c: Cipher, iv: seq<Byte>)
    requires c.bsize == 16 && |iv| == 16 && iv[0] == 1 && forall i :: 1 <= i < 14 ==> iv[i] == 255
    ensures var n, r := 1048560, CtrNext(c, Counter0(iv), 16 + 1048560);
      !LengthAccepted(n, L(iv)) && IvOk(r) && L(r) == 3 && LengthAccepted(n, L(r))
  {
    hide Pow, Num, CtrNext;
    var n, v := 1048560, Counter0(iv);
    PowFour();
    PowThree();
    BlocksExact(65536);
    assert 16 + n == 16 * 65536;
    PassForm(c, iv, n);
    var t := v[1..];
    assert t == Ones(13) + Zeros(2);
    NumConcat(Ones(13), Zeros(2));
    ZerosValue(2);
    OnesValue(13);
    PowAdd(13, 2);
    AllButOne(Num(Ones(13)), Pow(13), Pow(2));
  }

  lemma {:induction false} AllButOne(a: nat, p: nat, q: nat)
    requires a + 1 == p
    ensures a * q + q == p * q
  {
  }

  lemma {:induction false} BlocksExact(k: nat)
    ensures Blocks(16 * k) == k
  {
    if k > 0 {
      BlocksExact(k - 1);
      assert 16 * k - 16 == 16 * (k - 1);
    }
  }

  function Ones(n: nat): (r: seq<Byte>) {
    seq(n, _ => 255)
  }

  lemma {:induction false} OnesValue(n: nat)
    ensures Num(Ones(n)) + 1 == Pow(n)
  {
    if n > 0 {
      OnesValue(n - 1);
      assert Ones(n)[..n - 1] == Ones(n - 1);
    }
  }

  /** The two passes over tag and message never reach the nonce. */
  lemma {:induction false} CounterKeepsNonce(c: Cipher, iv: seq<Byte>, n: nat)
    requires c.bsize == 16 && IvOk(iv) && LengthAccepted(n, L(iv)) && n < UINT_LIMIT
    ensures var r := CtrNext(c, Counter0(iv), 16 + n); IvOk(r) && L(r) == L(iv) && Nonce(r) == Nonce(iv)
  {
    hide Pow, Digits, Num, CounterAt, CtrNext;
    var l, r := L(iv), CtrNext(c, Counter0(iv), 16 + n);
    PassBlocks(n, l);
    NoCarryPass(c, iv, n);
    assert r[1..16 - l] == r[..16 - l][1..] == iv[..16 - l][1..] == iv[1..16 - l];
  }

  // ---------------------------------------------------------------------------
  // Sealing and opening
  // ---------------------------------------------------------------------------

  datatype Result = Fail(err: int) | Plain(p: seq<Byte>)

  /** The ciphertext and behind it the masked tag `t`. */
  function Mask(c: Cipher, iv: seq<Byte>, m: nat, t: seq<Byte>, p: seq<Byte>): (r: seq<Byte>)
    requires Ok(c) && c.bsize == 16 == |t| && IvOk(iv) && TagSizeOk(m)
    ensures |r| == |p| + m
  {
    var x := Ctr(c, Counter0(iv), t + p);
    x[16..] + x[..m]
  }

  /** The sealed message of the standard. */
  function Seal(c: Cipher, iv: seq<Byte>, m: nat, a: seq<Byte>, p: seq<Byte>): (r: seq<Byte>)
    requires Ok(c) && c.bsize == 16 && IvOk(iv) && TagSizeOk(m)
    ensures |r| == |p| + m
  {
    Mask(c, iv, m, Tag(c, iv, m, a, p), p)
  }

  /** Opening as the standard has it; `junk` is what the tag buffer holds behind the tag. */
  function Open(c: Cipher, iv: seq<Byte>, m: nat, a: seq<Byte>, x: seq<Byte>, junk: seq<Byte>): Result
    requires Ok(c) && c.bsize == 16 && IvOk(iv) && TagSizeOk(m) && |junk| == 16 - m
  {
    if |x| < m then Fail(-EINVAL)
    else
      var n := |x| - m;
      var y := Ctr(c, Counter0(iv), x[n..] + junk + x[..n]);
      if Tag(c, iv, m, a, y[16..])[..m] == y[..m] then Plain(y[16..]) else Fail(-EBADMSG)
  }

  /** Opening as the source does it, for every length and every context. The tag is computed with
      the counter block that the pass leaves, and only then the length is looked at. */
  function Opened(c: Cipher, iv: seq<Byte>, m: nat, a: seq<Byte>, stale: seq<Byte>, x: seq<Byte>, junk: seq<Byte>):
    (r: Result)
    requires Ok(c) && c.bsize == 16 && |iv| == 16 && TagSizeOk(m) && |junk| == 16 - m && |x| < UINT_LIMIT
    ensures r.Plain? ==> |x| == |r.p| + m
  {
    if |x| < m || !IvOk(iv) then Fail(-EINVAL)
    else
      var n := |x| - m;
      var y := Ctr(c, Counter0(iv), x[n..] + junk + x[..n]);
      var next := CtrNext(c, Counter0(iv), 16 + n);
      PassForm(c, iv, n);
      if !LengthAccepted(n, L(next)) then Fail(-EOVERFLOW)
      else if CbcMac(c, Authenticated(next, m, a, stale, y[16..]))[..m] == y[..m] then Plain(y[16..])
      else Fail(-EBADMSG)
  }

  lemma {:induction false} CtrFirst(c: Cipher, v: seq<Byte>, t: seq<Byte>, p: seq<Byte>)
    requires Ok(c) && c.bsize == 16 == |v| == |t|
    ensures var x := Ctr(c, v, t + p); x[..16] == Xor(t, Enc(c, v)) && x[16..] == Ctr(c, Inc(v), p)
  {
    hide Ok, Enc, Xor, Ctr, Inc;
    CtrUnfold(c, v, t + p);
    assert (t + p)[..16] == t && (t + p)[16..] == p;
  }

  lemma {:induction false} XorPrefix(a: seq<Byte>, b: seq<Byte>, k: seq<Byte>, m: nat)
    requires |a| == |b| == |k| && m <= |a| && a[..m] == Xor(b, k)[..m]
    ensures Xor(a, k)[..m] == b[..m]
  {
    hide XorByte;
    forall i | 0 <= i < m
      ensures Xor(a, k)[i] == b[i]
    {
      XorByteSelf(b[i], k[i]);
      assert a[i] == a[..m][i] == Xor(b, k)[..m][i] == Xor(b, k)[i];
    }
  }

  /** The format depends on the nonce, not on the counter behind it. */
  lemma {:induction false} SameFormat(iv1: seq<Byte>, iv2: seq<Byte>, m: nat, a: nat, n: nat)
    requires IvOk(iv1) && IvOk(iv2) && TagSizeOk(m) && L(iv1) == L(iv2) && Nonce(iv1) == Nonce(iv2)
    ensures B0(iv1, m, a, n) == B0(iv2, m, a, n) && Counter0(iv1) == Counter0(iv2)
  {
    assert iv1[..16 - L(iv1)] == [iv1[0]] + Nonce(iv1);
    assert iv2[..16 - L(iv2)] == [iv2[0]] + Nonce(iv2);
  }

  /** Round trip: opening a sealed message with the same nonce returns it, whatever is in the
      counter bytes and behind the tag. */
  lemma {:induction false} OpenSeal(c: Cipher, iv1: seq<Byte>, iv2: seq<Byte>, m: nat, a: seq<Byte>, p: seq<Byte>,
                                    junk: seq<Byte>)
    requires Ok(c) && c.bsize == 16 && IvOk(iv1) && IvOk(iv2) && TagSizeOk(m) && |junk| == 16 - m
    requires L(iv1) == L(iv2) && Nonce(iv1) == Nonce(iv2)
    ensures Open(c, iv2, m, a, Seal(c, iv1, m, a, p), junk) == Plain(p)
  {
    hide Ok, Enc, Xor, Ctr, Inc, CbcMac, Counter0, B0, Adata, Pad;
    SameFormat(iv1, iv2, m, |a|, |p|);
    var v, t := Counter0(iv1), Tag(c, iv1, m, a, p);
    var x := Ctr(c, v, t + p);
    CtrFirst(c, v, t, p);
    var sealed := Seal(c, iv1, m, a, p);
    assert sealed[|p|..] == x[..m] && sealed[..|p|] == x[16..];
    var t' := x[..m] + junk;
    CtrFirst(c, v, t', x[16..]);
    CtrRoundTrip(c, Inc(v), p);
    assert t'[..m] == x[..16][..m];
    XorPrefix(t', t, Enc(c, v), m);
    var y := Ctr(c, v, t' + x[16..]);
    assert y[..m] == y[..16][..m];
  }

  /** When opening is what the standard has, and when it is refused for its length. A length that the
      field can take, and no bytes left over that change the blocks: as the standard has it. A length
      that it cannot take is refused as long as its blocks fit the counter. */
  lemma {:induction false} OpenedIs(c: Cipher, iv: seq<Byte>, m: nat, a: seq<Byte>, stale: seq<Byte>, x: seq<Byte>,
                                    junk: seq<Byte>)
    requires Ok(c) && c.bsize == 16 && IvOk(iv) && TagSizeOk(m) && |junk| == 16 - m && m <= |x| < UINT_LIMIT
    ensures LengthAccepted(|x| - m, L(iv)) && (a != [] || stale == []) ==>
      Opened(c, iv, m, a, stale, x, junk) == Open(c, iv, m, a, x, junk)
    ensures !LengthAccepted(|x| - m, L(iv)) && Blocks(16 + |x| - m) < Pow(L(iv)) ==>
      Opened(c, iv, m, a, stale, x, junk) == Fail(-EOVERFLOW)
  {
    hide Ok, Ctr, CtrNext, CbcMac, Counter0, B0, Adata, Pad, LengthAccepted, Nonce, Num, Pow;
    var n := |x| - m;
    var y := Ctr(c, Counter0(iv), x[n..] + junk + x[..n]);
    var next := CtrNext(c, Counter0(iv), 16 + n);
    PassForm(c, iv, n);
    if LengthAccepted(n, L(iv)) && (a != [] || stale == []) {
      CounterKeepsNonce(c, iv, n);
      SameFormat(iv, next, m, |a|, n);
      StaleExact(iv, m, a, stale, y[16..]);
      assert |y[16..]| == n;
      assert Authenticated(next, m, a, stale, y[16..]) == Authenticated(iv, m, a, stale, y[16..]);
    }
    if Blocks(16 + n) < Pow(L(iv)) {
      NoCarryPass(c, iv, n);
      assert L(next) == L(iv);
    }
  }

  /** So the check for the length is missed exactly when the carry lengthens the counter to one that
      takes it. */
  lemma {:induction false} OverflowMissed(c: Cipher, iv: seq<Byte>, m: nat, a: seq<Byte>, stale: seq<Byte>,
                                          x: seq<Byte>, junk: seq<Byte>)
    requires Ok(c) && c.bsize == 16 && IvOk(iv) && TagSizeOk(m) && |junk| == 16 - m && m <= |x| < UINT_LIMIT
    requires !LengthAccepted(|x| - m, L(iv))
    ensures Opened(c, iv, m, a, stale, x, junk) != Fail(-EOVERFLOW) <==>
      Num(Counter0(iv)[1..]) + Blocks(16 + |x| - m) >= Pow(15) && LengthAccepted(|x| - m, L(iv) + 1)
  {
    hide Ok, Ctr, CtrNext, CbcMac, Counter0, Authenticated, LengthAccepted, Num, Pow;
    PassForm(c, iv, |x| - m);
  }

  /** memset of the counter bytes, in both directions. */
  method ZeroCounter(iv: array<Byte>, ghost v: seq<Byte>)
    requires iv.Length == 16 && IvOk(iv[..]) && v == iv[..]
    modifies iv
    ensures iv[..] == Counter0(v)
  {
    Put(iv, 15 - iv[0], Zeros(iv[0] + 1));
  }

  /** crypto_ccm_encrypt. The chaining value that the ctr template leaves in `iv` is stored back. */
  method Encrypt(c: Cipher, mac: Mac, iv: array<Byte>, m: nat, assoc: array<Byte>, aRun: nat -> nat,
                 plain: array<Byte>, pRun: nat -> nat, ghost pend: seq<Byte>)
    returns (err: int, out: seq<Byte>)
    requires Ok(c) && c.bsize == 16 && iv.Length == 16 && TagSizeOk(m) && plain.Length < UINT_LIMIT
    requires mac.Shape() && (assoc.Length == 0 ==> mac.Pending(pend))
    requires {mac.odata, mac.idata} !! {iv, assoc, plain} && iv != assoc && iv != plain
    requires forall i :: 0 <= i < assoc.Length ==> 1 <= aRun(i)
    requires forall i :: 0 <= i < plain.Length ==> 1 <= pRun(i)
    modifies mac`ilen, mac.odata, mac.idata, iv
    ensures err ==
      if !IvOk(old(iv[..])) then -EINVAL else if !LengthAccepted(plain.Length, L(old(iv[..]))) then -EOVERFLOW else 0
    ensures err == 0 ==>
      var v, a, p := old(iv[..]), old(assoc[..]), old(plain[..]);
      out == Mask(c, v, m, CbcMac(c, Authenticated(v, m, a, pend, p)), p)
    ensures err == 0 && (assoc.Length > 0 || pend == []) ==>
      out == Seal(c, old(iv[..]), m, old(assoc[..]), old(plain[..]))
    ensures err == 0 ==>
      IvOk(iv[..]) && L(iv[..]) == L(old(iv[..])) && Nonce(iv[..]) == Nonce(old(iv[..])) && mac.Pending([])
  {
    hide Ok, Ctr, CtrNext, CbcMac, Counter0, B0, Adata, Pad, LengthAccepted, Nonce, Mask;
    out := [];
    if 1 > iv[0] || iv[0] > 7 {
      return -EINVAL, [];
    }
    ghost var v, a, p := iv[..], assoc[..], plain[..];
    err := Auth(c, mac, iv, m, assoc, aRun, plain, pRun, pend);
    if err != 0 {
      return;
    }
    assert mac.odata[..] == CbcMac(c, Authenticated(v, m, a, pend, p));
    CounterKeepsNonce(c, v, |p|);
    StaleExact(v, m, a, pend, p);
    ZeroCounter(iv, v);
    out := MaskOut(c, iv, mac.odata, m, plain, v);
  }

  /** The counter pass of encryption. */
  method MaskOut(c: Cipher, iv: array<Byte>, odata: array<Byte>, m: nat, plain: array<Byte>, ghost v: seq<Byte>)
    returns (out: seq<Byte>)
    requires Ok(c) && c.bsize == 16 == odata.Length == iv.Length && TagSizeOk(m) && IvOk(v) && iv[..] == Counter0(v)
    requires iv != odata && iv != plain
    modifies iv
    ensures out == Mask(c, v, m, odata[..], plain[..])
    ensures iv[..] == CtrNext(c, Counter0(v), 16 + plain.Length)
  {
    hide Ok, Ctr, CtrNext, Counter0;
    var x := Ctr(c, iv[..], odata[..] + plain[..]);
    var next := CtrNext(c, iv[..], 16 + plain.Length);
    Put(iv, 0, next);
    assert iv[..] == next;
    out := x[16..] + x[..m];
  }

  /** crypto_ccm_decrypt. The tag is checked over what the counter pass has put out. */
  method Decrypt(c: Cipher, mac: Mac, iv: array<Byte>, m: nat, assoc: array<Byte>, aRun: nat -> nat, x: seq<Byte>,
                 pRun: nat -> nat, authtag: seq<Byte>, ghost pend: seq<Byte>)
    returns (r: Result)
    requires Ok(c) && c.bsize == 16 && iv.Length == 16 && TagSizeOk(m) && |authtag| == 16 && |x| < UINT_LIMIT
    requires mac.Shape() && (assoc.Length == 0 ==> mac.Pending(pend))
    requires {mac.odata, mac.idata} !! {iv, assoc} && iv != assoc
    requires forall i :: 0 <= i < assoc.Length ==> 1 <= aRun(i)
    requires forall i :: 0 <= i < |x| ==> 1 <= pRun(i)
    modifies mac`ilen, mac.odata, mac.idata, iv
    ensures r == Opened(c, old(iv[..]), m, old(assoc[..]), pend, x, authtag[m..])
  {
    hide Ok, Ctr, CtrNext, CbcMac, Counter0, B0, Adata, Pad, LengthAccepted, Nonce, Num, Pow;
    if |x| < m {
      return Fail(-EINVAL);
    }
    if 1 > iv[0] || iv[0] > 7 {
      return Fail(-EINVAL);
    }
    ghost var v, a := iv[..], assoc[..];
    var n := |x| - m;
    PassForm(c, v, n);
    ZeroCounter(iv, v);
    var y := Ctr(c, iv[..], x[n..] + authtag[m..] + x[..n]);
    var next := CtrNext(c, iv[..], 16 + n);
    Put(iv, 0, next);
    assert iv[..] == next;
    var dst := new Byte[n](i requires 0 <= i < n => y[16 + i]);
    assert dst[..] == y[16..];
    var err := Auth(c, mac, iv, m, assoc, aRun, dst, pRun, pend);
    if err != 0 {
      return Fail(err);
    }
    assert mac.odata[..] == CbcMac(c, Authenticated(next, m, a, pend, y[16..]));
    if y[..m] != mac.odata[..m] {
      return Fail(-EBADMSG);
    }
    return Plain(dst[..]);
  }
}
