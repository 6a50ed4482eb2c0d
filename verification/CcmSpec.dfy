/**
  Counter with CBC-MAC (RFC 3610): the blocks that are authenticated, and why they determine the
  message.
*/
module CcmSpec {
  import opened ModeSpec

  const UINT_LIMIT: nat := 0x1_0000_0000

  /** Fill up with zeros to whole blocks. */
  function Pad(x: seq<Byte>): (r: seq<Byte>)
    ensures x <= r && |r| == |x| + (if Left(16, |x|) == 0 then 0 else 16 - Left(16, |x|))
  {
    var k := Left(16, |x|);
    if k == 0 then x else x + Zeros(16 - k)
  }

  // ---------------------------------------------------------------------------
  // The fields
  // ---------------------------------------------------------------------------

  /** A counter block whose first byte is L - 1: the nonce and L bytes of counter. */
  predicate IvOk(iv: seq<Byte>) {
    |iv| == 16 && 1 <= iv[0] <= 7
  }

  function L(iv: seq<Byte>): (l: nat)
    requires IvOk(iv)
    ensures 2 <= l <= 8
  {
    iv[0] + 1
  }

  function Nonce(iv: seq<Byte>): seq<Byte>
    requires IvOk(iv)
  {
    iv[1..16 - L(iv)]
  }

  predicate TagSizeOk(m: nat) {
    4 <= m <= 16 && m % 2 == 0
  }

  /** The message length as set_msg_len stores it in `l` bytes; it refuses only what is above the
      limit, not the limit itself. */
  predicate LengthAccepted(n: nat, l: nat) {
    l >= 4 || n <= Pow(l)
  }

  function LengthField(n: nat, l: nat): (r: seq<Byte>)
    ensures |r| == l
  {
    if l >= 4 then Zeros(l - 4) + Digits(4, n) else Digits(l, n)
  }

  /** The first byte of B0. The fields do not overlap, so the ors are sums. */
  function Flags(iv: seq<Byte>, m: nat, a: nat): Byte
    requires IvOk(iv) && TagSizeOk(m)
  {
    iv[0] + 8 * ((m - 2) / 2) + if a > 0 then 64 else 0
  }

  function B0(iv: seq<Byte>, m: nat, a: nat, n: nat): (r: seq<Byte>)
    requires IvOk(iv) && TagSizeOk(m)
    ensures |r| == 16
  {
    [Flags(iv, m, a)] + Nonce(iv) + LengthField(n, L(iv))
  }

  /** The length of the associated data, which comes before it. */
  function AdataField(a: nat): seq<Byte> {
    if a < 65280 then Digits(2, a) else Digits(2, 0xfffe) + Digits(4, a)
  }

  function Adata(a: seq<Byte>): seq<Byte> {
    if a == [] then [] else Pad(AdataField(|a|) + a)
  }

  /** All that is authenticated. */
  function Format(iv: seq<Byte>, m: nat, a: seq<Byte>, p: seq<Byte>): seq<Byte>
    requires IvOk(iv) && TagSizeOk(m)
  {
    B0(iv, m, |a|, |p|) + Adata(a) + Pad(p)
  }

  /** What crypto_ccm_auth authenticates. Only associated data resets what the request context has
      pending; without any, the `stale` bytes found there come before the message. */
  function Authenticated(iv: seq<Byte>, m: nat, a: seq<Byte>, stale: seq<Byte>, p: seq<Byte>): seq<Byte>
    requires IvOk(iv) && TagSizeOk(m)
  {
    B0(iv, m, |a|, |p|) + Adata(a) + Pad((if a == [] then stale else []) + p)
  }

  // ---------------------------------------------------------------------------
  // The message length
  // ---------------------------------------------------------------------------

  lemma {:induction false} ZerosValue(n: nat)
    ensures Num(Zeros(n)) == 0
  {
    if n > 0 {
      ZerosValue(n - 1);
      assert Zeros(n)[..n - 1] == Zeros(n - 1);
    }
  }

  lemma {:induction false} SmallDigits(n: nat, v: nat)
    requires v < Pow(n)
    ensures Num(Digits(n, v)) == v
  {
    NumDigits(n, v);
    SmallRemainder(v, Pow(n), v);
  }

  lemma PowFour()
    ensures Pow(2) == 65536 && Pow(4) == UINT_LIMIT
  {
    assert Pow(1) == 256 && Pow(2) == 65536 && Pow(3) == 0x100_0000;
  }

  lemma {:induction false} PowGrows(m: nat, n: nat)
    requires m <= n
    ensures Pow(m) <= Pow(n)
  {
    if m < n {
      PowGrows(m, n - 1);
    }
  }

  /** The field is the length, exactly when the length fits. A message of 256 to the L bytes, L
      below four, is accepted and stored as zero. */
  lemma {:induction false} LengthFieldExact(n: nat, l: nat)
    requires n < UINT_LIMIT
    ensures LengthAccepted(n, l) && Num(LengthField(n, l)) == n <==> n < Pow(l)
    ensures l < 4 && n == Pow(l) ==> LengthAccepted(n, l) && Num(LengthField(n, l)) == 0
  {
    PowFour();
    if l >= 4 {
      PowGrows(4, l);
      ZerosValue(l - 4);
      NumConcat(Zeros(l - 4), Digits(4, n));
      SmallDigits(4, n);
    } else {
      NumDigits(l, n);
      if n < Pow(l) {
        SmallDigits(l, n);
      } else {
        NumRange(LengthField(n, l));
        if n == Pow(l) {
          SmallRemainder(n, Pow(l), 0);
        }
      }
    }
  }

  lemma {:induction false} LengthFieldInjective(n1: nat, n2: nat, l: nat)
    requires n1 < Pow(l) && n2 < Pow(l) && n1 < UINT_LIMIT && n2 < UINT_LIMIT
    requires LengthField(n1, l) == LengthField(n2, l)
    ensures n1 == n2
  {
    LengthFieldExact(n1, l);
    LengthFieldExact(n2, l);
  }

  // ---------------------------------------------------------------------------
  // Injectivity
  // ---------------------------------------------------------------------------

  /** What both strings begin with can be taken off. */
  lemma {:induction false} PrefixSplit(a: seq<Byte>, b: seq<Byte>, c: seq<Byte>, d: seq<Byte>)
    requires |a| == |c| && a + b <= c + d
    ensures a == c && b <= d
  {
    assert a == (a + b)[..|a|] == (c + d)[..|a|] == c;
    assert b == (a + b)[|a|..];
    assert (c + d)[|c|..|a + b|] == d[..|b|];
  }

  lemma {:induction false} FlagsInjective(iv1: seq<Byte>, m1: nat, a1: nat, iv2: seq<Byte>, m2: nat, a2: nat)
    requires IvOk(iv1) && TagSizeOk(m1) && IvOk(iv2) && TagSizeOk(m2) && Flags(iv1, m1, a1) == Flags(iv2, m2, a2)
    ensures iv1[0] == iv2[0] && m1 == m2 && (a1 > 0 <==> a2 > 0)
  {
  }

  lemma {:induction false} B0Injective(iv1: seq<Byte>, m1: nat, a1: nat, n1: nat, iv2: seq<Byte>, m2: nat, a2: nat,
                                       n2: nat)
    requires IvOk(iv1) && TagSizeOk(m1) && IvOk(iv2) && TagSizeOk(m2)
    requires n1 < Pow(L(iv1)) && n2 < Pow(L(iv2)) && n1 < UINT_LIMIT && n2 < UINT_LIMIT
    requires B0(iv1, m1, a1, n1) == B0(iv2, m2, a2, n2)
    ensures L(iv1) == L(iv2) && Nonce(iv1) == Nonce(iv2) && m1 == m2 && n1 == n2 && (a1 > 0 <==> a2 > 0)
  {
    hide Flags, LengthField, Pow;
    assert B0(iv1, m1, a1, n1)[0] == Flags(iv1, m1, a1) && B0(iv2, m2, a2, n2)[0] == Flags(iv2, m2, a2);
    FlagsInjective(iv1, m1, a1, iv2, m2, a2);
    var k := 16 - L(iv1);
    assert B0(iv1, m1, a1, n1)[1..k] == Nonce(iv1) && B0(iv2, m2, a2, n2)[1..k] == Nonce(iv2);
    assert B0(iv1, m1, a1, n1)[k..] == LengthField(n1, L(iv1)) && B0(iv2, m2, a2, n2)[k..] == LengthField(n2, L(iv2));
    LengthFieldInjective(n1, n2, L(iv1));
  }

  /** The encoded length of the associated data can be read off its beginning. */
  lemma {:induction false} AdataFieldInjective(a1: nat, x1: seq<Byte>, a2: nat, x2: seq<Byte>)
    requires a1 < UINT_LIMIT && a2 < UINT_LIMIT && AdataField(a1) + x1 <= AdataField(a2) + x2
    ensures a1 == a2 && x1 <= x2
  {
    hide Digits, Pow;
    PowFour();
    var s1, s2 := if a1 < 65280 then a1 else 0xfffe, if a2 < 65280 then a2 else 0xfffe;
    var r1, r2 := if a1 < 65280 then [] else Digits(4, a1), if a2 < 65280 then [] else Digits(4, a2);
    assert AdataField(a1) + x1 == Digits(2, s1) + (r1 + x1);
    assert AdataField(a2) + x2 == Digits(2, s2) + (r2 + x2);
    PrefixSplit(Digits(2, s1), r1 + x1, Digits(2, s2), r2 + x2);
    SmallDigits(2, s1);
    SmallDigits(2, s2);
    PrefixSplit(r1, x1, r2, x2);
    if a1 >= 65280 {
      SmallDigits(4, a1);
      SmallDigits(4, a2);
    }
  }

  lemma {:induction false} PadInjective(x1: seq<Byte>, r1: seq<Byte>, x2: seq<Byte>, r2: seq<Byte>)
    requires |x1| == |x2| && Pad(x1) + r1 <= Pad(x2) + r2
    ensures x1 == x2 && r1 <= r2
  {
    hide Pad;
    PrefixSplit(Pad(x1), r1, Pad(x2), r2);
    assert x1 == Pad(x1)[..|x1|] && x2 == Pad(x2)[..|x2|];
  }

  /** Two messages whose lengths fit their fields: if the blocks of one begin with the blocks of
      the other, they are the same message with the same nonce and tag size. So the blocks
      determine the message, and none is a proper prefix of another. */
  lemma {:induction false} FormatPrefixFree(iv1: seq<Byte>, m1: nat, a1: seq<Byte>, p1: seq<Byte>, iv2: seq<Byte>,
                                            m2: nat, a2: seq<Byte>, p2: seq<Byte>)
    requires IvOk(iv1) && TagSizeOk(m1) && IvOk(iv2) && TagSizeOk(m2)
    requires |p1| < Pow(L(iv1)) && |p1| < UINT_LIMIT && |a1| < UINT_LIMIT
    requires |p2| < Pow(L(iv2)) && |p2| < UINT_LIMIT && |a2| < UINT_LIMIT
    requires Format(iv1, m1, a1, p1) <= Format(iv2, m2, a2, p2)
    ensures L(iv1) == L(iv2) && Nonce(iv1) == Nonce(iv2) && m1 == m2 && a1 == a2 && p1 == p2
  {
    hide B0, Adata, Pad, AdataField, Pow;
    var b1, b2 := B0(iv1, m1, |a1|, |p1|), B0(iv2, m2, |a2|, |p2|);
    assert Format(iv1, m1, a1, p1) == b1 + (Adata(a1) + Pad(p1));
    assert Format(iv2, m2, a2, p2) == b2 + (Adata(a2) + Pad(p2));
    PrefixSplit(b1, Adata(a1) + Pad(p1), b2, Adata(a2) + Pad(p2));
    B0Injective(iv1, m1, |a1|, |p1|, iv2, m2, |a2|, |p2|);
    AdataSplit(a1, Pad(p1), a2, Pad(p2));
    assert Pad(p1) + [] == Pad(p1) && Pad(p2) + [] == Pad(p2);
    PadInjective(p1, [], p2, []);
  }

  lemma {:induction false} PadTail(f: seq<Byte>, a: seq<Byte>, r: seq<Byte>)
    ensures var x := f + a; Pad(x) + r == f + (a + (Pad(x)[|x|..] + r))
  {
    var x := f + a;
    assert Pad(x) == x + Pad(x)[|x|..];
  }

  lemma {:induction false} AdataSplit(a1: seq<Byte>, r1: seq<Byte>, a2: seq<Byte>, r2: seq<Byte>)
    requires (a1 == [] <==> a2 == []) && |a1| < UINT_LIMIT && |a2| < UINT_LIMIT && Adata(a1) + r1 <= Adata(a2) + r2
    ensures a1 == a2 && r1 <= r2
  {
    hide Pad, AdataField;
    if a1 == [] {
      assert Adata(a1) + r1 == r1 && Adata(a2) + r2 == r2;
    } else {
      var x1, x2 := AdataField(|a1|) + a1, AdataField(|a2|) + a2;
      PadTail(AdataField(|a1|), a1, r1);
      PadTail(AdataField(|a2|), a2, r2);
      AdataFieldInjective(|a1|, a1 + (Pad(x1)[|x1|..] + r1), |a2|, a2 + (Pad(x2)[|x2|..] + r2));
      PadInjective(x1, r1, x2, r2);
      assert a1 == x1[|x1| - |a1|..] && a2 == x2[|x2| - |a2|..];
    }
  }

  /** Without the limit it fails, for every nonce, tag size and associated data: a message of 256 to the
      L bytes, L below four, which is accepted, begins with all the blocks of the empty message. */
  lemma {:induction false} FormatAtLimit(iv: seq<Byte>, m: nat, a: seq<Byte>, p: seq<Byte>)
    requires IvOk(iv) && TagSizeOk(m) && L(iv) < 4 && |p| == Pow(L(iv))
    ensures LengthAccepted(|p|, L(iv)) && p != [] && Format(iv, m, a, []) <= Format(iv, m, a, p)
    ensures |Format(iv, m, a, [])| < |Format(iv, m, a, p)|
  {
    hide Pad, Pow, Adata;
    PowFour();
    assert Pow(3) == 0x100_0000 by { PowThree(); }
    assert |p| < UINT_LIMIT && L(iv) in {2, 3};
    LengthFieldExact(|p|, L(iv));
    LengthFieldExact(0, L(iv));
    DigitsNum(LengthField(0, L(iv)));
    DigitsNum(LengthField(|p|, L(iv)));
    var front := B0(iv, m, |a|, 0) + Adata(a);
    assert B0(iv, m, |a|, 0) == B0(iv, m, |a|, |p|);
    assert Pad([]) == [] by { PadNothing(); }
    assert Format(iv, m, a, []) == front && Format(iv, m, a, p) == front + Pad(p);
  }

  lemma PowThree()
    ensures Pow(3) == 0x100_0000
  {
    assert Pow(1) == 256 && Pow(2) == 65536;
  }

  lemma PadNothing()
    ensures Pad([]) == []
  {
  }

  // ---------------------------------------------------------------------------
  // Bytes left over in the request context
  // ---------------------------------------------------------------------------

  predicate AllZero(x: seq<Byte>) {
    forall i :: 0 <= i < |x| ==> x[i] == 0
  }

  /** A string that ends in zeros and repeats itself shifted by `k` is all zeros from `i` on. */
  lemma {:induction false} ShiftedZeros(z: seq<Byte>, k: nat, n: nat, i: nat)
    requires 0 < k && n + k <= |z| && i <= |z|
    requires forall j :: 0 <= j < n ==> z[j + k] == z[j]
    requires forall j :: n <= j < |z| ==> z[j] == 0
    ensures forall j :: i <= j < |z| ==> z[j] == 0
    decreases |z| - i
  {
    if i < |z| {
      ShiftedZeros(z, k, n, i + 1);
      if i < n {
        assert z[i + k] == z[i];
      }
    }
  }

  /** Bytes put before a message leave its padded form alone exactly when there are none, or when
      all is zeros and takes no further block. */
  lemma {:induction false} PadBehind(stale: seq<Byte>, p: seq<Byte>)
    ensures Pad(stale + p) == Pad(p) <==>
      stale == [] || (AllZero(stale + p) && |Pad(stale + p)| == |Pad(p)|)
  {
    var x, z, k, n := stale + p, Pad(p), |stale|, |p|;
    if stale == [] {
      assert x == p;
    } else if Pad(x) == z {
      hide Pad;
      assert x == Pad(x)[..|x|] && p == z[..n];
      forall j | 0 <= j < n
        ensures z[j + k] == z[j]
      {
        assert x[j + k] == p[j];
      }
      assert forall j :: n <= j < |z| ==> z[j] == 0 by { PadZeros(p); }
      ShiftedZeros(z, k, n, 0);
    } else if AllZero(x) {
      assert AllZero(p) by {
        assert forall j :: 0 <= j < n ==> p[j] == x[j + k];
      }
      PadAllZero(x);
      PadAllZero(p);
    }
  }

  lemma {:induction false} PadZeros(p: seq<Byte>)
    ensures forall j :: |p| <= j < |Pad(p)| ==> Pad(p)[j] == 0
  {
  }

  lemma {:induction false} PadAllZero(x: seq<Byte>)
    requires AllZero(x)
    ensures Pad(x) == Zeros(|Pad(x)|)
  {
    PadZeros(x);
  }

  /** The authenticated blocks are those of the standard exactly when there is associated data, or
      nothing was pending, or what was pending and the message are zeros in as many blocks. */
  lemma {:induction false} StaleExact(iv: seq<Byte>, m: nat, a: seq<Byte>, stale: seq<Byte>, p: seq<Byte>)
    requires IvOk(iv) && TagSizeOk(m)
    ensures Authenticated(iv, m, a, stale, p) == Format(iv, m, a, p) <==>
      a != [] || stale == [] || (AllZero(stale + p) && |Pad(stale + p)| == |Pad(p)|)
  {
    hide Pad, B0, Adata;
    var front := B0(iv, m, |a|, |p|) + Adata(a);
    if a == [] {
      PadBehind(stale, p);
      assert Authenticated(iv, m, a, stale, p)[|front|..] == Pad(stale + p);
      assert Format(iv, m, a, p)[|front|..] == Pad(p);
    } else {
      assert [] + p == p;
    }
  }

  /** One byte left over changes what is authenticated for the empty message. */
  lemma {:induction false} StaleByte(iv: seq<Byte>, m: nat)
    requires IvOk(iv) && TagSizeOk(m)
    ensures Authenticated(iv, m, [], [1], []) != Format(iv, m, [], [])
  {
    var x: seq<Byte> := [1];
    StaleExact(iv, m, [], x, []);
    assert (x + [])[0] == 1;
  }
}
