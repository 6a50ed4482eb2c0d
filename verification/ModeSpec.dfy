/**
  The block cipher modes on flat byte strings, over an uninterpreted block cipher: CBC (section
  6.2 of NIST SP 800-38A) and CTR (section 6.5) with the counter as a big-endian number.
*/
module ModeSpec {

  type Byte = n: nat | n < 256

  /** Exclusive or of the low bits. */
  function XorBits(bits: nat, a: nat, b: nat): nat {
    if bits == 0 then 0 else 2 * XorBits(bits - 1, a / 2, b / 2) + (a + b) % 2
  }

  lemma {:induction false} Parity(a: nat, b: nat, x: nat)
    requires x % 2 == (a + b) % 2
    ensures (x + b) % 2 == a % 2
  {
  }

  lemma {:induction false} XorBitsLaws(bits: nat, top: nat, a: nat, b: nat)
    requires top == TwoTo(bits) && a < top && b < top
    ensures XorBits(bits, a, b) < top
    ensures XorBits(bits, a, b) == XorBits(bits, b, a)
    ensures XorBits(bits, XorBits(bits, a, b), b) == a
  {
    if bits > 0 {
      XorBitsLaws(bits - 1, top / 2, a / 2, b / 2);
      var x := XorBits(bits, a, b);
      assert x / 2 == XorBits(bits - 1, a / 2, b / 2) && x % 2 == (a + b) % 2;
      Parity(a, b, x);
    }
  }

  function TwoTo(bits: nat): nat {
    if bits == 0 then 1 else 2 * TwoTo(bits - 1)
  }

  function XorByte(a: Byte, b: Byte): Byte {
    assert TwoTo(8) == 256;
    XorBitsLaws(8, 256, a, b);
    XorBits(8, a, b)
  }

  function Xor(a: seq<Byte>, b: seq<Byte>): (r: seq<Byte>)
    requires |a| == |b|
    ensures |r| == |a|
  {
    seq(|a|, i requires 0 <= i < |a| => XorByte(a[i], b[i]))
  }

  lemma {:induction false} XorByteSelf(a: Byte, b: Byte)
    ensures XorByte(XorByte(a, b), b) == a && XorByte(a, XorByte(a, b)) == b && XorByte(a, b) == XorByte(b, a)
  {
    assert TwoTo(8) == 256;
    XorBitsLaws(8, 256, a, b);
    XorBitsLaws(8, 256, b, a);
    XorBitsLaws(8, 256, a, XorBits(8, a, b));
  }

  lemma {:induction false} XorSelf(a: seq<Byte>, b: seq<Byte>)
    requires |a| == |b|
    ensures Xor(Xor(a, b), b) == a && Xor(a, Xor(a, b)) == b && Xor(a, b) == Xor(b, a)
  {
    hide XorByte;
    forall i | 0 <= i < |a|
      ensures Xor(Xor(a, b), b)[i] == a[i] && Xor(a, Xor(a, b))[i] == b[i] && Xor(a, b)[i] == Xor(b, a)[i]
    {
      XorByteSelf(a[i], b[i]);
    }
  }

  function Zeros(n: nat): (r: seq<Byte>)
    ensures |r| == n
  {
    seq(n, _ => 0)
  }

  lemma {:induction false} XorBitsZero(bits: nat, b: nat, top: nat)
    requires top == TwoTo(bits) && b < top
    ensures XorBits(bits, 0, b) == b
  {
    if bits > 0 {
      XorBitsZero(bits - 1, b / 2, top / 2);
    }
  }

  lemma {:induction false} XorByteZero(a: Byte)
    ensures XorByte(a, 0) == a && XorByte(0, a) == a
  {
    XorBitsZero(8, a, 256);
    XorByteSelf(a, 0);
    assert TwoTo(8) == 256;
  }

  lemma {:induction false} XorZeros(x: seq<Byte>)
    ensures Xor(Zeros(|x|), x) == x
  {
    assert TwoTo(8) == 256;
    forall i | 0 <= i < |x|
      ensures XorByte(0, x[i]) == x[i]
    {
      XorBitsZero(8, x[i], 256);
    }
  }

  type Size = n: nat | n > 0 witness 1

  /** A block cipher under one key. */
  datatype Cipher = Cipher(bsize: Size, enc: seq<Byte> -> seq<Byte>, dec: seq<Byte> -> seq<Byte>)

  ghost predicate Ok(c: Cipher) {
    && (forall x {:trigger c.enc(x)} :: |x| == c.bsize ==> |c.enc(x)| == c.bsize && c.dec(c.enc(x)) == x)
    && (forall x {:trigger c.dec(x)} :: |x| == c.bsize ==> |c.dec(x)| == c.bsize)
  }

  function Enc(c: Cipher, x: seq<Byte>): (r: seq<Byte>)
    requires Ok(c) && |x| == c.bsize
    ensures |r| == c.bsize
  {
    c.enc(x)
  }

  function Dec(c: Cipher, x: seq<Byte>): (r: seq<Byte>)
    requires Ok(c) && |x| == c.bsize
    ensures |r| == c.bsize
  {
    c.dec(x)
  }

  lemma {:induction false} DecEnc(c: Cipher, x: seq<Byte>)
    requires Ok(c) && |x| == c.bsize
    ensures Dec(c, Enc(c, x)) == x
  {
  }

  /** What is left of `n` bytes after taking whole blocks. */
  function Left(b: Size, n: nat): (r: nat)
    ensures r <= n && r < b
  {
    if n < b then n else Left(b, n - b)
  }

  lemma {:induction false} LeftIsRemainder(b: Size, n: nat)
    ensures Left(b, n) == n % b
  {
    if n >= b {
      LeftIsRemainder(b, n - b);
      assert n % b == (n - b) % b by { RemainderStep(b, n); }
    } else {
      assert n == b * 0 + n;
    }
  }

  lemma {:induction false} RemainderStep(b: nat, n: nat)
    requires 0 < b <= n
    ensures n % b == (n - b) % b
  {
    var q, r := (n - b) / b, (n - b) % b;
    assert n == b * q + r + b;
    assert b * q + b == b * (q + 1);
    QuotientUnique(b, n, q + 1, r);
  }

  lemma {:induction false} Cancel(b: nat, q: nat, q': nat, r: nat, r': nat)
    requires r < b && r' < b && b * q + r == b * q' + r'
    ensures q == q' && r == r'
  {
    assert b * (q - q') == r' - r;
    var d := q - q';
    assert d >= 1 ==> b * d >= b;
    assert d <= -1 ==> b * d + b <= 0;
  }

  lemma {:induction false} QuotientUnique(b: nat, n: nat, q: nat, r: nat)
    requires r < b && n == b * q + r
    ensures n % b == r
  {
    var q', r' := n / b, n % b;
    assert n == b * q' + r';
    Cancel(b, q, q', r, r');
  }

  lemma {:induction false} WholeBlocks(b: Size, n: nat)
    ensures Left(b, n - Left(b, n)) == 0
    ensures n >= b ==> n - Left(b, n) >= b && Left(b, n - Left(b, n) - b) == 0
    decreases n
  {
    if n >= b {
      WholeBlocks(b, n - b);
    }
  }

  lemma {:induction false} LeftStep(b: Size, n: nat)
    ensures n >= b ==> Left(b, n - b) == Left(b, n)
    ensures n < b ==> Left(b, n) == n
  {
  }

  lemma {:induction false} LeftMinus(b: Size, n: nat, m: nat)
    requires m <= n && Left(b, m) == 0
    ensures Left(b, n - m) == Left(b, n)
    decreases m
  {
    if m > 0 {
      LeftMinus(b, n - b, m - b);
    }
  }

  lemma {:induction false} LeftPlus(b: Size, n: nat, m: nat)
    requires Left(b, n) == 0 && Left(b, m) == 0
    ensures Left(b, n + m) == 0
    decreases n
  {
    if n > 0 {
      LeftPlus(b, n - b, m);
    }
  }

  // ---------------------------------------------------------------------------
  // CBC
  // ---------------------------------------------------------------------------

  /** The whole blocks of `p`, encrypted. */
  function CbcEnc(c: Cipher, iv: seq<Byte>, p: seq<Byte>): (r: seq<Byte>)
    requires Ok(c) && |iv| == c.bsize
    ensures |r| == |p| - Left(c.bsize, |p|)
    decreases |p|
  {
    if |p| < c.bsize then []
    else
      var x := Enc(c, Xor(iv, p[..c.bsize]));
      x + CbcEnc(c, x, p[c.bsize..])
  }

  /** The chaining value after encrypting the whole blocks of `p`. */
  function CbcEncIv(c: Cipher, iv: seq<Byte>, p: seq<Byte>): (r: seq<Byte>)
    requires Ok(c) && |iv| == c.bsize
    ensures |r| == c.bsize
    decreases |p|
  {
    if |p| < c.bsize then iv else CbcEncIv(c, Enc(c, Xor(iv, p[..c.bsize])), p[c.bsize..])
  }

  function CbcDec(c: Cipher, iv: seq<Byte>, x: seq<Byte>): (r: seq<Byte>)
    requires Ok(c) && |iv| == c.bsize
    ensures |r| == |x| - Left(c.bsize, |x|)
    decreases |x|
  {
    if |x| < c.bsize then []
    else Xor(Dec(c, x[..c.bsize]), iv) + CbcDec(c, x[..c.bsize], x[c.bsize..])
  }

  /** The last whole block of the ciphertext, or the old chaining value. */
  function CbcDecIv(c: Cipher, iv: seq<Byte>, x: seq<Byte>): (r: seq<Byte>)
    requires Ok(c) && |iv| == c.bsize
    ensures |r| == c.bsize
    decreases |x|
  {
    if |x| < c.bsize then iv else CbcDecIv(c, x[..c.bsize], x[c.bsize..])
  }

  lemma {:induction false} CbcEncUnfold(c: Cipher, iv: seq<Byte>, p: seq<Byte>)
    requires Ok(c) && |iv| == c.bsize
    ensures |p| < c.bsize ==> CbcEnc(c, iv, p) == [] && CbcEncIv(c, iv, p) == iv
    ensures |p| >= c.bsize ==>
      var x := Enc(c, Xor(iv, p[..c.bsize]));
      && CbcEnc(c, iv, p) == x + CbcEnc(c, x, p[c.bsize..])
      && CbcEncIv(c, iv, p) == CbcEncIv(c, x, p[c.bsize..])
  {
  }

  lemma {:induction false} CbcDecUnfold(c: Cipher, iv: seq<Byte>, p: seq<Byte>)
    requires Ok(c) && |iv| == c.bsize
    ensures |p| < c.bsize ==> CbcDec(c, iv, p) == [] && CbcDecIv(c, iv, p) == iv
    ensures |p| >= c.bsize ==>
      var x := p[..c.bsize];
      && CbcDec(c, iv, p) == Xor(Dec(c, x), iv) + CbcDec(c, x, p[c.bsize..])
      && CbcDecIv(c, iv, p) == CbcDecIv(c, x, p[c.bsize..])
  {
  }

  lemma {:induction false} Slices(p: seq<Byte>, b: nat, k: nat)
    requires b <= k <= |p|
    ensures p[..k][..b] == p[..b] && p[b..][..k - b] == p[..k][b..] && p[b..][k - b..] == p[k..]
  {
  }

  lemma {:induction false} CbcEncSplit(c: Cipher, iv: seq<Byte>, p: seq<Byte>, k: nat)
    requires Ok(c) && |iv| == c.bsize && k <= |p| && Left(c.bsize, k) == 0
    ensures CbcEnc(c, iv, p) == CbcEnc(c, iv, p[..k]) + CbcEnc(c, CbcEncIv(c, iv, p[..k]), p[k..])
    ensures CbcEncIv(c, iv, p) == CbcEncIv(c, CbcEncIv(c, iv, p[..k]), p[k..])
    decreases k
  {
    hide Xor, Ok, Enc, Dec, CbcEnc, CbcEncIv;
    if k == 0 {
      assert p[k..] == p && p[..k] == [];
      CbcEncUnfold(c, iv, []);
    } else {
      var b := c.bsize;
      assert k >= b;
      var x := Enc(c, Xor(iv, p[..b]));
      Slices(p, b, k);
      CbcEncUnfold(c, iv, p);
      CbcEncUnfold(c, iv, p[..k]);
      CbcEncSplit(c, x, p[b..], k - b);
    }
  }

  lemma {:induction false} CbcDecSplit(c: Cipher, iv: seq<Byte>, p: seq<Byte>, k: nat)
    requires Ok(c) && |iv| == c.bsize && k <= |p| && Left(c.bsize, k) == 0
    ensures CbcDec(c, iv, p) == CbcDec(c, iv, p[..k]) + CbcDec(c, CbcDecIv(c, iv, p[..k]), p[k..])
    ensures CbcDecIv(c, iv, p) == CbcDecIv(c, CbcDecIv(c, iv, p[..k]), p[k..])
    decreases k
  {
    hide Xor, Ok, Enc, Dec, CbcDec, CbcDecIv;
    if k == 0 {
      assert p[k..] == p && p[..k] == [];
      CbcDecUnfold(c, iv, []);
    } else {
      var b := c.bsize;
      assert k >= b;
      Slices(p, b, k);
      CbcDecUnfold(c, iv, p);
      CbcDecUnfold(c, iv, p[..k]);
      CbcDecSplit(c, p[..b], p[b..], k - b);
    }
  }

  /** The bytes after the last whole block do not matter. */
  lemma {:induction false} EncWhole(c: Cipher, v: seq<Byte>, p: seq<Byte>)
    requires Ok(c) && |v| == c.bsize
    ensures var q := p[..|p| - Left(c.bsize, |p|)];
      CbcEnc(c, v, q) == CbcEnc(c, v, p) && CbcEncIv(c, v, q) == CbcEncIv(c, v, p)
  {
    hide Ok, Enc, Xor, CbcEnc, CbcEncIv;
    var m := |p| - Left(c.bsize, |p|);
    WholeBlocks(c.bsize, |p|);
    CbcEncSplit(c, v, p, m);
    CbcEncUnfold(c, CbcEncIv(c, v, p[..m]), p[m..]);
  }

  /** The bytes after the last whole block do not matter. */
  lemma {:induction false} DecWhole(c: Cipher, v: seq<Byte>, p: seq<Byte>)
    requires Ok(c) && |v| == c.bsize
    ensures var q := p[..|p| - Left(c.bsize, |p|)];
      CbcDec(c, v, q) == CbcDec(c, v, p) && CbcDecIv(c, v, q) == CbcDecIv(c, v, p)
  {
    hide Ok, Dec, Xor, CbcDec, CbcDecIv;
    var m := |p| - Left(c.bsize, |p|);
    WholeBlocks(c.bsize, |p|);
    CbcDecSplit(c, v, p, m);
    CbcDecUnfold(c, CbcDecIv(c, v, p[..m]), p[m..]);
  }

  /** CBC decryption undoes encryption and leaves the same chaining value. */
  lemma {:induction false} CbcRoundTrip(c: Cipher, iv: seq<Byte>, p: seq<Byte>)
    requires Ok(c) && |iv| == c.bsize
    ensures CbcDec(c, iv, CbcEnc(c, iv, p)) == p[..|p| - Left(c.bsize, |p|)]
    ensures CbcDecIv(c, iv, CbcEnc(c, iv, p)) == CbcEncIv(c, iv, p)
    decreases |p|
  {
    hide Xor, Ok, Enc, Dec;
    var b := c.bsize;
    if |p| >= b {
      var x := Enc(c, Xor(iv, p[..b]));
      CbcRoundTrip(c, x, p[b..]);
      var e := CbcEnc(c, iv, p);
      assert e[..b] == x && e[b..] == CbcEnc(c, x, p[b..]);
      DecEnc(c, Xor(iv, p[..b]));
      XorSelf(iv, p[..b]);
      XorSelf(p[..b], iv);
      var m := |p| - Left(b, |p|);
      assert p[..m] == p[..b] + p[b..][..m - b];
    }
  }

  // ---------------------------------------------------------------------------
  // Counters
  // ---------------------------------------------------------------------------

  function Pow(n: nat): (r: nat)
    ensures r > 0
  {
    if n == 0 then 1 else 256 * Pow(n - 1)
  }

  /** A big-endian number. */
  function Num(s: seq<Byte>): nat {
    if s == [] then 0 else 256 * Num(s[..|s| - 1]) + s[|s| - 1]
  }

  /** The last `n` base-256 digits of a number. */
  function Digits(n: nat, v: nat): (s: seq<Byte>)
    ensures |s| == n
  {
    if n == 0 then [] else Digits(n - 1, v / 256) + [v % 256]
  }

  lemma {:induction false} NumRange(s: seq<Byte>)
    ensures Num(s) < Pow(|s|)
  {
    if s != [] {
      NumRange(s[..|s| - 1]);
    }
  }

  lemma {:induction false} NumDigits(n: nat, v: nat)
    ensures Num(Digits(n, v)) == v % Pow(n)
  {
    if n > 0 {
      NumDigits(n - 1, v / 256);
      var d := Digits(n, v);
      assert d[..n - 1] == Digits(n - 1, v / 256);
      ModSplit(v, Pow(n - 1));
    }
  }

  lemma {:induction false} ModSplit(v: nat, p: nat)
    requires p > 0
    ensures v % (256 * p) == 256 * (v / 256 % p) + v % 256
  {
    var q, r := v / 256 / p, v / 256 % p;
    assert v / 256 == p * q + r;
    assert v == 256 * (p * q + r) + v % 256;
    assert 256 * (p * q) == (256 * p) * q;
    assert r <= p - 1;
    QuotientUnique(256 * p, v, q, 256 * r + v % 256);
  }

  lemma {:induction false} LastDigit(m: nat, d: nat)
    requires d < 256
    ensures (256 * m + d) / 256 == m && (256 * m + d) % 256 == d
  {
  }

  lemma {:induction false} DigitsNum(s: seq<Byte>)
    ensures Digits(|s|, Num(s)) == s
  {
    if s != [] {
      var n := |s| - 1;
      DigitsNum(s[..n]);
      LastDigit(Num(s[..n]), s[n]);
      assert s == s[..n] + [s[n]];
    }
  }

  /** The next counter block: plus one, modulo 256 to the length. */
  function Inc(s: seq<Byte>): (r: seq<Byte>)
    ensures |r| == |s|
  {
    Digits(|s|, Num(s) + 1)
  }

  lemma {:induction false} PowAdd(m: nat, n: nat)
    ensures Pow(m + n) == Pow(m) * Pow(n)
  {
    if n > 0 {
      PowAdd(m, n - 1);
      Reassociate(Pow(m), Pow(n - 1));
    }
  }

  lemma {:induction false} Reassociate(a: nat, b: nat)
    ensures 256 * (a * b) == a * (256 * b)
  {
  }

  lemma {:induction false} Distribute(a: nat, p: nat, m: nat, d: nat)
    ensures 256 * (a * p + m) + d == a * (256 * p) + (256 * m + d)
  {
    Reassociate(a, p);
  }

  lemma {:induction false} NumConcat(s: seq<Byte>, t: seq<Byte>)
    ensures Num(s + t) == Num(s) * Pow(|t|) + Num(t)
  {
    if t == [] {
      assert s + t == s;
    } else {
      var n := |t| - 1;
      NumConcat(s, t[..n]);
      assert (s + t)[..|s| + n] == s + t[..n];
      Distribute(Num(s), Pow(n), Num(t[..n]), t[n]);
    }
  }

  /** A number is determined by its value and length. */
  lemma {:induction false} NumUnique(s: seq<Byte>, v: nat)
    requires Num(s) == v % Pow(|s|)
    ensures s == Digits(|s|, v)
  {
    NumDigits(|s|, v);
    DigitsNum(s);
    DigitsNum(Digits(|s|, v));
  }

  lemma {:induction false} IncValue(s: seq<Byte>)
    ensures Num(s) < Pow(|s|) && Num(Inc(s)) == if Num(s) + 1 == Pow(|s|) then 0 else Num(s) + 1
  {
    NumRange(s);
    NumDigits(|s|, Num(s) + 1);
    SmallRemainder(Num(s) + 1, Pow(|s|), if Num(s) + 1 == Pow(|s|) then 0 else Num(s) + 1);
  }

  /** Adding one to a number adds one to its tail, and to the rest only on a carry. */
  lemma {:induction false} IncTail(s: seq<Byte>, t: seq<Byte>)
    ensures Inc(s + t) == (if Num(t) + 1 == Pow(|t|) then Inc(s) else s) + Inc(t)
  {
    hide Num, Pow, Inc, Digits;
    var s' := if Num(t) + 1 == Pow(|t|) then Inc(s) else s;
    var r := s' + Inc(t);
    IncValue(s);
    IncValue(t);
    NumConcat(s, t);
    NumConcat(s', Inc(t));
    PowAdd(|s|, |t|);
    CarryValue(Pow(|s|), Pow(|t|), Num(s), Num(t), Num(s'), Num(Inc(t)));
    NumRange(r);
    SameNumber(s + t, r);
  }

  lemma {:induction false} SameNumber(s: seq<Byte>, r: seq<Byte>)
    requires |r| == |s|
    requires Num(r) == Num(s) + 1 || (Num(r) == 0 && Num(s) + 1 == Pow(|s|))
    ensures r == Inc(s)
  {
    NumRange(r);
    SmallRemainder(Num(s) + 1, Pow(|r|), Num(r));
    NumUnique(r, Num(s) + 1);
  }

  lemma {:induction false} CarryValue(p: nat, q: nat, s: nat, t: nat, s': nat, t': nat)
    requires s < p && t < q
    requires t' == if t + 1 == q then 0 else t + 1
    requires s' == if t + 1 == q then (if s + 1 == p then 0 else s + 1) else s
    ensures s' * q + t' == s * q + t + 1 || (s' * q + t' == 0 && s * q + t + 1 == p * q)
  {
    assert (s + 1) * q == s * q + q;
  }

  lemma {:induction false} SmallRemainder(v: nat, p: nat, r: nat)
    requires r < p && (v == r || (r == 0 && v == p))
    ensures v % p == r
  {
    QuotientUnique(p, v, if v == r then 0 else 1, r);
  }

  /** The counter block `j` steps on. */
  function CounterAt(s: seq<Byte>, j: nat): (r: seq<Byte>)
    ensures |r| == |s|
  {
    Digits(|s|, Num(s) + j)
  }

  lemma {:induction false} DigitsModulo(n: nat, u: nat, v: nat)
    requires u % Pow(n) == v % Pow(n)
    ensures Digits(n, u) == Digits(n, v)
  {
    NumDigits(n, u);
    NumDigits(n, v);
    DigitsNum(Digits(n, u));
    DigitsNum(Digits(n, v));
  }

  lemma {:induction false} AddModulo(p: nat, v: nat, k: nat)
    requires p > 0
    ensures (v % p + k) % p == (v + k) % p
  {
    var w := v % p + k;
    var q, r := w / p, w % p;
    assert w == p * q + r;
    assert v == p * (v / p) + v % p;
    assert p * (v / p) + p * q == p * (v / p + q);
    QuotientUnique(p, v + k, v / p + q, r);
  }

  lemma {:induction false} CounterSteps(s: seq<Byte>, j: nat)
    ensures CounterAt(s, 0) == s && CounterAt(Inc(s), j) == CounterAt(s, j + 1)
  {
    DigitsNum(s);
    NumDigits(|s|, Num(s) + 1);
    AddModulo(Pow(|s|), Num(s) + 1, j);
    DigitsModulo(|s|, (Num(s) + 1) % Pow(|s|) + j, Num(s) + 1 + j);
  }

  /** Counter blocks repeat only after 256 to the block size. */
  lemma {:induction false} CountersDistinct(s: seq<Byte>, i: nat, j: nat)
    requires i < j < i + Pow(|s|)
    ensures CounterAt(s, i) != CounterAt(s, j)
  {
    hide SameResidue, Num, Pow, Digits;
    ResiduesDiffer(Pow(|s|), Num(s) + i, Num(s) + j);
    DigitsDiffer(|s|, Num(s) + i, Num(s) + j);
  }

  lemma {:induction false} DigitsDiffer(n: nat, u: nat, v: nat)
    requires !SameResidue(Pow(n), u, v)
    ensures Digits(n, u) != Digits(n, v)
  {
    NumDigits(n, u);
    NumDigits(n, v);
  }

  predicate SameResidue(p: nat, u: nat, v: nat)
    requires p > 0
  {
    u % p == v % p
  }

  lemma {:induction false} ResiduesDiffer(p: nat, u: nat, v: nat)
    requires u < v < u + p
    ensures !SameResidue(p, u, v)
  {
    var qu, qv := u / p, v / p;
    assert u == p * qu + u % p && v == p * qv + v % p;
    var d := qv - qu;
    assert v - u == p * d + (v % p - u % p);
    assert d >= 1 ==> p * d >= p;
    assert d <= 0 ==> p * d <= 0;
  }

  // ---------------------------------------------------------------------------
  // CTR
  // ---------------------------------------------------------------------------

  function Ctr(c: Cipher, ctr: seq<Byte>, p: seq<Byte>): (r: seq<Byte>)
    requires Ok(c) && |ctr| == c.bsize
    ensures |r| == |p|
    decreases |p|
  {
    if |p| < c.bsize then Xor(p, Enc(c, ctr)[..|p|])
    else Xor(p[..c.bsize], Enc(c, ctr)) + Ctr(c, Inc(ctr), p[c.bsize..])
  }

  /** The counter block after `n` bytes; a last partial block uses one up. */
  function CtrNext(c: Cipher, ctr: seq<Byte>, n: nat): (r: seq<Byte>)
    requires |ctr| == c.bsize
    ensures |r| == c.bsize
    decreases n
  {
    if n == 0 then ctr else if n < c.bsize then Inc(ctr) else CtrNext(c, Inc(ctr), n - c.bsize)
  }

  lemma {:induction false} CtrUnfold(c: Cipher, ctr: seq<Byte>, p: seq<Byte>)
    requires Ok(c) && |ctr| == c.bsize
    ensures |p| < c.bsize ==> Ctr(c, ctr, p) == Xor(p, Enc(c, ctr)[..|p|])
    ensures |p| >= c.bsize ==> Ctr(c, ctr, p) == Xor(p[..c.bsize], Enc(c, ctr)) + Ctr(c, Inc(ctr), p[c.bsize..])
  {
  }

  lemma {:induction false} CtrSplit(c: Cipher, ctr: seq<Byte>, p: seq<Byte>, k: nat)
    requires Ok(c) && |ctr| == c.bsize && k <= |p| && Left(c.bsize, k) == 0
    ensures Ctr(c, ctr, p) == Ctr(c, ctr, p[..k]) + Ctr(c, CtrNext(c, ctr, k), p[k..])
    ensures CtrNext(c, ctr, |p|) == CtrNext(c, CtrNext(c, ctr, k), |p| - k)
    decreases k
  {
    hide Xor, Ok, Enc, Dec, Ctr, Inc;
    if k == 0 {
      assert p[k..] == p && p[..k] == [];
      assert Ctr(c, ctr, []) == [];
    } else {
      var b := c.bsize;
      assert k >= b;
      Slices(p, b, k);
      CtrUnfold(c, ctr, p);
      CtrUnfold(c, ctr, p[..k]);
      CtrSplit(c, Inc(ctr), p[b..], k - b);
    }
  }

  /** Byte `i`, which is byte `r` of block `j`, is masked with byte `r` of the encrypted counter
      plus `j`. */
  lemma {:induction false} CtrAt(c: Cipher, ctr: seq<Byte>, p: seq<Byte>, i: nat, j: nat, r: nat)
    requires Ok(c) && |ctr| == c.bsize && r < c.bsize && i == j * c.bsize + r < |p|
    ensures Ctr(c, ctr, p)[i] == XorByte(p[i], Enc(c, CounterAt(ctr, j))[r])
    decreases j
  {
    hide XorByte, Ok, Enc, Dec, Ctr, Inc, CounterAt;
    if j == 0 {
      CtrFirstBlock(c, ctr, p, i);
      CounterSteps(ctr, 0);
    } else {
      var b := c.bsize;
      CounterSteps(ctr, j - 1);
      BlockBefore(b, j, r);
      CtrAt(c, Inc(ctr), p[b..], i - b, j - 1, r);
      CtrLater(c, ctr, p, i);
    }
  }

  lemma {:induction false} CtrFirstBlock(c: Cipher, ctr: seq<Byte>, p: seq<Byte>, i: nat)
    requires Ok(c) && |ctr| == c.bsize && i < c.bsize && i < |p|
    ensures Ctr(c, ctr, p)[i] == XorByte(p[i], Enc(c, ctr)[i])
  {
    hide XorByte, Ok, Enc, Dec, Ctr, Inc;
    CtrUnfold(c, ctr, p);
  }

  lemma {:induction false} BlockBefore(b: nat, j: nat, r: nat)
    requires j > 0
    ensures j * b + r - b == (j - 1) * b + r
  {
  }

  lemma {:induction false} CtrLater(c: Cipher, ctr: seq<Byte>, p: seq<Byte>, i: nat)
    requires Ok(c) && |ctr| == c.bsize <= i < |p|
    ensures Ctr(c, ctr, p)[i] == Ctr(c, Inc(ctr), p[c.bsize..])[i - c.bsize]
  {
    hide Xor, Ok, Enc, Dec, Inc;
  }

  /** Decryption is encryption. */
  lemma {:induction false} CtrRoundTrip(c: Cipher, ctr: seq<Byte>, p: seq<Byte>)
    requires Ok(c) && |ctr| == c.bsize
    ensures Ctr(c, ctr, Ctr(c, ctr, p)) == p
    decreases |p|
  {
    hide Xor, Ok, Enc, Dec, Ctr, Inc;
    var b := c.bsize;
    var x := Ctr(c, ctr, p);
    CtrUnfold(c, ctr, p);
    CtrUnfold(c, ctr, x);
    if |p| < b {
      XorSelf(p, Enc(c, ctr)[..|p|]);
    } else {
      CtrRoundTrip(c, Inc(ctr), p[b..]);
      XorSelf(p[..b], Enc(c, ctr));
      assert x[..b] == Xor(p[..b], Enc(c, ctr)) && x[b..] == Ctr(c, Inc(ctr), p[b..]);
      assert p[..b] + p[b..] == p;
    }
  }
}
