/**
  The Camellia block cipher. The published network is section 2.3 of RFC 3713; the code runs a
  different one, on a key table from which the whitening keys kw2 and kw4 have been absorbed
  into the round keys, in which a round key is XORed at the end of the round before it is
  needed, and which is passed through the inverse of half of the linear layer.

  Words of 64 bits are pairs of 32-bit halves, as in the code's (xxxL, xxxR). The four S-boxes
  are arbitrary functions on bytes.
*/
module CamelliaSpec {

  datatype W = W(l: bv32, r: bv32)

  // XOR of bytes, of halves and of words, as functions, so that proofs can use its laws
  // instead of its bits.

  function X8(a: bv8, b: bv8): bv8 { a ^ b }

  function X(a: bv32, b: bv32): bv32 { a ^ b }

  function Xor(a: W, b: W): W { W(X(a.l, b.l), X(a.r, b.r)) }

  function And(a: bv32, b: bv32): bv32 { a & b }
  function Or(a: bv32, b: bv32): bv32 { a | b }
  function AndNot(a: bv32, b: bv32): bv32 { a & !b }

  const ZERO := W(0, 0)

  function Rol1(x: bv32): bv32 { (x << 1) | (x >> 31) }
  function Rol8(x: bv32): bv32 { (x << 8) | (x >> 24) }
  function Ror8(x: bv32): bv32 { (x >> 8) | (x << 24) }

  /** Byte n of a half, counted from the most significant one. */
  function Byte(x: bv32, n: nat): bv8
    requires n < 4
  {
    var y: bv32 := if n == 0 then x >> 24 else if n == 1 then x >> 16 else if n == 2 then x >> 8 else x;
    (y & 0xff) as bv8
  }

  function Pack(a: bv8, b: bv8, c: bv8, d: bv8): bv32 {
    ((a as bv32) << 24) | ((b as bv32) << 16) | ((c as bv32) << 8) | (d as bv32)
  }

  datatype Sboxes = Sboxes(s1: bv8 -> bv8, s2: bv8 -> bv8, s3: bv8 -> bv8, s4: bv8 -> bv8)

  // ---------------------------------------------------------------------------
  // The network of RFC 3713
  // ---------------------------------------------------------------------------

  function X5(a: bv8, b: bv8, c: bv8, d: bv8, e: bv8): bv8 { X8(a, X8(b, X8(c, X8(d, e)))) }

  function X6(a: bv8, b: bv8, c: bv8, d: bv8, e: bv8, f: bv8): bv8 { X8(a, X5(b, c, d, e, f)) }

  /** The P-function of section 2.4.1 */
  function P(t1: bv8, t2: bv8, t3: bv8, t4: bv8, t5: bv8, t6: bv8, t7: bv8, t8: bv8): W {
    W(Pack(X6(t1, t3, t4, t6, t7, t8), X6(t1, t2, t4, t5, t7, t8),
           X6(t1, t2, t3, t5, t6, t8), X6(t2, t3, t4, t5, t6, t7)),
      Pack(X5(t1, t2, t6, t7, t8), X5(t2, t3, t5, t7, t8),
           X5(t3, t4, t5, t6, t8), X5(t1, t4, t5, t6, t7)))
  }

  /** The F-function of section 2.4.1, without the key addition. */
  function F(sb: Sboxes, x: W): W {
    P(sb.s1(Byte(x.l, 0)), sb.s2(Byte(x.l, 1)), sb.s3(Byte(x.l, 2)), sb.s4(Byte(x.l, 3)),
      sb.s2(Byte(x.r, 0)), sb.s3(Byte(x.r, 1)), sb.s4(Byte(x.r, 2)), sb.s1(Byte(x.r, 3)))
  }

  /** Section 2.4.2 */
  function FL(x: W, k: W): W {
    var r := X(x.r, Rol1(And(x.l, k.l)));
    W(X(x.l, Or(r, k.r)), r)
  }

  /** Section 2.4.3 */
  function FLinv(y: W, k: W): W {
    var l := X(y.l, Or(y.r, k.r));
    W(l, X(y.r, Rol1(And(l, k.l))))
  }

  datatype State = State(d1: W, d2: W)

  function Swap(s: State): State { State(s.d2, s.d1) }

  /** One Feistel round each way. */
  function Right(sb: Sboxes, k: W, s: State): State { s.(d2 := Xor(s.d2, F(sb, Xor(s.d1, k)))) }
  function Left(sb: Sboxes, k: W, s: State): State { s.(d1 := Xor(s.d1, F(sb, Xor(s.d2, k)))) }

  /** Six rounds with the keys from position `at` on. */
  function Six(sb: Sboxes, k: seq<W>, at: nat, s: State): State
    requires at + 6 <= |k|
  {
    Left(sb, k[at + 5], Right(sb, k[at + 4], Left(sb, k[at + 3],
      Right(sb, k[at + 2], Left(sb, k[at + 1], Right(sb, k[at], s))))))
  }

  /** All keys in one table, in the order the code keeps them: kw1, kw2, then for each block of
      six rounds its six keys and, except after the last block, the keys of the FL and FLinv
      layer behind it, then kw3, kw4. */
  predicate IsKeys(sub: seq<W>, blocks: nat) {
    1 <= blocks && |sub| >= 8 * blocks + 2
  }

  /** Rounds and FL layers from block i on. */
  function Blocks(sb: Sboxes, sub: seq<W>, blocks: nat, i: nat, s: State): State
    requires IsKeys(sub, blocks) && i < blocks
    decreases blocks - i
  {
    var t := Six(sb, sub, 8 * i + 2, s);
    if i + 1 == blocks then t
    else Blocks(sb, sub, blocks, i + 1, State(FL(t.d1, sub[8 * i + 8]), FLinv(t.d2, sub[8 * i + 9])))
  }

  /** Section 2.3.1 (three blocks of six rounds) and section 2.3.2 (four blocks). */
  function Encrypt(sb: Sboxes, sub: seq<W>, blocks: nat, m: State): State
    requires IsKeys(sub, blocks)
  {
    var s := Blocks(sb, sub, blocks, 0, State(Xor(m.d1, sub[0]), Xor(m.d2, sub[1])));
    State(Xor(s.d2, sub[8 * blocks]), Xor(s.d1, sub[8 * blocks + 1]))
  }

  // ---------------------------------------------------------------------------
  // Laws of XOR
  // ---------------------------------------------------------------------------

  lemma X8Laws()
    ensures forall a, b, c {:trigger X8(X8(a, b), c)} :: X8(X8(a, b), c) == X8(a, X8(b, c))
    ensures forall a, b {:trigger X8(a, b)} :: X8(a, b) == X8(b, a)
    ensures forall a, b, c {:trigger X8(a, X8(b, c))} :: X8(a, X8(b, c)) == X8(b, X8(a, c))
    ensures forall a, b {:trigger X8(a, X8(a, b))} :: X8(a, X8(a, b)) == b
    ensures forall a :: X8(a, 0) == a
  {
  }

  lemma XAssoc(a: bv32, b: bv32, c: bv32)
    ensures X(X(a, b), c) == X(a, X(b, c))
  {
  }

  lemma XCancel(a: bv32, b: bv32)
    ensures X(a, X(a, b)) == b && X(a, b) == X(b, a) && X(a, 0) == a && X(a, a) == 0
  {
  }

  lemma XLaws()
    ensures forall a, b, c {:trigger X(X(a, b), c)} :: X(X(a, b), c) == X(a, X(b, c))
    ensures forall a, b {:trigger X(a, b)} :: X(a, b) == X(b, a)
    ensures forall a, b, c {:trigger X(a, X(b, c))} :: X(a, X(b, c)) == X(b, X(a, c))
    ensures forall a, b {:trigger X(a, X(a, b))} :: X(a, X(a, b)) == b
  {
    hide X;
    forall a: bv32, b: bv32 ensures X(a, X(a, b)) == b && X(a, b) == X(b, a) {
      XCancel(a, b);
    }
    forall a: bv32, b: bv32, c: bv32 ensures X(X(a, b), c) == X(a, X(b, c)) && X(a, X(b, c)) == X(b, X(a, c)) {
      XAssoc(a, b, c);
      XAssoc(b, a, c);
      XCancel(a, b);
    }
  }

  lemma XorLaws()
    ensures forall a, b, c {:trigger Xor(Xor(a, b), c)} :: Xor(Xor(a, b), c) == Xor(a, Xor(b, c))
    ensures forall a, b {:trigger Xor(a, b)} :: Xor(a, b) == Xor(b, a)
    ensures forall a, b, c {:trigger Xor(a, Xor(b, c))} :: Xor(a, Xor(b, c)) == Xor(b, Xor(a, c))
    ensures forall a, b {:trigger Xor(a, Xor(a, b))} :: Xor(a, Xor(a, b)) == b
    ensures forall a {:trigger Xor(a, ZERO)} :: Xor(a, ZERO) == a
  {
    hide X;
    XLaws();
    forall a: W ensures Xor(a, ZERO) == a {
      XCancel(a.l, a.l);
      XCancel(a.r, a.r);
    }
  }
}

module CamelliaTable {
  import opened CamelliaSpec

  // ---------------------------------------------------------------------------
  // A round of the code
  // ---------------------------------------------------------------------------

  /** The tables camellia_sp1110, sp0222, sp3033 and sp4404. */
  function Sp1110(sb: Sboxes, x: bv8): bv32 { Pack(sb.s1(x), sb.s1(x), sb.s1(x), 0) }
  function Sp0222(sb: Sboxes, x: bv8): bv32 { Pack(0, sb.s2(x), sb.s2(x), sb.s2(x)) }
  function Sp3033(sb: Sboxes, x: bv8): bv32 { Pack(sb.s3(x), 0, sb.s3(x), sb.s3(x)) }
  function Sp4404(sb: Sboxes, x: bv8): bv32 { Pack(sb.s4(x), sb.s4(x), 0, sb.s4(x)) }

  /** The code's word for the left half of the input, `il`, and for the right half, `ir`. */
  function LeftOf(sb: Sboxes, x: bv32): bv32 {
    X(X(X(Sp1110(sb, Byte(x, 0)), Sp0222(sb, Byte(x, 1))), Sp3033(sb, Byte(x, 2))), Sp4404(sb, Byte(x, 3)))
  }

  function RightOf(sb: Sboxes, x: bv32): bv32 {
    X(X(X(Sp1110(sb, Byte(x, 3)), Sp0222(sb, Byte(x, 0))), Sp3033(sb, Byte(x, 1))), Sp4404(sb, Byte(x, 2)))
  }

  /** CAMELLIA_ROUNDSM: the new value of y */
  function RoundSm(sb: Sboxes, x: W, k: W, y: W): W {
    var il := X(LeftOf(sb, x.l), k.l);
    var ir := X(RightOf(sb, x.r), X(il, k.r));
    W(X(y.l, ir), X(y.r, X(Ror8(il), ir)))
  }

  /** The inverse of the last half of the P-function, as applied to a table entry. */
  function PInv(w: W): W {
    var d := Rol8(X(w.l, w.r));
    W(d, X(w.l, d))
  }

  // ---------------------------------------------------------------------------
  // ... is a round of the network
  // ---------------------------------------------------------------------------

  lemma PackXor(a: bv8, b: bv8, c: bv8, d: bv8, a': bv8, b': bv8, c': bv8, d': bv8)
    ensures X(Pack(a, b, c, d), Pack(a', b', c', d')) == Pack(X8(a, a'), X8(b, b'), X8(c, c'), X8(d, d'))
  {
  }

  lemma PackRor(a: bv8, b: bv8, c: bv8, d: bv8)
    ensures Ror8(Pack(a, b, c, d)) == Pack(d, a, b, c)
  {
  }

  lemma RorRol(a: bv32)
    ensures Ror8(Rol8(a)) == a
  {
  }

  lemma RorXor(a: bv32, b: bv32)
    ensures Ror8(X(a, b)) == X(Ror8(a), Ror8(b))
  {
  }

  /** The word the four tables give for one half of the input. */
  lemma HalfWord(t1: bv8, t2: bv8, t3: bv8, t4: bv8)
    ensures X(X(X(Pack(t1, t1, t1, 0), Pack(0, t2, t2, t2)), Pack(t3, 0, t3, t3)), Pack(t4, t4, 0, t4))
         == Pack(X8(X8(t1, t3), t4), X8(X8(t1, t2), t4), X8(X8(t1, t2), t3), X8(X8(t2, t3), t4))
  {
    hide Pack, X, X8;
    X8Laws();
    PackXor(t1, t1, t1, 0, 0, t2, t2, t2);
    PackXor(t1, X8(t1, t2), X8(t1, t2), t2, t3, 0, t3, t3);
    PackXor(X8(t1, t3), X8(t1, t2), X8(X8(t1, t2), t3), X8(t2, t3), t4, t4, 0, t4);
  }

  lemma X8Assoc(a: bv8, b: bv8, c: bv8)
    ensures X8(X8(a, b), c) == X8(a, X8(b, c))
  {
  }

  lemma X8Comm(a: bv8, b: bv8)
    ensures X8(a, b) == X8(b, a)
  {
  }

  lemma Sum6(a: bv8, b: bv8, c: bv8, d: bv8, e: bv8, f: bv8)
    ensures X8(X8(X8(a, b), c), X8(X8(d, e), f)) == X6(d, e, f, a, b, c)
  {
    hide X8;
    var t := X8(X8(a, b), c);
    X8Assoc(a, b, c);
    X8Comm(t, X8(X8(d, e), f));
    X8Assoc(X8(d, e), f, t);
    X8Assoc(d, e, X8(f, t));
  }

  lemma Turn(a: bv8, b: bv8, c: bv8)
    ensures X8(X8(a, b), c) == X8(X8(b, c), a)
  {
    hide X8;
    X8Assoc(a, b, c);
    X8Comm(a, X8(b, c));
  }

  // Terms that occur twice drop out; `r` stands for the rest of the sum.

  lemma Drop1(u: bv8, v: bv8, w: bv8, z: bv8, r: bv8)
    ensures X8(X8(X8(u, v), w), X8(z, X8(v, X8(w, r)))) == X8(z, X8(u, r))
  {
  }

  lemma Drop2(u: bv8, v: bv8, w: bv8, z: bv8, r: bv8)
    ensures X8(X8(X8(u, v), w), X8(u, X8(z, X8(w, r)))) == X8(z, X8(v, r))
  {
  }

  lemma Drop3(u: bv8, v: bv8, w: bv8, z: bv8, r: bv8)
    ensures X8(X8(X8(u, v), w), X8(u, X8(v, X8(z, r)))) == X8(z, X8(w, r))
  {
  }

  lemma Drop4(u: bv8, v: bv8, w: bv8, z: bv8, r: bv8)
    ensures X8(X8(X8(u, v), w), X8(v, X8(w, X8(z, r)))) == X8(u, X8(z, r))
  {
  }

  /** Both halves together are the P-function. */
  lemma PFunction(t1: bv8, t2: bv8, t3: bv8, t4: bv8, t5: bv8, t6: bv8, t7: bv8, t8: bv8)
    ensures var il := Pack(X8(X8(t1, t3), t4), X8(X8(t1, t2), t4), X8(X8(t1, t2), t3), X8(X8(t2, t3), t4));
      var ir := Pack(X8(X8(t8, t6), t7), X8(X8(t8, t5), t7), X8(X8(t8, t5), t6), X8(X8(t5, t6), t7));
      P(t1, t2, t3, t4, t5, t6, t7, t8) == W(X(ir, il), X(Ror8(il), X(ir, il)))
  {
    hide Pack, Ror8, X, X8;
    var a, b, c, d := X8(X8(t1, t3), t4), X8(X8(t1, t2), t4), X8(X8(t1, t2), t3), X8(X8(t2, t3), t4);
    var p, q, r, s := X8(X8(t8, t6), t7), X8(X8(t8, t5), t7), X8(X8(t8, t5), t6), X8(X8(t5, t6), t7);
    PackXor(p, q, r, s, a, b, c, d);
    PackRor(a, b, c, d);
    PackXor(d, a, b, c, X8(p, a), X8(q, b), X8(r, c), X8(s, d));
    Turn(t8, t6, t7);
    Turn(t8, t5, t7);
    Turn(t8, t5, t6);
    Sum6(t6, t7, t8, t1, t3, t4);
    Sum6(t5, t7, t8, t1, t2, t4);
    Sum6(t5, t6, t8, t1, t2, t3);
    Sum6(t5, t6, t7, t2, t3, t4);
    Drop1(t2, t3, t4, t1, X8(t6, X8(t7, t8)));
    Drop2(t1, t3, t4, t2, X8(t5, X8(t7, t8)));
    Drop3(t1, t2, t4, t3, X8(t5, X8(t6, t8)));
    Drop4(t1, t2, t3, t4, X8(t5, X8(t6, t7)));
  }

  /** The table look-ups compute F. */
  lemma RoundWords(sb: Sboxes, x: W)
    ensures var il, ir := LeftOf(sb, x.l), RightOf(sb, x.r);
      F(sb, x) == W(X(ir, il), X(Ror8(il), X(ir, il)))
  {
    hide Pack, Byte, Ror8, X, X8, P;
    var t1, t2, t3, t4 := sb.s1(Byte(x.l, 0)), sb.s2(Byte(x.l, 1)), sb.s3(Byte(x.l, 2)), sb.s4(Byte(x.l, 3));
    var t5, t6, t7, t8 := sb.s2(Byte(x.r, 0)), sb.s3(Byte(x.r, 1)), sb.s4(Byte(x.r, 2)), sb.s1(Byte(x.r, 3));
    HalfWord(t1, t2, t3, t4);
    HalfWord(t8, t5, t6, t7);
    PFunction(t1, t2, t3, t4, t5, t6, t7, t8);
  }

  lemma RoundLeft(y: bv32, il: bv32, ir: bv32, d: bv32, kl: bv32)
    ensures X(y, X(ir, X(X(il, d), X(kl, d)))) == X(y, X(X(ir, il), kl))
  {
    hide X;
    XLaws();
  }

  lemma RoundRight(y: bv32, il: bv32, ir: bv32, rot: bv32, d: bv32, kl: bv32, kr: bv32)
    ensures X(y, X(X(rot, X(kl, kr)), X(ir, X(X(il, d), X(kl, d))))) == X(y, X(X(rot, X(ir, il)), kr))
  {
    hide X;
    XLaws();
  }

  /** A round of the code on the entry PInv(k): F of the unkeyed input, and then the key. */
  lemma RoundSmIsF(sb: Sboxes, x: W, k: W, y: W)
    ensures RoundSm(sb, x, PInv(k), y) == Xor(y, Xor(F(sb, x), k))
  {
    hide X, Rol8, Ror8, LeftOf, RightOf, F;
    var il, ir, d := LeftOf(sb, x.l), RightOf(sb, x.r), Rol8(X(k.l, k.r));
    RoundWords(sb, x);
    RorXor(il, d);
    RorRol(X(k.l, k.r));
    RoundLeft(y.l, il, ir, d, k.l);
    RoundRight(y.r, il, ir, Ror8(il), d, k.l, k.r);
  }
}

module CamelliaCode {
  import opened CamelliaSpec
  import opened CamelliaTable

  // ---------------------------------------------------------------------------
  // Moving a difference through the FL layer
  // ---------------------------------------------------------------------------

  /** The difference behind FLinv caused by a difference d in front of it; also the difference
      in front of FL that causes d behind it. */
  function Through(d: W, k: W): W {
    var l := X(d.l, AndNot(d.r, k.r));
    W(l, X(d.r, Rol1(And(l, k.l))))
  }

  lemma AndBits(a: bv32, b: bv32, k: bv32)
    ensures (a ^ b) & k == (a & k) ^ (b & k)
  {
  }

  lemma AndMask(a: bv32, b: bv32, k: bv32)
    ensures And(X(a, b), k) == X(And(a, k), And(b, k))
  {
    AndBits(a, b, k);
  }

  lemma AndNotMask(a: bv32, b: bv32, k: bv32)
    ensures AndNot(X(a, b), k) == X(AndNot(a, k), AndNot(b, k))
  {
    calc {
      AndNot(X(a, b), k);
      (a ^ b) & !k;
      { AndBits(a, b, !k); }
      (a & !k) ^ (b & !k);
      X(AndNot(a, k), AndNot(b, k));
    }
  }

  lemma OrForm(a: bv32, k: bv32)
    ensures Or(a, k) == X(AndNot(a, k), k)
  {
  }

  lemma OrMask(a: bv32, b: bv32, k: bv32)
    ensures Or(X(a, b), k) == X(Or(a, k), AndNot(b, k))
  {
    hide Or, X, AndNot;
    OrForm(X(a, b), k);
    OrForm(a, k);
    AndNotMask(a, b, k);
    XLaws();
  }

  lemma RolXor(a: bv32, b: bv32)
    ensures Rol1(X(a, b)) == X(Rol1(a), Rol1(b))
  {
  }

  lemma Interchange(a: bv32, b: bv32, c: bv32, d: bv32)
    ensures X(X(a, b), X(c, d)) == X(X(a, c), X(b, d))
  {
    hide X;
    XLaws();
  }

  lemma FLinvThrough(y: W, d: W, k: W)
    ensures FLinv(Xor(y, d), k) == Xor(FLinv(y, k), Through(d, k))
  {
    hide X, Rol1, And, Or, AndNot;
    var l, m := X(y.l, Or(y.r, k.r)), X(d.l, AndNot(d.r, k.r));
    OrMask(y.r, d.r, k.r);
    Interchange(y.l, d.l, Or(y.r, k.r), AndNot(d.r, k.r));
    AndMask(l, m, k.l);
    RolXor(And(l, k.l), And(m, k.l));
    Interchange(y.r, d.r, Rol1(And(l, k.l)), Rol1(And(m, k.l)));
  }

  lemma ThroughXor(a: W, b: W, k: W)
    ensures Through(Xor(a, b), k) == Xor(Through(a, k), Through(b, k))
  {
    hide X, Rol1, And, AndNot;
    var l, m := X(a.l, AndNot(a.r, k.r)), X(b.l, AndNot(b.r, k.r));
    AndNotMask(a.r, b.r, k.r);
    Interchange(a.l, b.l, AndNot(a.r, k.r), AndNot(b.r, k.r));
    AndMask(l, m, k.l);
    RolXor(And(l, k.l), And(m, k.l));
    Interchange(a.r, b.r, Rol1(And(l, k.l)), Rol1(And(m, k.l)));
  }

  lemma FLInverse(x: W, k: W)
    ensures FLinv(FL(x, k), k) == x && FL(FLinv(x, k), k) == x
  {
    hide X, Rol1, And, Or;
    var r := X(x.r, Rol1(And(x.l, k.l)));
    XCancel(Or(r, k.r), x.l);
    XCancel(x.l, Or(r, k.r));
    XCancel(Rol1(And(x.l, k.l)), x.r);
    XCancel(x.r, Rol1(And(x.l, k.l)));
    XCancel(r, Rol1(And(x.l, k.l)));
    XCancel(X(x.l, Or(r, k.r)), Or(r, k.r));
    var l := X(x.l, Or(x.r, k.r));
    XCancel(Rol1(And(l, k.l)), x.r);
    XCancel(x.r, Rol1(And(l, k.l)));
    XCancel(X(x.r, Rol1(And(l, k.l))), Rol1(And(l, k.l)));
    XCancel(Or(x.r, k.r), x.l);
    XCancel(x.l, Or(x.r, k.r));
    XCancel(l, Or(x.r, k.r));
  }

  lemma FLThrough(x: W, d: W, k: W)
    ensures FL(Xor(x, Through(d, k)), k) == Xor(FL(x, k), d)
  {
    hide FL, FLinv, Xor, Through;
    FLInverse(x, k);
    FLinvThrough(FL(x, k), d, k);
    FLInverse(Xor(FL(x, k), d), k);
  }

  // ---------------------------------------------------------------------------
  // The code's network, and what its table must hold
  // ---------------------------------------------------------------------------

  /** ROUNDS(i) of camellia_do_encrypt, on the table entries from position `at` on. */
  function CodeSix(sb: Sboxes, t: seq<W>, at: nat, s: State): State
    requires at + 6 <= |t|
  {
    var s1 := s.(d2 := RoundSm(sb, s.d1, t[at], s.d2));
    var s2 := s1.(d1 := RoundSm(sb, s1.d2, t[at + 1], s1.d1));
    var s3 := s2.(d2 := RoundSm(sb, s2.d1, t[at + 2], s2.d2));
    var s4 := s3.(d1 := RoundSm(sb, s3.d2, t[at + 3], s3.d1));
    var s5 := s4.(d2 := RoundSm(sb, s4.d1, t[at + 4], s4.d2));
    s5.(d1 := RoundSm(sb, s5.d2, t[at + 5], s5.d1))
  }

  function CodeBlocks(sb: Sboxes, t: seq<W>, blocks: nat, i: nat, s: State): State
    requires 8 * blocks < |t| && i < blocks
    decreases blocks - i
  {
    var u := CodeSix(sb, t, 8 * i + 2, s);
    if i + 1 == blocks then u
    else CodeBlocks(sb, t, blocks, i + 1, State(FL(u.d1, t[8 * i + 8]), FLinv(u.d2, t[8 * i + 9])))
  }

  /** camellia_do_encrypt; its caller swaps the halves. */
  function CodeEncrypt(sb: Sboxes, t: seq<W>, blocks: nat, m: State): State
    requires 1 <= blocks && 8 * blocks < |t|
  {
    var s := CodeBlocks(sb, t, blocks, 0, m.(d1 := Xor(m.d1, t[0])));
    s.(d2 := Xor(s.d2, t[8 * blocks]))
  }

  /** The difference of the right half when block i starts ... */
  function Enter(sub: seq<W>, i: nat): W
    requires |sub| >= 8 * i + 2
  {
    if i == 0 then sub[1] else Through(sub[8 * i - 1], sub[8 * i + 1])
  }

  /** ... and of the left half when it ends. */
  function Leave(sub: seq<W>, blocks: nat, i: nat): W
    requires IsKeys(sub, blocks) && i < blocks
  {
    if i + 1 == blocks then sub[8 * blocks + 1] else Through(sub[8 * i + 10], sub[8 * i + 8])
  }

  /** What the code's table holds for the rounds of block i: next to the difference that the
      round removes, the key of the round after the next, all passed through PInv. */
  ghost predicate RoundsOk(t: seq<W>, sub: seq<W>, at: nat, enter: W, leave: W)
    requires at + 6 <= |t| && at + 6 <= |sub|
  {
    && t[at] == PInv(Xor(enter, sub[at + 1]))
    && t[at + 1] == PInv(Xor(sub[at], sub[at + 2]))
    && t[at + 2] == PInv(Xor(sub[at + 1], sub[at + 3]))
    && t[at + 3] == PInv(Xor(sub[at + 2], sub[at + 4]))
    && t[at + 4] == PInv(Xor(sub[at + 3], sub[at + 5]))
    && t[at + 5] == PInv(Xor(sub[at + 4], leave))
  }

  ghost predicate LayerOk(t: seq<W>, sub: seq<W>, blocks: nat, i: nat)
    requires IsKeys(sub, blocks) && 8 * blocks < |t| && i + 1 < blocks
  {
    t[8 * i + 8] == sub[8 * i + 8] && t[8 * i + 9] == sub[8 * i + 9]
  }

  /** t is a table for the keys sub. */
  ghost predicate TableOk(t: seq<W>, sub: seq<W>, blocks: nat) {
    && IsKeys(sub, blocks) && 8 * blocks < |t|
    && t[0] == Xor(sub[0], sub[2])
    && t[8 * blocks] == Xor(sub[8 * blocks], sub[8 * blocks - 1])
    && (forall i: nat :: i < blocks ==> RoundsOk(t, sub, 8 * i + 2, Enter(sub, i), Leave(sub, blocks, i)))
    && (forall i: nat :: i + 1 < blocks ==> LayerOk(t, sub, blocks, i))
  }

  // ---------------------------------------------------------------------------
  // Both networks agree
  // ---------------------------------------------------------------------------

  /** One round: the half that is read carries the key already, the half that is written
      exchanges the difference a for the key of the next round, b. */
  lemma OneRound(sb: Sboxes, x: W, y: W, a: W, b: W, e: W)
    requires e == PInv(Xor(a, b))
    ensures RoundSm(sb, x, e, Xor(y, a)) == Xor(Xor(y, F(sb, x)), b)
  {
    RoundSmIsF(sb, x, Xor(a, b), Xor(y, a));
    hide RoundSm, F, Xor, PInv;
    XorLaws();
  }

  lemma SixRounds(sb: Sboxes, t: seq<W>, sub: seq<W>, at: nat, s: State, c: State, enter: W, leave: W)
    requires at + 6 <= |t| && at + 6 <= |sub|
    requires RoundsOk(t, sub, at, enter, leave)
    requires c.d1 == Xor(s.d1, sub[at]) && c.d2 == Xor(s.d2, enter)
    ensures var u, v := Six(sb, sub, at, s), CodeSix(sb, t, at, c);
      v.d1 == Xor(u.d1, leave) && v.d2 == Xor(u.d2, sub[at + 5])
  {
    hide RoundSm, F, Xor, PInv;
    var k0, k1, k2, k3, k4, k5 := sub[at], sub[at + 1], sub[at + 2], sub[at + 3], sub[at + 4], sub[at + 5];
    var s1 := Right(sb, k0, s);
    OneRound(sb, c.d1, s.d2, enter, k1, t[at]);
    var s2 := Left(sb, k1, s1);
    OneRound(sb, Xor(s1.d2, k1), s1.d1, k0, k2, t[at + 1]);
    var s3 := Right(sb, k2, s2);
    OneRound(sb, Xor(s2.d1, k2), s2.d2, k1, k3, t[at + 2]);
    var s4 := Left(sb, k3, s3);
    OneRound(sb, Xor(s3.d2, k3), s3.d1, k2, k4, t[at + 3]);
    var s5 := Right(sb, k4, s4);
    OneRound(sb, Xor(s4.d1, k4), s4.d2, k3, k5, t[at + 4]);
    OneRound(sb, Xor(s5.d2, k5), s5.d1, k4, leave, t[at + 5]);
  }

  lemma {:induction false} BlocksAgree(sb: Sboxes, t: seq<W>, sub: seq<W>, blocks: nat, i: nat, s: State, c: State)
    requires TableOk(t, sub, blocks) && i < blocks
    requires c.d1 == Xor(s.d1, sub[8 * i + 2]) && c.d2 == Xor(s.d2, Enter(sub, i))
    ensures var u, v := Blocks(sb, sub, blocks, i, s), CodeBlocks(sb, t, blocks, i, c);
      v.d1 == Xor(u.d1, sub[8 * blocks + 1]) && v.d2 == Xor(u.d2, sub[8 * blocks - 1])
    decreases blocks - i
  {
    hide Xor, PInv, Through, FL, FLinv, CodeSix, Six;
    var at := 8 * i + 2;
    var u, v := Six(sb, sub, at, s), CodeSix(sb, t, at, c);
    SixRounds(sb, t, sub, at, s, c, Enter(sub, i), Leave(sub, blocks, i));
    if i + 1 < blocks {
      assert LayerOk(t, sub, blocks, i);
      FLThrough(u.d1, sub[at + 8], sub[at + 6]);
      FLinvThrough(u.d2, sub[at + 5], sub[at + 7]);
      BlocksAgree(sb, t, sub, blocks, i + 1, State(FL(u.d1, sub[at + 6]), FLinv(u.d2, sub[at + 7])),
                  State(FL(v.d1, t[at + 6]), FLinv(v.d2, t[at + 7])));
    }
  }

  /** The code, run on a table for the keys, computes the cipher of RFC 3713. */
  lemma EncryptAgrees(sb: Sboxes, t: seq<W>, sub: seq<W>, blocks: nat, m: State)
    requires TableOk(t, sub, blocks)
    ensures Swap(CodeEncrypt(sb, t, blocks, m)) == Encrypt(sb, sub, blocks, m)
  {
    var s := State(Xor(m.d1, sub[0]), Xor(m.d2, sub[1]));
    var c := m.(d1 := Xor(m.d1, t[0]));
    hide Xor, Blocks, CodeBlocks;
    XorLaws();
    BlocksAgree(sb, t, sub, blocks, 0, s, c);
  }

  // ---------------------------------------------------------------------------
  // Decryption
  // ---------------------------------------------------------------------------

  /** ROUNDS(i) of camellia_do_decrypt: the same entries, last one first. */
  function CodeUnsix(sb: Sboxes, t: seq<W>, at: nat, s: State): State
    requires at + 6 <= |t|
  {
    var s1 := s.(d2 := RoundSm(sb, s.d1, t[at + 5], s.d2));
    var s2 := s1.(d1 := RoundSm(sb, s1.d2, t[at + 4], s1.d1));
    var s3 := s2.(d2 := RoundSm(sb, s2.d1, t[at + 3], s2.d2));
    var s4 := s3.(d1 := RoundSm(sb, s3.d2, t[at + 2], s3.d1));
    var s5 := s4.(d2 := RoundSm(sb, s4.d1, t[at + 1], s4.d2));
    s5.(d1 := RoundSm(sb, s5.d2, t[at], s5.d1))
  }

  /** FLS(8i) of camellia_do_decrypt: the keys change places. */
  function Unlayer(t: seq<W>, i: nat, s: State): State
    requires 8 * i + 1 < |t|
  {
    State(FL(s.d1, t[8 * i + 1]), FLinv(s.d2, t[8 * i]))
  }

  /** The blocks from i down to 0. */
  function CodeUnblocks(sb: Sboxes, t: seq<W>, i: nat, s: State): State
    requires 8 * i + 8 <= |t|
  {
    var u := CodeUnsix(sb, t, 8 * i + 2, s);
    if i == 0 then u else CodeUnblocks(sb, t, i - 1, Unlayer(t, i, u))
  }

  /** camellia_do_decrypt; its caller swaps the halves. */
  function CodeDecrypt(sb: Sboxes, t: seq<W>, blocks: nat, m: State): State
    requires 1 <= blocks && 8 * blocks < |t|
  {
    var s := CodeUnblocks(sb, t, blocks - 1, m.(d1 := Xor(m.d1, t[8 * blocks])));
    s.(d2 := Xor(s.d2, t[0]))
  }

  lemma RoundTwice(sb: Sboxes, x: W, k: W, y: W)
    ensures RoundSm(sb, x, k, RoundSm(sb, x, k, y)) == y
  {
    hide X, LeftOf, RightOf, Ror8;
    XLaws();
  }

  lemma SixUndone(sb: Sboxes, t: seq<W>, at: nat, s: State)
    requires at + 6 <= |t|
    ensures CodeUnsix(sb, t, at, Swap(CodeSix(sb, t, at, s))) == Swap(s)
  {
    hide RoundSm;
    var s1 := s.(d2 := RoundSm(sb, s.d1, t[at], s.d2));
    var s2 := s1.(d1 := RoundSm(sb, s1.d2, t[at + 1], s1.d1));
    var s3 := s2.(d2 := RoundSm(sb, s2.d1, t[at + 2], s2.d2));
    var s4 := s3.(d1 := RoundSm(sb, s3.d2, t[at + 3], s3.d1));
    var s5 := s4.(d2 := RoundSm(sb, s4.d1, t[at + 4], s4.d2));
    RoundTwice(sb, s5.d2, t[at + 5], s5.d1);
    RoundTwice(sb, s4.d1, t[at + 4], s4.d2);
    RoundTwice(sb, s3.d2, t[at + 3], s3.d1);
    RoundTwice(sb, s2.d1, t[at + 2], s2.d2);
    RoundTwice(sb, s1.d2, t[at + 1], s1.d1);
    RoundTwice(sb, s.d1, t[at], s.d2);
  }

  lemma {:induction false} BlocksUndone(sb: Sboxes, t: seq<W>, blocks: nat, i: nat, s: State)
    requires 8 * blocks < |t| && i < blocks
    ensures CodeUnblocks(sb, t, blocks - 1, Swap(CodeBlocks(sb, t, blocks, i, s)))
         == if i == 0 then Swap(s) else CodeUnblocks(sb, t, i - 1, Unlayer(t, i, Swap(s)))
    decreases blocks - i
  {
    hide CodeSix, CodeUnsix, FL, FLinv;
    var u := CodeSix(sb, t, 8 * i + 2, s);
    SixUndone(sb, t, 8 * i + 2, s);
    if i + 1 < blocks {
      BlocksUndone(sb, t, blocks, i + 1, State(FL(u.d1, t[8 * i + 8]), FLinv(u.d2, t[8 * i + 9])));
      FLInverse(u.d1, t[8 * i + 8]);
      FLInverse(u.d2, t[8 * i + 9]);
    }
  }

  /** Decryption undoes encryption, whatever the table holds. */
  lemma DecryptInverts(sb: Sboxes, t: seq<W>, blocks: nat, m: State)
    requires 1 <= blocks && 8 * blocks < |t|
    ensures Swap(CodeDecrypt(sb, t, blocks, Swap(CodeEncrypt(sb, t, blocks, m)))) == m
  {
    hide Xor, CodeBlocks, CodeUnblocks;
    XorLaws();
    BlocksUndone(sb, t, blocks, 0, m.(d1 := Xor(m.d1, t[0])));
  }

  // ---------------------------------------------------------------------------
  // Key absorption
  // ---------------------------------------------------------------------------

  /** kw2 as it has to be added in block i. */
  function Kw2At(sub: seq<W>, i: nat): W
    requires |sub| >= 8 * i + 2
  {
    if i == 0 then sub[1] else Through(Kw2At(sub, i - 1), sub[8 * i + 1])
  }

  /** kw4 as it has to be added in block i. */
  function Kw4At(sub: seq<W>, blocks: nat, i: nat): W
    requires IsKeys(sub, blocks) && i < blocks
    decreases blocks - i
  {
    if i + 1 == blocks then sub[8 * blocks + 1] else Through(Kw4At(sub, blocks, i + 1), sub[8 * i + 8])
  }

  /** a holds the keys sub after kw2 and kw4 were absorbed. */
  ghost predicate BlockAbsorbed(a: seq<W>, sub: seq<W>, at: nat, kw2: W, kw4: W)
    requires at + 6 <= |a| && at + 6 <= |sub|
  {
    && a[at] == Xor(sub[at], kw4) && a[at + 2] == Xor(sub[at + 2], kw4) && a[at + 4] == Xor(sub[at + 4], kw4)
    && a[at + 1] == Xor(sub[at + 1], kw2) && a[at + 3] == Xor(sub[at + 3], kw2) && a[at + 5] == Xor(sub[at + 5], kw2)
  }

  ghost predicate Absorbed(a: seq<W>, sub: seq<W>, blocks: nat) {
    && IsKeys(sub, blocks) && |a| >= 8 * blocks + 2
    && a[0] == Xor(sub[0], Kw4At(sub, blocks, 0))
    && a[8 * blocks] == Xor(sub[8 * blocks], Kw2At(sub, blocks - 1))
    && (forall i: nat :: i < blocks ==>
          BlockAbsorbed(a, sub, 8 * i + 2, Kw2At(sub, i), Kw4At(sub, blocks, i)))
    && (forall i: nat :: i + 1 < blocks ==> a[8 * i + 8] == sub[8 * i + 8] && a[8 * i + 9] == sub[8 * i + 9])
  }

  /** e holds the keys a rearranged so that a key is XORed at the end of a round. */
  ghost predicate BlockMoved(e: seq<W>, a: seq<W>, at: nat, first: W, last: W)
    requires at + 6 <= |a| && at + 6 <= |e|
  {
    && e[at] == first
    && e[at + 1] == Xor(a[at], a[at + 2]) && e[at + 2] == Xor(a[at + 1], a[at + 3])
    && e[at + 3] == Xor(a[at + 2], a[at + 4]) && e[at + 4] == Xor(a[at + 3], a[at + 5])
    && e[at + 5] == last
  }

  /** The first and the last entry of a block, which cross an FL layer. */
  function FirstMoved(a: seq<W>, i: nat): W
    requires |a| >= 8 * i + 8
  {
    if i == 0 then a[3] else Xor(Through(a[8 * i - 1], a[8 * i + 1]), a[8 * i + 3])
  }

  function LastMoved(a: seq<W>, blocks: nat, i: nat): W
    requires IsKeys(a, blocks) && i < blocks
  {
    if i + 1 == blocks then a[8 * i + 6] else Xor(a[8 * i + 6], Through(a[8 * i + 10], a[8 * i + 8]))
  }

  ghost predicate Moved(e: seq<W>, a: seq<W>, blocks: nat) {
    && IsKeys(a, blocks) && |e| > 8 * blocks
    && e[0] == Xor(a[0], a[2]) && e[8 * blocks] == Xor(a[8 * blocks], a[8 * blocks - 1])
    && (forall i: nat :: i < blocks ==> BlockMoved(e, a, 8 * i + 2, FirstMoved(a, i), LastMoved(a, blocks, i)))
    && (forall i: nat :: i + 1 < blocks ==> e[8 * i + 8] == a[8 * i + 8] && e[8 * i + 9] == a[8 * i + 9])
  }

  /** Table position j belongs to a round. */
  predicate IsRound(j: nat) { j >= 2 && (j - 2) % 8 < 6 }

  ghost predicate PInvApplied(t: seq<W>, e: seq<W>, blocks: nat) {
    && |t| == |e| > 8 * blocks
    && (forall j: nat :: j <= 8 * blocks ==> t[j] == if IsRound(j) && j < 8 * blocks then PInv(e[j]) else e[j])
  }

  lemma SharedMask(a: W, b: W, m: W)
    ensures Xor(Xor(a, m), Xor(b, m)) == Xor(a, b)
  {
    hide Xor;
    XorLaws();
  }

  lemma FirstAbsorbed(sub: seq<W>, a: seq<W>, blocks: nat, i: nat)
    requires Absorbed(a, sub, blocks) && i < blocks
    ensures FirstMoved(a, i) == Xor(Enter(sub, i), sub[8 * i + 3])
  {
    hide Xor, Through;
    var q := Kw2At(sub, i);
    assert BlockAbsorbed(a, sub, 8 * i + 2, q, Kw4At(sub, blocks, i));
    if i == 0 {
      XorLaws();
    } else {
      var p := Kw2At(sub, i - 1);
      assert BlockAbsorbed(a, sub, 8 * (i - 1) + 2, p, Kw4At(sub, blocks, i - 1));
      assert a[8 * i + 1] == sub[8 * i + 1] by { assert a[8 * (i - 1) + 9] == sub[8 * (i - 1) + 9]; }
      ThroughXor(sub[8 * i - 1], p, sub[8 * i + 1]);
      SharedMask(Through(sub[8 * i - 1], sub[8 * i + 1]), sub[8 * i + 3], q);
    }
  }

  lemma LastAbsorbed(sub: seq<W>, a: seq<W>, blocks: nat, i: nat)
    requires Absorbed(a, sub, blocks) && i < blocks
    ensures LastMoved(a, blocks, i) == Xor(sub[8 * i + 6], Leave(sub, blocks, i))
  {
    hide Xor, Through;
    var p := Kw4At(sub, blocks, i);
    assert BlockAbsorbed(a, sub, 8 * i + 2, Kw2At(sub, i), p);
    if i + 1 < blocks {
      var p' := Kw4At(sub, blocks, i + 1);
      assert BlockAbsorbed(a, sub, 8 * (i + 1) + 2, Kw2At(sub, i + 1), p');
      ThroughXor(sub[8 * i + 10], p', sub[8 * i + 8]);
      SharedMask(sub[8 * i + 6], Through(sub[8 * i + 10], sub[8 * i + 8]), p);
    }
  }

  ghost predicate BlockPInv(t: seq<W>, e: seq<W>, at: nat)
    requires at + 6 <= |t| && at + 6 <= |e|
  {
    && t[at] == PInv(e[at]) && t[at + 1] == PInv(e[at + 1]) && t[at + 2] == PInv(e[at + 2])
    && t[at + 3] == PInv(e[at + 3]) && t[at + 4] == PInv(e[at + 4]) && t[at + 5] == PInv(e[at + 5])
  }

  lemma PInvBlock(t: seq<W>, e: seq<W>, blocks: nat, i: nat)
    requires PInvApplied(t, e, blocks) && i < blocks
    ensures BlockPInv(t, e, 8 * i + 2)
  {
    hide PInv, PInvApplied;
    PInvAt(t, e, blocks, i, 0);
    PInvAt(t, e, blocks, i, 1);
    PInvAt(t, e, blocks, i, 2);
    PInvAt(t, e, blocks, i, 3);
    PInvAt(t, e, blocks, i, 4);
    PInvAt(t, e, blocks, i, 5);
  }

  lemma PInvAt(t: seq<W>, e: seq<W>, blocks: nat, i: nat, d: nat)
    requires PInvApplied(t, e, blocks) && i < blocks && d < 6
    ensures |t| == |e| > 8 * i + 7 && t[8 * i + 2 + d] == PInv(e[8 * i + 2 + d])
  {
    hide PInv;
    assert IsRound(8 * i + 2 + d) by { RoundKey(i, d); }
  }

  lemma RoundKey(i: nat, d: nat)
    requires d < 6
    ensures IsRound(8 * i + 2 + d)
  {
    assert (8 * i + d) % 8 == d;
  }

  lemma BlockCombined(sub: seq<W>, a: seq<W>, e: seq<W>, t: seq<W>, at: nat, q: W, p: W, enter: W, leave: W)
    requires at + 6 <= |t| && at + 6 <= |e| && at + 6 <= |a| && at + 6 <= |sub|
    requires BlockAbsorbed(a, sub, at, q, p) && BlockPInv(t, e, at)
    requires BlockMoved(e, a, at, Xor(enter, sub[at + 1]), Xor(sub[at + 4], leave))
    ensures RoundsOk(t, sub, at, enter, leave)
  {
    hide Xor, PInv;
    SharedMask(sub[at], sub[at + 2], p);
    SharedMask(sub[at + 1], sub[at + 3], q);
    SharedMask(sub[at + 2], sub[at + 4], p);
    SharedMask(sub[at + 3], sub[at + 5], q);
  }

  lemma BlockBuilt(sub: seq<W>, a: seq<W>, e: seq<W>, t: seq<W>, blocks: nat, i: nat)
    requires Absorbed(a, sub, blocks) && Moved(e, a, blocks) && PInvApplied(t, e, blocks) && i < blocks
    ensures RoundsOk(t, sub, 8 * i + 2, Enter(sub, i), Leave(sub, blocks, i))
  {
    hide Xor, PInv, Enter, Leave, RoundsOk, BlockAbsorbed, BlockMoved, BlockPInv, FirstMoved, LastMoved, PInvApplied;
    FirstAbsorbed(sub, a, blocks, i);
    LastAbsorbed(sub, a, blocks, i);
    PInvBlock(t, e, blocks, i);
    assert |t| > 8 * blocks by { PInvSize(t, e, blocks); }
    BlockCombined(sub, a, e, t, 8 * i + 2, Kw2At(sub, i), Kw4At(sub, blocks, i), Enter(sub, i), Leave(sub, blocks, i));
  }

  lemma PInvSize(t: seq<W>, e: seq<W>, blocks: nat)
    requires PInvApplied(t, e, blocks)
    ensures |t| > 8 * blocks
  {
  }

  /** Absorbing the whitening keys, moving the key additions and applying PInv give a table
      for the keys. */
  lemma AbsorptionSound(sub: seq<W>, a: seq<W>, e: seq<W>, t: seq<W>, blocks: nat)
    requires Absorbed(a, sub, blocks) && Moved(e, a, blocks) && PInvApplied(t, e, blocks)
    ensures TableOk(t, sub, blocks)
  {
    hide Xor, PInv, Enter, Leave, Kw2At, Kw4At;
    forall i: nat | i < blocks ensures RoundsOk(t, sub, 8 * i + 2, Enter(sub, i), Leave(sub, blocks, i)) {
      BlockBuilt(sub, a, e, t, blocks, i);
    }
    forall i: nat | i + 1 < blocks ensures LayerOk(t, sub, blocks, i) {
      assert !IsRound(8 * i + 8) && !IsRound(8 * i + 9);
    }
    EdgesBuilt(sub, a, e, t, blocks);
  }

  lemma EdgesBuilt(sub: seq<W>, a: seq<W>, e: seq<W>, t: seq<W>, blocks: nat)
    requires Absorbed(a, sub, blocks) && Moved(e, a, blocks) && PInvApplied(t, e, blocks)
    ensures t[0] == Xor(sub[0], sub[2]) && t[8 * blocks] == Xor(sub[8 * blocks], sub[8 * blocks - 1])
  {
    hide Xor, PInv, Kw2At, Kw4At;
    var q, p := Kw2At(sub, blocks - 1), Kw4At(sub, blocks, 0);
    assert BlockAbsorbed(a, sub, 8 * 0 + 2, Kw2At(sub, 0), p);
    assert BlockAbsorbed(a, sub, 8 * (blocks - 1) + 2, q, Kw4At(sub, blocks, blocks - 1));
    SharedMask(sub[0], sub[2], p);
    SharedMask(sub[8 * blocks], sub[8 * blocks - 1], q);
  }
}

module CamelliaSetup {
  import opened CamelliaSpec
  import opened CamelliaTable
  import opened CamelliaCode

  // camellia_setup_tail, on the arrays sub (subL and subR) and subkey. The straight-line code
  // of the C function does the same few lines for each block of six rounds; here those lines
  // are a method. The predicates say which blocks are done; entry 1 is a scratch value.

  /** kw2 has been added to the keys of the even rounds of the first n blocks. */
  ghost predicate Kw2Done(a: seq<W>, s: seq<W>, n: nat) {
    && |a| == |s| && |s| >= 8 * n + 2
    && (forall j :: 0 <= j < |s| && j != 1 ==>
          a[j] == if j % 8 in {3, 5, 7} && j / 8 < n then Xor(s[j], Kw2At(s, j / 8)) else s[j])
  }

  method AbsorbKw2Block(sub: array<W>, i: nat, ghost s: seq<W>)
    requires sub.Length >= 8 * i + 10 && Kw2Done(sub[..], s, i) && sub[1] == Kw2At(s, i)
    modifies sub
    ensures Kw2Done(sub[..], s, i + 1) && sub[1] == Kw2At(s, i)
  {
    hide Xor, Through, Kw2At;
    sub[8 * i + 3] := Xor(sub[8 * i + 3], sub[1]);
    sub[8 * i + 5] := Xor(sub[8 * i + 5], sub[1]);
    sub[8 * i + 7] := Xor(sub[8 * i + 7], sub[1]);
  }

  /** kw2 moves behind the FLinv layer that follows block i. */
  method MoveKw2(sub: array<W>, i: nat, ghost s: seq<W>)
    requires sub.Length >= 8 * i + 10 && Kw2Done(sub[..], s, i + 1) && sub[1] == Kw2At(s, i)
    modifies sub
    ensures Kw2Done(sub[..], s, i + 1) && sub[1] == Kw2At(s, i + 1)
  {
    hide Xor, Through, Kw2At;
    assert (8 * i + 9) % 8 == 1;
    Kw2Next(s, i);
    sub[1] := Through(sub[1], sub[8 * i + 9]);
  }

  lemma Kw2First(s: seq<W>)
    requires |s| >= 2
    ensures Kw2At(s, 0) == s[1]
  {
  }

  lemma Kw2Next(s: seq<W>, i: nat)
    requires |s| >= 8 * i + 10
    ensures Kw2At(s, i + 1) == Through(Kw2At(s, i), s[8 * i + 9])
  {
    hide Through;
  }

  method AbsorbKw2(sub: array<W>, blocks: nat, ghost s: seq<W>)
    requires (blocks == 3 || blocks == 4) && sub.Length == 8 * blocks + 2 && sub[..] == s
    modifies sub
    ensures Kw2Done(sub[..][8 * blocks := s[8 * blocks]], s, blocks)
    ensures sub[8 * blocks] == Xor(s[8 * blocks], Kw2At(s, blocks - 1))
  {
    hide Xor, Through, Kw2At;
    assert sub[1] == Kw2At(s, 0) by { Kw2First(s); }
    AbsorbKw2Block(sub, 0, s);
    MoveKw2(sub, 0, s);
    AbsorbKw2Block(sub, 1, s);
    MoveKw2(sub, 1, s);
    AbsorbKw2Block(sub, 2, s);
    if blocks == 4 {
      MoveKw2(sub, 2, s);
      AbsorbKw2Block(sub, 3, s);
    }
    sub[8 * blocks] := Xor(sub[8 * blocks], sub[1]);
  }

  /** kw4 has been added to the keys of the odd rounds of blocks n and up; b is the array as
      it was before. */
  ghost predicate Kw4Done(a: seq<W>, b: seq<W>, s: seq<W>, blocks: nat, n: nat) {
    && IsKeys(s, blocks) && |a| == |b| == |s|
    && (forall j :: 0 <= j < |s| ==>
          a[j] == if j % 8 in {2, 4, 6} && n <= j / 8 < blocks then Xor(b[j], Kw4At(s, blocks, j / 8)) else b[j])
  }

  method AbsorbKw4Block(sub: array<W>, blocks: nat, i: nat, kw4: W, ghost b: seq<W>, ghost s: seq<W>)
    requires i < blocks && Kw4Done(sub[..], b, s, blocks, i + 1) && kw4 == Kw4At(s, blocks, i)
    modifies sub
    ensures Kw4Done(sub[..], b, s, blocks, i)
  {
    hide Xor, Through, Kw4At;
    sub[8 * i + 6] := Xor(sub[8 * i + 6], kw4);
    sub[8 * i + 4] := Xor(sub[8 * i + 4], kw4);
    sub[8 * i + 2] := Xor(sub[8 * i + 2], kw4);
  }

  /** kw4 in front of the FL layer that follows block i. */
  method MoveKw4(sub: array<W>, blocks: nat, i: nat, kw4: W, ghost b: seq<W>, ghost s: seq<W>) returns (r: W)
    requires i + 1 < blocks && Kw4Done(sub[..], b, s, blocks, i + 1) && kw4 == Kw4At(s, blocks, i + 1)
    requires b[8 * i + 8] == s[8 * i + 8]
    ensures r == Kw4At(s, blocks, i)
  {
    hide Xor, Through;
    assert (8 * i + 8) % 8 == 0;
    r := Through(kw4, sub[8 * i + 8]);
  }

  method AbsorbKw4(sub: array<W>, blocks: nat, ghost b: seq<W>, ghost s: seq<W>)
    requires (blocks == 3 || blocks == 4) && sub.Length == 8 * blocks + 2 && sub[..] == b && |b| == |s|
    requires b[8 * blocks + 1] == s[8 * blocks + 1]
    requires forall i: nat :: i + 1 < blocks ==> b[8 * i + 8] == s[8 * i + 8]
    modifies sub
    ensures Kw4Done(sub[..][0 := b[0]], b, s, blocks, 0)
    ensures sub[0] == Xor(b[0], Kw4At(s, blocks, 0))
  {
    hide Xor, Through, Kw4At, Kw4Done;
    Kw4Start(b, s, blocks);
    var kw4 := sub[8 * blocks + 1];
    if blocks == 4 {
      AbsorbKw4Block(sub, blocks, 3, kw4, b, s);
      kw4 := MoveKw4(sub, blocks, 2, kw4, b, s);
    }
    AbsorbKw4Block(sub, blocks, 2, kw4, b, s);
    kw4 := MoveKw4(sub, blocks, 1, kw4, b, s);
    AbsorbKw4Block(sub, blocks, 1, kw4, b, s);
    kw4 := MoveKw4(sub, blocks, 0, kw4, b, s);
    AbsorbKw4Block(sub, blocks, 0, kw4, b, s);
    Kw4Front(sub[..], b, s, blocks, Xor(sub[0], kw4));
    sub[0] := Xor(sub[0], kw4);
  }

  /** Before any block kw4 is the last key. */
  lemma Kw4Start(b: seq<W>, s: seq<W>, blocks: nat)
    requires IsKeys(s, blocks) && |b| == |s|
    ensures Kw4Done(b, b, s, blocks, blocks) && Kw4At(s, blocks, blocks - 1) == s[8 * blocks + 1]
  {
  }

  /** What is put into the first key does not matter to the others. */
  lemma Kw4Front(a: seq<W>, b: seq<W>, s: seq<W>, blocks: nat, w: W)
    requires Kw4Done(a, b, s, blocks, 0)
    ensures a[0] == b[0] && Kw4Done(a[0 := w][0 := b[0]], b, s, blocks, 0)
  {
    hide Kw4At, Xor;
    assert a[0] == b[0];
    assert a[0 := w][0 := b[0]] == a;
  }

  /** The lines of camellia_setup_tail that write block i of subkey, and the FL keys behind it.
      `first` and `last` are the entries that cross an FL layer. */
  method WriteBlock(subkey: array<W>, sub: array<W>, more: bool, at: nat, first: W, last: W)
    requires at + 8 <= sub.Length && at + 8 <= subkey.Length && subkey != sub
    modifies subkey
    ensures subkey[at] == first && subkey[at + 5] == last
    ensures subkey[at + 1] == Xor(sub[at], sub[at + 2]) && subkey[at + 2] == Xor(sub[at + 1], sub[at + 3])
    ensures subkey[at + 3] == Xor(sub[at + 2], sub[at + 4]) && subkey[at + 4] == Xor(sub[at + 3], sub[at + 5])
    ensures more ==> subkey[at + 6] == sub[at + 6] && subkey[at + 7] == sub[at + 7]
    ensures !more ==> subkey[at + 6] == old(subkey[at + 6]) && subkey[at + 7] == old(subkey[at + 7])
    ensures forall j :: 0 <= j < subkey.Length && (j < at || j >= at + 8) ==> subkey[j] == old(subkey[j])
  {
    hide Xor, Through;
    subkey[at] := first;
    subkey[at + 1] := Xor(sub[at], sub[at + 2]);
    subkey[at + 2] := Xor(sub[at + 1], sub[at + 3]);
    subkey[at + 3] := Xor(sub[at + 2], sub[at + 4]);
    subkey[at + 4] := Xor(sub[at + 3], sub[at + 5]);
    subkey[at + 5] := last;
    if more {
      subkey[at + 6] := sub[at + 6];
      subkey[at + 7] := sub[at + 7];
    }
  }

  /** Block i of the table e, and the FL keys behind it, are as Moved asks. */
  ghost predicate BlockWritten(e: seq<W>, a: seq<W>, blocks: nat, i: nat)
    requires IsKeys(a, blocks) && |e| > 8 * blocks && i < blocks
  {
    && BlockMoved(e, a, 8 * i + 2, FirstMoved(a, i), LastMoved(a, blocks, i))
    && (i + 1 < blocks ==> e[8 * i + 8] == a[8 * i + 8] && e[8 * i + 9] == a[8 * i + 9])
  }

  ghost predicate Written(e: seq<W>, a: seq<W>, blocks: nat, n: nat) {
    && IsKeys(a, blocks) && |e| > 8 * blocks && n <= blocks && e[0] == Xor(a[0], a[2])
    && (forall i: nat :: i < n ==> BlockWritten(e, a, blocks, i))
  }

  /** What was written stays written while later blocks are. */
  lemma WrittenFrame(e: seq<W>, e': seq<W>, a: seq<W>, blocks: nat, n: nat)
    requires Written(e, a, blocks, n) && |e'| == |e|
    requires forall j :: 0 <= j < 8 * n + 2 && j < |e| ==> e'[j] == e[j]
    ensures Written(e', a, blocks, n)
  {
    hide Xor, Through, FirstMoved, LastMoved;
    forall i: nat | i < n ensures BlockWritten(e', a, blocks, i) {
      assert BlockWritten(e, a, blocks, i);
    }
  }

  method WriteNext(subkey: array<W>, sub: array<W>, blocks: nat, i: nat, ghost a: seq<W>)
    requires sub[..] == a && subkey.Length >= 8 * blocks + 2 && subkey != sub
    requires i < blocks && Written(subkey[..], a, blocks, i)
    modifies subkey
    ensures Written(subkey[..], a, blocks, i + 1)
  {
    hide Xor, Through;
    ghost var e := subkey[..];
    var at := 8 * i + 2;
    var first := if i == 0 then sub[3] else Xor(Through(sub[at - 3], sub[at - 1]), sub[at + 1]);
    var last := if i + 1 < blocks then Xor(sub[at + 4], Through(sub[at + 8], sub[at + 6])) else sub[at + 4];
    assert first == FirstMoved(a, i) && last == LastMoved(a, blocks, i);
    hide FirstMoved, LastMoved, Written;
    WriteBlock(subkey, sub, i + 1 < blocks, at, first, last);
    WrittenFrame(e, subkey[..], a, blocks, i);
    assert BlockWritten(subkey[..], a, blocks, i);
    WrittenNext(subkey[..], a, blocks, i);
  }

  lemma WrittenNext(e: seq<W>, a: seq<W>, blocks: nat, i: nat)
    requires i < blocks && Written(e, a, blocks, i) && BlockWritten(e, a, blocks, i)
    ensures Written(e, a, blocks, i + 1)
  {
    hide BlockWritten;
  }

  method WriteTable(subkey: array<W>, sub: array<W>, blocks: nat, ghost a: seq<W>)
    requires (blocks == 3 || blocks == 4) && sub.Length == 8 * blocks + 2 && sub[..] == a
    requires subkey.Length >= 8 * blocks + 2 && subkey != sub
    modifies subkey
    ensures Moved(subkey[..], a, blocks)
  {
    hide Xor, Through, BlockWritten;
    subkey[0] := Xor(sub[0], sub[2]);
    WriteNext(subkey, sub, blocks, 0, a);
    WriteNext(subkey, sub, blocks, 1, a);
    WriteNext(subkey, sub, blocks, 2, a);
    if blocks == 4 {
      WriteNext(subkey, sub, blocks, 3, a);
    }
    ghost var e := subkey[..];
    subkey[8 * blocks] := Xor(sub[8 * blocks], sub[8 * blocks - 1]);
    TableWritten(e, subkey[..], a, blocks);
  }

  lemma TableWritten(e: seq<W>, e': seq<W>, a: seq<W>, blocks: nat)
    requires Written(e, a, blocks, blocks) && e' == e[8 * blocks := Xor(a[8 * blocks], a[8 * blocks - 1])]
    ensures Moved(e', a, blocks)
  {
    hide Xor, Through, FirstMoved, LastMoved;
    forall i: nat | i < blocks ensures BlockMoved(e', a, 8 * i + 2, FirstMoved(a, i), LastMoved(a, blocks, i)) {
      assert BlockWritten(e, a, blocks, i);
    }
    forall i: nat | i + 1 < blocks ensures e'[8 * i + 8] == a[8 * i + 8] && e'[8 * i + 9] == a[8 * i + 9] {
      assert BlockWritten(e, a, blocks, i);
    }
  }

  /** The body of the loop that applies the inverse of the last half of the P-function. */
  method ApplySix(subkey: array<W>, at: nat)
    requires at + 6 <= subkey.Length
    modifies subkey
    ensures forall j :: 0 <= j < subkey.Length ==>
              subkey[j] == if at <= j < at + 6 then PInv(old(subkey[j])) else old(subkey[j])
  {
    hide PInv;
    ghost var e := subkey[..];
    subkey[at], subkey[at + 1], subkey[at + 2] := PInv(subkey[at]), PInv(subkey[at + 1]), PInv(subkey[at + 2]);
    assert forall j :: 0 <= j < |e| ==> subkey[j] == if at <= j < at + 3 then PInv(e[j]) else e[j];
    subkey[at + 3], subkey[at + 4], subkey[at + 5] := PInv(subkey[at + 3]), PInv(subkey[at + 4]), PInv(subkey[at + 5]);
  }

  method ApplyPInv(subkey: array<W>, blocks: nat)
    requires 1 <= blocks && subkey.Length >= 8 * blocks + 2
    modifies subkey
    ensures PInvApplied(subkey[..], old(subkey[..]), blocks)
  {
    hide PInv;
    ghost var e := subkey[..];
    var i := 2;
    while i < 8 * blocks
      invariant 2 <= i <= 8 * blocks + 2 && i % 8 == 2
      invariant forall j :: 0 <= j < |e| ==>
                  subkey[j] == if IsRound(j) && j < i then PInv(e[j]) else e[j]
    {
      ApplySix(subkey, i);
      forall j: nat | i <= j < i + 8 ensures IsRound(j) <==> j < i + 6 {
      }
      i := i + 8;
    }
  }

  lemma AbsorbedBlock(a: seq<W>, b: seq<W>, s: seq<W>, blocks: nat, i: nat)
    requires IsKeys(s, blocks) && |a| == |b| == |s| == 8 * blocks + 2 && i < blocks
    requires Kw2Done(b[8 * blocks := s[8 * blocks]], s, blocks) && Kw4Done(a[0 := b[0]], b, s, blocks, 0)
    ensures BlockAbsorbed(a, s, 8 * i + 2, Kw2At(s, i), Kw4At(s, blocks, i))
    ensures i + 1 < blocks ==> a[8 * i + 8] == s[8 * i + 8] && a[8 * i + 9] == s[8 * i + 9]
  {
    hide Xor, Kw2At, Kw4At;
    var at := 8 * i + 2;
    assert at % 8 == 2 && at / 8 == i && (at + 1) % 8 == 3 && (at + 1) / 8 == i;
    assert (at + 2) % 8 == 4 && (at + 2) / 8 == i && (at + 3) % 8 == 5 && (at + 3) / 8 == i;
    assert (at + 4) % 8 == 6 && (at + 4) / 8 == i && (at + 5) % 8 == 7 && (at + 5) / 8 == i;
    assert (at + 6) % 8 == 0 && (at + 7) % 8 == 1;
  }

  lemma AllAbsorbed(a: seq<W>, b: seq<W>, s: seq<W>, blocks: nat)
    requires IsKeys(s, blocks) && |a| == |b| == |s| == 8 * blocks + 2
    requires Kw2Done(b[8 * blocks := s[8 * blocks]], s, blocks) && Kw4Done(a[0 := b[0]], b, s, blocks, 0)
    requires b[8 * blocks] == Xor(s[8 * blocks], Kw2At(s, blocks - 1))
    requires a[0] == Xor(b[0], Kw4At(s, blocks, 0))
    ensures Absorbed(a, s, blocks)
  {
    hide Xor, Kw2At, Kw4At, BlockAbsorbed;
    forall i: nat | i < blocks
      ensures BlockAbsorbed(a, s, 8 * i + 2, Kw2At(s, i), Kw4At(s, blocks, i))
      ensures i + 1 < blocks ==> a[8 * i + 8] == s[8 * i + 8] && a[8 * i + 9] == s[8 * i + 9]
    {
      AbsorbedBlock(a, b, s, blocks, i);
    }
  }

  /** camellia_setup_tail turns the keys in sub into a table for them. */
  method SetupTail(subkey: array<W>, sub: array<W>, blocks: nat)
    requires (blocks == 3 || blocks == 4) && sub.Length == 8 * blocks + 2
    requires subkey.Length >= 8 * blocks + 2 && subkey != sub
    modifies subkey, sub
    ensures TableOk(subkey[..], old(sub[..]), blocks)
  {
    hide Xor, Kw2At, Kw4At, Moved, Absorbed, TableOk, PInvApplied;
    ghost var s := sub[..];
    AbsorbKw2(sub, blocks, s);
    ghost var b := sub[..];
    LayerKept(b, s, blocks);
    AbsorbKw4(sub, blocks, b, s);
    ghost var a := sub[..];
    AllAbsorbed(a, b, s, blocks);
    WriteTable(subkey, sub, blocks, a);
    ghost var e := subkey[..];
    ApplyPInv(subkey, blocks);
    AbsorptionSound(s, a, e, subkey[..], blocks);
  }

  lemma LayerKept(b: seq<W>, s: seq<W>, blocks: nat)
    requires IsKeys(s, blocks) && |b| == |s| == 8 * blocks + 2
    requires Kw2Done(b[8 * blocks := s[8 * blocks]], s, blocks)
    ensures b[8 * blocks + 1] == s[8 * blocks + 1]
    ensures forall i: nat :: i + 1 < blocks ==> b[8 * i + 8] == s[8 * i + 8]
  {
    hide Xor, Kw2At;
    forall i: nat | i + 1 < blocks ensures b[8 * i + 8] == s[8 * i + 8] {
      assert (8 * i + 8) % 8 == 0;
    }
  }

  /** The whole of it: a key table set up by the code encrypts as RFC 3713 says, and what it
      encrypts the code decrypts. */
  lemma CamelliaCorrect(sb: Sboxes, table: seq<W>, sub: seq<W>, blocks: nat, m: State)
    requires TableOk(table, sub, blocks)
    ensures Swap(CodeEncrypt(sb, table, blocks, m)) == Encrypt(sb, sub, blocks, m)
    ensures Swap(CodeDecrypt(sb, table, blocks, Encrypt(sb, sub, blocks, m))) == m
  {
    hide CodeEncrypt, CodeDecrypt, Encrypt;
    EncryptAgrees(sb, table, sub, blocks, m);
    DecryptInverts(sb, table, blocks, m);
  }

  // camellia_do_encrypt and camellia_do_decrypt, on the array io of two words.

  ghost function Io(io: array<W>): State
    requires io.Length == 2
    reads io
  {
    State(io[0], io[1])
  }

  /** ROUNDS(i) of camellia_do_encrypt */
  method Rounds(sb: Sboxes, subkey: array<W>, io: array<W>, at: nat)
    requires io.Length == 2 && io != subkey && at + 6 <= subkey.Length
    modifies io
    ensures Io(io) == CodeSix(sb, subkey[..], at, old(Io(io)))
  {
    hide RoundSm;
    io[1] := RoundSm(sb, io[0], subkey[at], io[1]);
    io[0] := RoundSm(sb, io[1], subkey[at + 1], io[0]);
    io[1] := RoundSm(sb, io[0], subkey[at + 2], io[1]);
    io[0] := RoundSm(sb, io[1], subkey[at + 3], io[0]);
    io[1] := RoundSm(sb, io[0], subkey[at + 4], io[1]);
    io[0] := RoundSm(sb, io[1], subkey[at + 5], io[0]);
  }

  /** FLS(i) of camellia_do_encrypt */
  method Fls(subkey: array<W>, io: array<W>, at: nat)
    requires io.Length == 2 && io != subkey && at + 2 <= subkey.Length
    modifies io
    ensures Io(io) == State(FL(old(io[0]), subkey[at]), FLinv(old(io[1]), subkey[at + 1]))
  {
    hide FL, FLinv;
    io[0] := FL(io[0], subkey[at]);
    io[1] := FLinv(io[1], subkey[at + 1]);
  }

  method DoEncrypt(sb: Sboxes, subkey: array<W>, io: array<W>, blocks: nat)
    requires (blocks == 3 || blocks == 4) && io.Length == 2 && io != subkey && subkey.Length > 8 * blocks
    modifies io
    ensures Io(io) == CodeEncrypt(sb, subkey[..], blocks, old(Io(io)))
  {
    hide Xor, CodeSix, FL, FLinv, CodeBlocks;
    ghost var t, m := subkey[..], Io(io);
    io[0] := Xor(io[0], subkey[0]);
    ghost var s0 := Io(io);
    Rounds(sb, subkey, io, 2);
    Fls(subkey, io, 8);
    ghost var s1 := Io(io);
    BlockStep(sb, t, blocks, 0, s0);
    Rounds(sb, subkey, io, 10);
    Fls(subkey, io, 16);
    ghost var s2 := Io(io);
    BlockStep(sb, t, blocks, 1, s1);
    Rounds(sb, subkey, io, 18);
    BlockStep(sb, t, blocks, 2, s2);
    if blocks == 4 {
      Fls(subkey, io, 24);
      ghost var s3 := Io(io);
      Rounds(sb, subkey, io, 26);
      BlockStep(sb, t, blocks, 3, s3);
    }
    io[1] := Xor(io[1], subkey[8 * blocks]);
  }

  lemma BlockStep(sb: Sboxes, t: seq<W>, blocks: nat, i: nat, s: State)
    requires 8 * blocks < |t| && i < blocks
    ensures var u := CodeSix(sb, t, 8 * i + 2, s);
      CodeBlocks(sb, t, blocks, i, s) ==
        if i + 1 == blocks then u
        else CodeBlocks(sb, t, blocks, i + 1, State(FL(u.d1, t[8 * i + 8]), FLinv(u.d2, t[8 * i + 9])))
  {
  }

  /** ROUNDS(i) of camellia_do_decrypt */
  method Unrounds(sb: Sboxes, subkey: array<W>, io: array<W>, at: nat)
    requires io.Length == 2 && io != subkey && at + 6 <= subkey.Length
    modifies io
    ensures Io(io) == CodeUnsix(sb, subkey[..], at, old(Io(io)))
  {
    hide RoundSm;
    io[1] := RoundSm(sb, io[0], subkey[at + 5], io[1]);
    io[0] := RoundSm(sb, io[1], subkey[at + 4], io[0]);
    io[1] := RoundSm(sb, io[0], subkey[at + 3], io[1]);
    io[0] := RoundSm(sb, io[1], subkey[at + 2], io[0]);
    io[1] := RoundSm(sb, io[0], subkey[at + 1], io[1]);
    io[0] := RoundSm(sb, io[1], subkey[at], io[0]);
  }

  /** FLS(8i) of camellia_do_decrypt */
  method Unfls(subkey: array<W>, io: array<W>, i: nat)
    requires io.Length == 2 && io != subkey && 8 * i + 1 < subkey.Length
    modifies io
    ensures Io(io) == Unlayer(subkey[..], i, old(Io(io)))
  {
    hide FL, FLinv;
    io[0] := FL(io[0], subkey[8 * i + 1]);
    io[1] := FLinv(io[1], subkey[8 * i]);
  }

  method DoDecrypt(sb: Sboxes, subkey: array<W>, io: array<W>, blocks: nat)
    requires (blocks == 3 || blocks == 4) && io.Length == 2 && io != subkey && subkey.Length > 8 * blocks
    modifies io
    ensures Io(io) == CodeDecrypt(sb, subkey[..], blocks, old(Io(io)))
  {
    hide Xor, CodeUnsix, Unlayer, CodeUnblocks;
    ghost var t := subkey[..];
    io[0] := Xor(io[0], subkey[8 * blocks]);
    if blocks == 4 {
      ghost var s3 := Io(io);
      Unrounds(sb, subkey, io, 26);
      Unfls(subkey, io, 3);
      UnblockStep(sb, t, 3, s3);
    }
    ghost var s2 := Io(io);
    Unrounds(sb, subkey, io, 18);
    Unfls(subkey, io, 2);
    ghost var s1 := Io(io);
    UnblockStep(sb, t, 2, s2);
    Unrounds(sb, subkey, io, 10);
    Unfls(subkey, io, 1);
    ghost var s0 := Io(io);
    UnblockStep(sb, t, 1, s1);
    Unrounds(sb, subkey, io, 2);
    UnblockStep(sb, t, 0, s0);
    io[1] := Xor(io[1], subkey[0]);
  }

  lemma UnblockStep(sb: Sboxes, t: seq<W>, i: nat, s: State)
    requires 8 * i + 8 <= |t|
    ensures var u := CodeUnsix(sb, t, 8 * i + 2, s);
      CodeUnblocks(sb, t, i, s) == if i == 0 then u else CodeUnblocks(sb, t, i - 1, Unlayer(t, i, u))
  {
  }

  /** End to end, from the keys to a block: encryption is that of RFC 3713, whatever the table held
      before. */
  method EncryptBlock(sb: Sboxes, subkey: array<W>, sub: array<W>, io: array<W>, blocks: nat)
    requires (blocks == 3 || blocks == 4) && sub.Length == 8 * blocks + 2 && subkey.Length >= 8 * blocks + 2
    requires io.Length == 2 && subkey != sub && io != subkey && io != sub
    modifies subkey, sub, io
    ensures Swap(Io(io)) == Encrypt(sb, old(sub[..]), blocks, old(Io(io)))
  {
    hide TableOk, CodeEncrypt, Encrypt, Swap;
    ghost var keys, m := sub[..], Io(io);
    SetupTail(subkey, sub, blocks);
    CamelliaCorrect(sb, subkey[..], keys, blocks, m);
    DoEncrypt(sb, subkey, io, blocks);
  }

  /** Decryption gives back what encryption was given. */
  method DecryptBlock(sb: Sboxes, subkey: array<W>, sub: array<W>, io: array<W>, blocks: nat, ghost m: State)
    requires (blocks == 3 || blocks == 4) && sub.Length == 8 * blocks + 2 && subkey.Length >= 8 * blocks + 2
    requires io.Length == 2 && subkey != sub && io != subkey && io != sub
    requires Io(io) == Encrypt(sb, sub[..], blocks, m)
    modifies subkey, sub, io
    ensures Swap(Io(io)) == m
  {
    hide TableOk, CodeDecrypt, Encrypt, Swap;
    ghost var keys := sub[..];
    SetupTail(subkey, sub, blocks);
    CamelliaCorrect(sb, subkey[..], keys, blocks, m);
    DoDecrypt(sb, subkey, io, blocks);
  }
}
