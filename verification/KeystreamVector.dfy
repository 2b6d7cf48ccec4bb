/** The published first output of splitmix64 for seed 0, computed one hexadecimal digit at a time. */
module KeystreamVector {
  import opened Arith
  import opened Keystream

  /** One hexadecimal digit more. */
  function More(a: nat, d: nat): nat {
    16 * a + d
  }

  /** xor works on each digit separately. */
  ghost predicate DigitWise(xor: (nat, nat) -> nat) {
    && xor(0, 0) == 0
    && (forall d: nat :: xor(d, 0) == d)
    && forall a: nat, b: nat, d: nat, e: nat {:trigger xor(More(a, d), More(b, e))} :: d < 16 && e < 16 ==>
         xor(More(a, d), More(b, e)) == More(xor(a, b), xor(d, e))
  }

  lemma XorIsDigitWise()
    ensures DigitWise(Xor)
  {
    forall a: nat, b: nat, d: nat, e: nat | d < 16 && e < 16
      ensures Xor(More(a, d), More(b, e)) == More(Xor(a, b), Xor(d, e))
    {
      XorMore(a, b, d, e);
    }
    forall d: nat ensures Xor(d, 0) == d {
      XorZero(d);
    }
  }

  lemma XorMore(a: nat, b: nat, d: nat, e: nat)
    requires d < 16 && e < 16
    ensures Xor(More(a, d), More(b, e)) == More(Xor(a, b), Xor(d, e))
  {
    Scale4(d);
    XorSplit(a, b, d, e, 4);
    MoreIsScale(Xor, a, b, d, e);
  }

  lemma MoreIsScale(xor: (nat, nat) -> nat, a: nat, b: nat, d: nat, e: nat)
    requires xor(Scale(a, 4) + d, Scale(b, 4) + e) == Scale(xor(a, b), 4) + xor(d, e)
    ensures xor(More(a, d), More(b, e)) == More(xor(a, b), xor(d, e))
  {
    Scale4(a);
    Scale4(b);
    Scale4(xor(a, b));
  }

  lemma Scale4(a: nat)
    ensures Pow2(4) == 16 && Scale(a, 4) == 16 * a
  {
    ScaleIs(a, 4);
  }

  /** One bit more. */
  function Twice(a: nat, d: nat): nat {
    2 * a + d
  }

  /** xor adds each bit separately, without carry. */
  ghost predicate BitWise(xor: (nat, nat) -> nat) {
    && xor(0, 0) == 0
    && forall a: nat, b: nat, d: nat, e: nat {:trigger xor(Twice(a, d), Twice(b, e))} :: d < 2 && e < 2 ==>
         xor(Twice(a, d), Twice(b, e)) == Twice(xor(a, b), if d == e then 0 else 1)
  }

  lemma XorIsBitWise()
    ensures BitWise(Xor)
  {
    forall a: nat, b: nat, d: nat, e: nat | d < 2 && e < 2
      ensures Xor(Twice(a, d), Twice(b, e)) == Twice(Xor(a, b), if d == e then 0 else 1)
    {
      XorBit(a, b, d, e);
    }
  }

  lemma XorBit(a: nat, b: nat, d: nat, e: nat)
    requires d < 2 && e < 2
    ensures Xor(Twice(a, d), Twice(b, e)) == Twice(Xor(a, b), if d == e then 0 else 1)
  {
    TwiceHalf(a, d);
    TwiceHalf(b, e);
    SameBit(Twice(a, d), Twice(b, e), a + b, d, e);
    BitSum(d, e);
    XorParts(Twice(a, d), Twice(b, e));
    FromParts(Xor(Twice(a, d), Twice(b, e)), Xor(a, b), if d == e then 0 else 1);
  }

  lemma BitSum(d: nat, e: nat)
    requires d < 2 && e < 2
    ensures (d + e) % 2 == if d == e then 0 else 1
  {
  }

  lemma FromParts(x: nat, h: nat, f: nat)
    requires x / 2 == h && x % 2 == f
    ensures x == Twice(h, f)
  {
  }

  lemma TwiceHalf(a: nat, d: nat)
    requires d < 2
    ensures Twice(a, d) / 2 == a
  {
  }

  lemma NextBit(xor: (nat, nat) -> nat, a: nat, b: nat, x: nat, d: nat, e: nat, f: nat, a': nat, b': nat, x': nat)
    requires BitWise(xor) && d < 2 && e < 2 && xor(a, b) == x && f == if d == e then 0 else 1
    requires a' == Twice(a, d) && b' == Twice(b, e) && x' == Twice(x, f)
    ensures xor(a', b') == x'
  {
  }

  /** The exclusive or of two digits, given by their bits. */
  lemma XorBits4(xor: (nat, nat) -> nat, d: nat, e: nat, f: nat, d3: nat, d2: nat, d1: nat, d0: nat, e3: nat, e2: nat, e1: nat, e0: nat)
    requires BitWise(xor) && d3 < 2 && d2 < 2 && d1 < 2 && d0 < 2 && e3 < 2 && e2 < 2 && e1 < 2 && e0 < 2
    requires d == 8 * d3 + 4 * d2 + 2 * d1 + d0 && e == 8 * e3 + 4 * e2 + 2 * e1 + e0
    requires f == (if d3 == e3 then 0 else 8) + (if d2 == e2 then 0 else 4) + (if d1 == e1 then 0 else 2) + if d0 == e0 then 0 else 1
    ensures xor(d, e) == f
  {
    var f3, f2 := if d3 == e3 then 0 else 1, if d2 == e2 then 0 else 1;
    var f1, f0 := if d1 == e1 then 0 else 1, if d0 == e0 then 0 else 1;
    NextBit(xor, 0, 0, 0, d3, e3, f3, d3, e3, f3);
    var a2, b2, x2 := Twice(d3, d2), Twice(e3, e2), Twice(f3, f2);
    NextBit(xor, d3, e3, f3, d2, e2, f2, a2, b2, x2);
    var a1, b1, x1 := Twice(a2, d1), Twice(b2, e1), Twice(x2, f1);
    NextBit(xor, a2, b2, x2, d1, e1, f1, a1, b1, x1);
    NextBit(xor, a1, b1, x1, d0, e0, f0, d, e, f);
  }

  /** The digits that occur below. */
  ghost predicate Digits(xor: (nat, nat) -> nat) {
    && xor(9, 2) == 11 && xor(7, 7) == 0 && xor(15, 8) == 7 && xor(4, 13) == 9 && xor(10, 13) == 7
    && xor(7, 14) == 9 && xor(12, 6) == 10 && xor(1, 14) == 15 && xor(5, 5) == 0 && xor(11, 13) == 6
    && xor(5, 14) == 11 && xor(7, 13) == 10 && xor(7, 4) == 3 && xor(10, 12) == 6 && xor(7, 3) == 4
    && xor(7, 6) == 1 && xor(0, 10) == 10 && xor(8, 1) == 9 && xor(11, 12) == 7 && xor(15, 4) == 11
    && xor(5, 4) == 1 && xor(12, 1) == 13 && xor(9, 5) == 12 && xor(13, 7) == 10 && xor(14, 1) == 15
  }

  lemma HasDigits(xor: (nat, nat) -> nat)
    requires BitWise(xor)
    ensures Digits(xor)
  {
    XorBits4(xor, 9, 2, 11, 1, 0, 0, 1, 0, 0, 1, 0);
    XorBits4(xor, 7, 7, 0, 0, 1, 1, 1, 0, 1, 1, 1);
    XorBits4(xor, 15, 8, 7, 1, 1, 1, 1, 1, 0, 0, 0);
    XorBits4(xor, 4, 13, 9, 0, 1, 0, 0, 1, 1, 0, 1);
    XorBits4(xor, 10, 13, 7, 1, 0, 1, 0, 1, 1, 0, 1);
    XorBits4(xor, 7, 14, 9, 0, 1, 1, 1, 1, 1, 1, 0);
    XorBits4(xor, 12, 6, 10, 1, 1, 0, 0, 0, 1, 1, 0);
    XorBits4(xor, 1, 14, 15, 0, 0, 0, 1, 1, 1, 1, 0);
    XorBits4(xor, 5, 5, 0, 0, 1, 0, 1, 0, 1, 0, 1);
    XorBits4(xor, 11, 13, 6, 1, 0, 1, 1, 1, 1, 0, 1);
    XorBits4(xor, 5, 14, 11, 0, 1, 0, 1, 1, 1, 1, 0);
    XorBits4(xor, 7, 13, 10, 0, 1, 1, 1, 1, 1, 0, 1);
    XorBits4(xor, 7, 4, 3, 0, 1, 1, 1, 0, 1, 0, 0);
    XorBits4(xor, 10, 12, 6, 1, 0, 1, 0, 1, 1, 0, 0);
    XorBits4(xor, 7, 3, 4, 0, 1, 1, 1, 0, 0, 1, 1);
    XorBits4(xor, 7, 6, 1, 0, 1, 1, 1, 0, 1, 1, 0);
    XorBits4(xor, 0, 10, 10, 0, 0, 0, 0, 1, 0, 1, 0);
    XorBits4(xor, 8, 1, 9, 1, 0, 0, 0, 0, 0, 0, 1);
    XorBits4(xor, 11, 12, 7, 1, 0, 1, 1, 1, 1, 0, 0);
    XorBits4(xor, 15, 4, 11, 1, 1, 1, 1, 0, 1, 0, 0);
    XorBits4(xor, 5, 4, 1, 0, 1, 0, 1, 0, 1, 0, 0);
    XorBits4(xor, 12, 1, 13, 1, 1, 0, 0, 0, 0, 0, 1);
    XorBits4(xor, 9, 5, 12, 1, 0, 0, 1, 0, 1, 0, 1);
    XorBits4(xor, 13, 7, 10, 1, 1, 0, 1, 0, 1, 1, 1);
    XorBits4(xor, 14, 1, 15, 1, 1, 1, 0, 0, 0, 0, 1);
  }

  /** Four digits more. */
  lemma XorQuad(xor: (nat, nat) -> nat, a: nat, b: nat, x: nat, d3: nat, d2: nat, d1: nat, d0: nat,
                e3: nat, e2: nat, e1: nat, e0: nat, f3: nat, f2: nat, f1: nat, f0: nat, a': nat, b': nat, x': nat)
    requires DigitWise(xor) && xor(a, b) == x
    requires d3 < 16 && d2 < 16 && d1 < 16 && d0 < 16 && e3 < 16 && e2 < 16 && e1 < 16 && e0 < 16
    requires xor(d3, e3) == f3 && xor(d2, e2) == f2 && xor(d1, e1) == f1 && xor(d0, e0) == f0
    requires a' == 0x1_0000 * a + 0x1000 * d3 + 0x100 * d2 + 0x10 * d1 + d0
    requires b' == 0x1_0000 * b + 0x1000 * e3 + 0x100 * e2 + 0x10 * e1 + e0
    requires x' == 0x1_0000 * x + 0x1000 * f3 + 0x100 * f2 + 0x10 * f1 + f0
    ensures xor(a', b') == x'
  {
    assert xor(More(More(More(More(a, d3), d2), d1), d0), More(More(More(More(b, e3), e2), e1), e0)) ==
           More(More(More(More(x, f3), f2), f1), f0);
  }

  lemma XorOf1(xor: (nat, nat) -> nat)
    requires DigitWise(xor) && Digits(xor)
    ensures xor(0x9e3779b97f4a7c15, 0x278dde6e5) == 0x9e3779bb07979af0
  {
    XorQuad(xor, 0, 0, 0, 9, 14, 3, 7, 0, 0, 0, 0, 9, 14, 3, 7,
            0x9e37, 0x0, 0x9e37);
    XorQuad(xor, 0x9e37, 0x0, 0x9e37, 7, 9, 11, 9, 0, 0, 0, 2, 7, 9, 11, 11,
            0x9e3779b9, 0x2, 0x9e3779bb);
    XorQuad(xor, 0x9e3779b9, 0x2, 0x9e3779bb, 7, 15, 4, 10, 7, 8, 13, 13, 0, 7, 9, 7,
            0x9e3779b97f4a, 0x278dd, 0x9e3779bb0797);
    XorQuad(xor, 0x9e3779b97f4a, 0x278dd, 0x9e3779bb0797, 7, 12, 1, 5, 14, 6, 14, 5, 9, 10, 15, 0,
            0x9e3779b97f4a7c15, 0x278dde6e5, 0x9e3779bb07979af0);
  }

  lemma XorOf2(xor: (nat, nat) -> nat)
    requires DigitWise(xor) && Digits(xor)
    ensures xor(0x6f68261b57e7a770, 0xded04c36a) == 0x6f682616bae3641a
  {
    XorQuad(xor, 0, 0, 0, 6, 15, 6, 8, 0, 0, 0, 0, 6, 15, 6, 8,
            0x6f68, 0x0, 0x6f68);
    XorQuad(xor, 0x6f68, 0x0, 0x6f68, 2, 6, 1, 11, 0, 0, 0, 13, 2, 6, 1, 6,
            0x6f68261b, 0xd, 0x6f682616);
    XorQuad(xor, 0x6f68261b, 0xd, 0x6f682616, 5, 7, 14, 7, 14, 13, 0, 4, 11, 10, 14, 3,
            0x6f68261b57e7, 0xded04, 0x6f682616bae3);
    XorQuad(xor, 0x6f68261b57e7, 0xded04, 0x6f682616bae3, 10, 7, 7, 0, 12, 3, 6, 10, 6, 4, 1, 10,
            0x6f68261b57e7a770, 0xded04c36a, 0x6f682616bae3641a);
  }

  lemma XorOf3(xor: (nat, nat) -> nat)
    requires DigitWise(xor) && Digits(xor)
    ensures xor(0xe220a838bf5c9dde, 0x1c4415071) == 0xe220a8397b1dcdaf
  {
    XorQuad(xor, 0, 0, 0, 14, 2, 2, 0, 0, 0, 0, 0, 14, 2, 2, 0,
            0xe220, 0x0, 0xe220);
    XorQuad(xor, 0xe220, 0x0, 0xe220, 10, 8, 3, 8, 0, 0, 0, 1, 10, 8, 3, 9,
            0xe220a838, 0x1, 0xe220a839);
    XorQuad(xor, 0xe220a838, 0x1, 0xe220a839, 11, 15, 5, 12, 12, 4, 4, 1, 7, 11, 1, 13,
            0xe220a838bf5c, 0x1c441, 0xe220a8397b1d);
    XorQuad(xor, 0xe220a838bf5c, 0x1c441, 0xe220a8397b1d, 9, 13, 13, 14, 5, 0, 7, 1, 12, 13, 10, 15,
            0xe220a838bf5c9dde, 0x1c4415071, 0xe220a8397b1dcdaf);
  }

  lemma Powers()
    ensures Pow2(27) == 0x800_0000 && Pow2(30) == 0x4000_0000 && Pow2(31) == 0x8000_0000
  {
    assert Pow2(3) == 8 && Pow2(4) == 16 && Pow2(1) == 2;
    Pow2Doubles(4);
    Pow2Doubles(8);
    Pow2Adds(16, 8);
    Pow2Adds(24, 3);
    Pow2Adds(27, 3);
    Pow2Adds(30, 1);
  }

  lemma ShrIs(a: nat, n: nat, p: nat, q: nat)
    requires Pow2(n) == p && q * p <= a < (q + 1) * p
    ensures Shr(a, n) == q
  {
    ShrDivides(a, n);
    var h := Shr(a, n);
    if h < q {
      MulMono(h + 1, q, p);
    } else if h > q {
      MulMono(q + 1, h, p);
    }
  }

  lemma Fold1(z: Word)
    requires z == 0x9e3779b97f4a7c15
    ensures Fold(z, 30) == 0x9e3779bb07979af0
  {
    Powers();
    ShrIs(z, 30, 0x40000000, 0x278dde6e5);
    XorIsDigitWise();
    XorIsBitWise();
    HasDigits(Xor);
    XorOf1(Xor);
  }

  lemma Fold2(z: Word)
    requires z == 0x6f68261b57e7a770
    ensures Fold(z, 27) == 0x6f682616bae3641a
  {
    Powers();
    ShrIs(z, 27, 0x8000000, 0xded04c36a);
    XorIsDigitWise();
    XorIsBitWise();
    HasDigits(Xor);
    XorOf2(Xor);
  }

  lemma Fold3(z: Word)
    requires z == 0xe220a838bf5c9dde
    ensures Fold(z, 31) == 0xe220a8397b1dcdaf
  {
    Powers();
    ShrIs(z, 31, 0x80000000, 0x1c4415071);
    XorIsDigitWise();
    XorIsBitWise();
    HasDigits(Xor);
    XorOf3(Xor);
  }

  lemma Times1(y: Word)
    requires y == 0x9e3779bb07979af0
    ensures Times(y, M1) == 0x6f68261b57e7a770
  {
  }

  lemma Times2(y: Word)
    requires y == 0x6f682616bae3641a
    ensures Times(y, M2) == 0xe220a838bf5c9dde
  {
  }

  lemma FirstMix(z: Word)
    requires z == 0x9e3779b97f4a7c15
    ensures Mix(z) == 0xe220a8397b1dcdaf
  {
    Fold1(z);
    var y := Fold(z, 30);
    Times1(y);
    Fold2(Times(y, M1));
    var x := Fold(Times(y, M1), 27);
    Times2(x);
    Fold3(Times(x, M2));
  }

  lemma FirstState(seed: Word)
    requires seed == 0
    ensures State(seed, 1) == 0x9e3779b97f4a7c15
  {
    assert State(seed, 0) == seed;
  }

  /** The published first output of splitmix64 for seed 0. */
  lemma FirstOutput(seed: Word)
    requires seed == 0
    ensures Mix(State(seed, 1)) == 0xe220a8397b1dcdaf
  {
    FirstState(seed);
    var z := State(seed, 1);
    FirstMix(z);
  }

  lemma KeyIsMix(p: Word, iter: Word, k: nat, seed: Word)
    requires seed == Seed(p, iter)
    ensures Key(p, iter, k) == Mix(State(seed, k + 1))
  {
  }

  /** The first word of the keystream of page 0 at iteration 0. */
  lemma FirstKey(p: Word, iter: Word)
    requires p == 0 && iter == 0
    ensures Key(p, iter, 0) == 0xe220a8397b1dcdaf
  {
    SeedHalves(p, iter);
    FirstOutput(Seed(p, iter));
    KeyIsMix(p, iter, 0, Seed(p, iter));
  }
}
