/** The splitmix64 keystream on uint64 words, written over integers with its wrap-around made explicit. */
module Keystream {
  import opened Arith

  const GAMMA: nat := 0x9e3779b97f4a7c15
  const M1: nat := 0xbf58476d1ce4e5b9
  const M2: nat := 0x94d049bb133111eb

  type Word = x: nat | x < U64

  // ---------------------------------------------------------------- bit operations

  /** Bitwise exclusive or. */
  function Xor(a: nat, b: nat): nat {
    if a == 0 && b == 0 then 0 else 2 * Xor(a / 2, b / 2) + (a + b) % 2
  }

  /** Right shift. */
  function Shr(a: nat, n: nat): nat
    decreases a + n
  {
    if n == 0 then a else Shr(a / 2, n - 1)
  }

  function Pow2(n: nat): nat {
    if n == 0 then 1 else 2 * Pow2(n - 1)
  }

  lemma {:induction false} Pow2Adds(m: nat, n: nat)
    ensures Pow2(m + n) == Pow2(m) * Pow2(n)
    decreases n
  {
    if n > 0 {
      Pow2Adds(m, n - 1);
      DoubleRight(Pow2(m), Pow2(n - 1));
    }
  }

  lemma Pow2Doubles(n: nat)
    ensures Pow2(2 * n) == Pow2(n) * Pow2(n)
  {
    Pow2Adds(n, n);
  }

  lemma Pow32()
    ensures Pow2(32) == 0x1_0000_0000
  {
    assert Pow2(4) == 16;
    Pow2Doubles(4);
    Pow2Doubles(8);
    Pow2Doubles(16);
  }

  lemma Pow64()
    ensures Pow2(64) == U64
  {
    Pow32();
    Pow2Doubles(32);
  }

  /** The low bit and the rest. */
  lemma XorParts(a: nat, b: nat)
    ensures Xor(a, b) / 2 == Xor(a / 2, b / 2) && Xor(a, b) % 2 == (a + b) % 2
  {
  }

  lemma SameParity(a: nat, b: nat, c: nat)
    requires (a + c) % 2 == (b + c) % 2 && a / 2 == b / 2
    ensures a == b
  {
  }

  lemma {:induction false} XorBelow(a: nat, b: nat, bits: nat, bound: nat)
    requires a < bound && b < bound && bound == Pow2(bits)
    ensures Xor(a, b) < bound
    decreases bits
  {
    if bits == 0 {
      assert a == 0 && b == 0;
    } else {
      Halves(a, b, Pow2(bits - 1));
      XorBelow(a / 2, b / 2, bits - 1, Pow2(bits - 1));
      XorParts(a, b);
      Rejoin(Xor(a, b), Pow2(bits - 1));
    }
  }

  lemma Halves(a: nat, b: nat, half: nat)
    requires a < 2 * half && b < 2 * half
    ensures a / 2 < half && b / 2 < half
  {
  }

  lemma Rejoin(x: nat, half: nat)
    requires x / 2 < half
    ensures x < 2 * half
  {
  }

  lemma {:induction false} XorCancels(a: nat, b: nat, c: nat)
    requires Xor(a, c) == Xor(b, c)
    ensures a == b
    decreases a + b + c
  {
    if a + b + c > 0 {
      XorParts(a, c);
      XorParts(b, c);
      XorCancels(a / 2, b / 2, c / 2);
      SameParity(a, b, c);
    }
  }

  lemma {:induction false} XorCommutes(a: nat, b: nat)
    ensures Xor(a, b) == Xor(b, a)
  {
    if a + b > 0 {
      XorCommutes(a / 2, b / 2);
    }
  }

  lemma {:induction false} ShrXor(a: nat, b: nat, n: nat)
    ensures Shr(Xor(a, b), n) == Xor(Shr(a, n), Shr(b, n))
    decreases n
  {
    if n > 0 {
      XorParts(a, b);
      ShrXor(a / 2, b / 2, n - 1);
    }
  }

  /** Bit k of the exclusive or is the sum of the two bits k without carry. */
  lemma XorBits(a: nat, b: nat, k: nat)
    ensures Shr(Xor(a, b), k) % 2 == (Shr(a, k) % 2 + Shr(b, k) % 2) % 2
  {
    ShrXor(a, b, k);
    XorParts(Shr(a, k), Shr(b, k));
    ParitySum(Shr(a, k), Shr(b, k));
  }

  lemma ParitySum(x: nat, y: nat)
    ensures (x + y) % 2 == (x % 2 + y % 2) % 2
  {
  }

  /** A right shift is a division by a power of two. */
  lemma {:induction false} ShrDivides(a: nat, n: nat)
    ensures Shr(a, n) * Pow2(n) <= a < (Shr(a, n) + 1) * Pow2(n)
    decreases n
  {
    if n > 0 {
      ShrDivides(a / 2, n - 1);
      DoubleRight(Shr(a, n), Pow2(n - 1));
      DoubleRight(Shr(a, n) + 1, Pow2(n - 1));
    }
  }

  lemma DoubleRight(x: nat, y: nat)
    ensures x * (2 * y) == 2 * (x * y)
  {
  }

  lemma {:induction false} ShrSmaller(a: nat, n: nat)
    ensures Shr(a, n) <= a && (n > 0 && a > 0 ==> Shr(a, n) < a)
    decreases n
  {
    if n > 0 {
      ShrSmaller(a / 2, n - 1);
    }
  }

  /** z ^ (z >> n). */
  function Fold(z: Word, n: nat): Word {
    Pow64();
    ShrSmaller(z, n);
    XorBelow(z, Shr(z, n), 64, U64);
    Xor(z, Shr(z, n))
  }

  /** Folding loses nothing: the high bits come through unchanged and give back the low ones. */
  lemma {:induction false} FoldInjective(a: nat, b: nat, n: nat)
    requires n > 0 && Xor(a, Shr(a, n)) == Xor(b, Shr(b, n))
    ensures a == b
    decreases a + b
  {
    var h, k := Shr(a, n), Shr(b, n);
    ShrSmaller(a, n);
    ShrSmaller(b, n);
    ShrXor(a, h, n);
    ShrXor(b, k, n);
    if a + b > 0 {
      FoldInjective(h, k, n);
      XorCancels(a, b, h);
    }
  }

  /** n zero bits appended. */
  function Scale(a: nat, n: nat): nat {
    if n == 0 then a else 2 * Scale(a, n - 1)
  }

  /** The exclusive or works on the high and on the low bits separately. */
  lemma {:induction false} XorSplit(a: nat, b: nat, d: nat, e: nat, n: nat)
    requires d < Pow2(n) && e < Pow2(n)
    ensures Xor(Scale(a, n) + d, Scale(b, n) + e) == Scale(Xor(a, b), n) + Xor(d, e)
    decreases n
  {
    if n > 0 {
      XorSplit(a, b, d / 2, e / 2, n - 1);
      SplitStep(Scale(a, n) + d, Scale(b, n) + e, d, e, Scale(a, n - 1), Scale(b, n - 1), Scale(Xor(a, b), n - 1));
    }
  }

  lemma SplitStep(s: nat, t: nat, d: nat, e: nat, ah: nat, bh: nat, xh: nat)
    requires s == 2 * ah + d && t == 2 * bh + e && Xor(ah + d / 2, bh + e / 2) == xh + Xor(d / 2, e / 2)
    ensures Xor(s, t) == 2 * xh + Xor(d, e)
  {
    XorParts(s, t);
    XorParts(d, e);
    HalfOf(s, ah, d);
    HalfOf(t, bh, e);
    SameBit(s, t, ah + bh, d, e);
    Rejoined(Xor(s, t), xh, Xor(d, e));
  }

  lemma HalfOf(s: nat, h: nat, d: nat)
    requires s == 2 * h + d
    ensures s / 2 == h + d / 2
  {
  }

  lemma SameBit(s: nat, t: nat, h: nat, d: nat, e: nat)
    requires s + t == 2 * h + (d + e)
    ensures (s + t) % 2 == (d + e) % 2
  {
  }

  lemma Rejoined(x: nat, h: nat, y: nat)
    requires x / 2 == h + y / 2 && x % 2 == y % 2
    ensures x == 2 * h + y
  {
  }

  lemma {:induction false} ScaleIs(a: nat, n: nat)
    ensures Scale(a, n) == a * Pow2(n)
  {
    if n > 0 {
      ScaleIs(a, n - 1);
      DoubleRight(a, Pow2(n - 1));
    }
  }

  lemma {:induction false} XorZero(a: nat)
    ensures Xor(a, 0) == a && Xor(0, a) == a
  {
    if a > 0 {
      XorZero(a / 2);
    }
  }

  // ---------------------------------------------------------------- the mixer

  function Times(z: Word, m: nat): Word {
    (z * m) % U64
  }

  /** The output of the generator in state s. */
  function Mix(s: Word): Word {
    Fold(Times(Fold(Times(Fold(s, 30), M1), 27), M2), 31)
  }

  /** Multiplication by a constant with an inverse modulo 2^64 loses nothing. */
  lemma TimesUndone(a: Word, m: nat, inverse: nat, q: nat)
    requires m * inverse == 1 + q * U64
    ensures Times(Times(a, m), inverse) == a
  {
    var k := (a * m) / U64;
    var y := Times(a, m);
    assert y == a * m - k * U64;
    calc {
      y * inverse;
      a * m * inverse - k * U64 * inverse;
      a * (m * inverse) - U64 * (k * inverse);
      a * (1 + q * U64) - U64 * (k * inverse);
      a + U64 * (a * q - k * inverse);
    }
    WrapCancels(a, a * q - k * inverse);
  }

  lemma WrapCancels(a: Word, t: int)
    ensures (a + U64 * t) % U64 == a
  {
  }

  lemma TimesInjective(a: Word, b: Word)
    ensures Times(a, M1) == Times(b, M1) ==> a == b
    ensures Times(a, M2) == Times(b, M2) ==> a == b
  {
    var n1, n2 := 0x96de1b173f119089, 0x319642b2d24d8ec3;
    TimesUndone(a, M1, n1, M1 * n1 / U64);
    TimesUndone(b, M1, n1, M1 * n1 / U64);
    TimesUndone(a, M2, n2, M2 * n2 / U64);
    TimesUndone(b, M2, n2, M2 * n2 / U64);
  }

  /** The mixer is injective, hence a bijection of the 64-bit words. */
  lemma MixInjective(s: Word, t: Word)
    ensures Mix(s) == Mix(t) <==> s == t
  {
    if Mix(s) == Mix(t) {
      MixCancels(s, t);
    }
  }

  lemma MixCancels(s: Word, t: Word)
    requires Fold(Times(Fold(Times(Fold(s, 30), M1), 27), M2), 31) == Fold(Times(Fold(Times(Fold(t, 30), M1), 27), M2), 31)
    ensures s == t
  {
    var s1, t1 := Fold(s, 30), Fold(t, 30);
    var s2, t2 := Times(s1, M1), Times(t1, M1);
    var s3, t3 := Fold(s2, 27), Fold(t2, 27);
    var s4, t4 := Times(s3, M2), Times(t3, M2);
    FoldInjective(s4, t4, 31);
    TimesInjective(s3, t3);
    FoldInjective(s2, t2, 27);
    TimesInjective(s1, t1);
    FoldInjective(s, t, 30);
  }

  // ---------------------------------------------------------------- the stream

  /** The generator's state before output k. */
  function State(seed: Word, k: nat): Word {
    if k == 0 then seed else (State(seed, k - 1) + GAMMA) % U64
  }

  lemma {:induction false} StateInjective(s: Word, t: Word, k: nat)
    requires State(s, k) == State(t, k)
    ensures s == t
  {
    if k > 0 {
      AdvanceInjective(State(s, k - 1), State(t, k - 1));
      StateInjective(s, t, k - 1);
    }
  }

  lemma AdvanceInjective(s: Word, t: Word)
    requires (s + GAMMA) % U64 == (t + GAMMA) % U64
    ensures s == t
  {
  }

  /** The seed of page p at iteration iter: p << 32 ^ iter. */
  function Seed(p: Word, iter: Word): Word {
    Pow64();
    XorBelow(p * 0x1_0000_0000 % U64, iter, 64, U64);
    Xor(p * 0x1_0000_0000 % U64, iter)
  }

  /** Output k of the stream of page p at iteration iter. */
  function Key(p: Word, iter: Word, k: nat): Word {
    Mix(State(Seed(p, iter), k + 1))
  }

  /** The streams of two iterations of one page differ at every position. */
  lemma KeysDiffer(p: Word, i: Word, j: Word, k: nat)
    requires i != j
    ensures Key(p, i, k) != Key(p, j, k)
  {
    if Key(p, i, k) == Key(p, j, k) {
      MixInjective(State(Seed(p, i), k + 1), State(Seed(p, j), k + 1));
      StateInjective(Seed(p, i), Seed(p, j), k + 1);
      var hi := p * 0x1_0000_0000 % U64;
      XorCommutes(hi, i);
      XorCommutes(hi, j);
      XorCancels(i, j, hi);
    }
  }

  lemma NoWrap(p: nat)
    requires p < 0x1_0000_0000
    ensures p * 0x1_0000_0000 % U64 == p * 0x1_0000_0000
  {
  }

  lemma XorHalves(p: nat, i: nat)
    requires i < 0x1_0000_0000
    ensures Xor(p * 0x1_0000_0000, i) == p * 0x1_0000_0000 + i
  {
    var o: nat, n: nat := 0, 32;
    Pow32();
    ScaleIs(p, n);
    ScaleIs(o, n);
    XorSplit(p, o, o, i, n);
    XorZero(p);
    XorZero(i);
  }

  /** Page and iteration each have their own half of the seed. */
  lemma SeedHalves(p: Word, iter: Word)
    requires p < 0x1_0000_0000 && iter < 0x1_0000_0000
    ensures Seed(p, iter) == p * 0x1_0000_0000 + iter
  {
    NoWrap(p);
    XorHalves(p, iter);
  }

  /** Two streams agree at a position only if they are of the same page and the same iteration. */
  lemma KeysApart(p: Word, i: Word, q: Word, j: Word, k: nat)
    requires p < 0x1_0000_0000 && i < 0x1_0000_0000 && q < 0x1_0000_0000 && j < 0x1_0000_0000
    ensures Key(p, i, k) == Key(q, j, k) <==> p == q && i == j
  {
    if Key(p, i, k) == Key(q, j, k) {
      MixInjective(State(Seed(p, i), k + 1), State(Seed(q, j), k + 1));
      StateInjective(Seed(p, i), Seed(q, j), k + 1);
      SeedHalves(p, i);
      SeedHalves(q, j);
    }
  }

  /** The generator object. */
  class Generator {
    var state: Word

    constructor (seed: Word)
      ensures state == seed
    {
      state := seed;
    }

    method Next(ghost seed: Word, ghost k: nat) returns (r: Word)
      requires state == State(seed, k)
      modifies this
      ensures state == State(seed, k + 1)
      ensures r == Mix(state)
    {
      state := (state + GAMMA) % U64;
      var z := state;
      z := Times(Fold(z, 30), M1);
      z := Times(Fold(z, 27), M2);
      r := Fold(z, 31);
    }
  }
}
