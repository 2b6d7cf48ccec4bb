/** Bytes and big-endian integers. */
module Bytes {
  import opened Arith

  type Byte = n: int | 0 <= n < 256

  function Pow256(k: nat): nat {
    if k == 0 then 1 else 256 * Pow256(k - 1)
  }

  lemma Powers()
    ensures Pow256(4) == 0x1_0000_0000 && Pow256(8) == 0x1_0000_0000_0000_0000
  {
    assert Pow256(2) == 0x1_0000;
  }

  /** The k low-order bytes of n, most significant first. */
  function Be(n: nat, k: nat): (s: seq<Byte>)
    ensures |s| == k
  {
    if k == 0 then [] else Be(n / 256, k - 1) + [n % 256]
  }

  function Val(s: seq<Byte>): nat {
    if s == [] then 0 else 256 * Val(s[..|s| - 1]) + s[|s| - 1]
  }

  lemma {:induction false} BeVal(n: nat, k: nat)
    requires n < Pow256(k)
    ensures Val(Be(n, k)) == n
  {
    if k > 0 {
      BeVal(n / 256, k - 1);
      assert Be(n, k)[..k - 1] == Be(n / 256, k - 1);
    }
  }

  /** Byte i, counted from the most significant one, is digit k - 1 - i to the base 256. */
  lemma {:induction false} BeDigit(n: nat, k: nat, i: nat)
    requires i < k
    ensures Pow256(k - 1 - i) > 0 && Be(n, k)[i] == n / Pow256(k - 1 - i) % 256
  {
    if i < k - 1 {
      BeDigit(n / 256, k - 1, i);
      DivDiv(n, 256, Pow256(k - 2 - i));
    }
  }

  lemma {:induction false} ValBe(s: seq<Byte>)
    ensures Val(s) < Pow256(|s|)
    ensures Be(Val(s), |s|) == s
  {
    if s != [] {
      var init, last := s[..|s| - 1], s[|s| - 1];
      ValBe(init);
      assert Val(s) / 256 == Val(init) && Val(s) % 256 == last;
      assert s == init + [last];
    }
  }
}

/** The algebra behind the checksum's strength, over any register type: a register is updated by mixing in a word and
    applying an injective step, and a word that enters one place up comes out one place down after the step.
    Nothing here looks at bits.
 */
module BurstAlgebra {
  ghost predicate Injective<W(!new)>(f: W -> W) {
    forall a, b :: f(a) == f(b) ==> a == b
  }

  /** Mixing is associative and can be cancelled on either side. */
  ghost predicate Cancels<W(!new)>(xor: (W, W) -> W, zero: W) {
    && (forall a, b, c {:trigger xor(xor(a, b), c)} :: xor(xor(a, b), c) == xor(a, xor(b, c)))
    && (forall a {:trigger xor(a, zero)} :: xor(a, zero) == a)
    && (forall a, b, x {:trigger xor(a, x), xor(b, x)} :: xor(a, x) == xor(b, x) ==> a == b)
    && (forall a, x, y {:trigger xor(a, x), xor(a, y)} :: xor(a, x) == xor(a, y) ==> x == y)
  }

  /** z before the step is y after it. */
  ghost predicate Falls<W(!new)>(xor: (W, W) -> W, f: W -> W, z: W, y: W) {
    forall x {:trigger xor(x, z)} :: f(xor(x, z)) == xor(f(x), y)
  }

  function Eight<W>(g: W -> W, c: W): W {
    g(g(g(g(g(g(g(g(c))))))))
  }

  lemma EightInjective<W(!new)>(g: W -> W, a: W, b: W)
    requires Injective(g) && Eight(g, a) == Eight(g, b)
    ensures a == b
  {
  }

  function Raise<W>(shl: W -> W, y: W, k: nat): W {
    if k == 0 then y else shl(Raise(shl, y, k - 1))
  }

  /** A word with room for k more places; moved up one place it has room for one less, and with room for at least one it
      falls back into place after the step g. */
  ghost predicate Slides<W(!new)>(xor: (W, W) -> W, g: W -> W, shl: W -> W, room: (W, nat) -> bool) {
    && (forall y, k: nat {:trigger room(y, k), shl(y)} :: k > 0 && room(y, k) ==> room(shl(y), k - 1))
    && (forall y, k: nat {:trigger room(y, k)} :: k > 0 && room(y, k) ==> Falls(xor, g, shl(y), y))
  }

  lemma {:induction false} RaiseRoom<W(!new)>(xor: (W, W) -> W, g: W -> W, shl: W -> W, room: (W, nat) -> bool, y: W, k: nat)
    requires Slides(xor, g, shl, room) && room(y, 8) && k <= 8
    ensures room(Raise(shl, y, k), 8 - k)
  {
    if k > 0 {
      RaiseRoom(xor, g, shl, room, y, k - 1);
    }
  }

  lemma RaiseFalls<W(!new)>(xor: (W, W) -> W, g: W -> W, shl: W -> W, room: (W, nat) -> bool, y: W, k: nat)
    requires Slides(xor, g, shl, room) && room(y, 8) && k < 8
    ensures Falls(xor, g, Raise(shl, y, k + 1), Raise(shl, y, k))
  {
    RaiseRoom(xor, g, shl, room, y, k);
  }

  lemma RaiseEight<W>(shl: W -> W, y: W)
    ensures Raise(shl, y, 8) == Eight(shl, y)
  {
    assert Raise(shl, y, 4) == shl(shl(shl(shl(y))));
  }

  /** Eight places up, eight steps down. */
  lemma EightFalls<W(!new)>(xor: (W, W) -> W, g: W -> W, shl: W -> W, room: (W, nat) -> bool, y: W, x: W)
    requires Slides(xor, g, shl, room) && room(y, 8)
    ensures Eight(g, xor(x, Raise(shl, y, 8))) == xor(Eight(g, x), y)
  {
    RaiseFalls(xor, g, shl, room, y, 7);
    RaiseFalls(xor, g, shl, room, y, 6);
    RaiseFalls(xor, g, shl, room, y, 5);
    RaiseFalls(xor, g, shl, room, y, 4);
    RaiseFalls(xor, g, shl, room, y, 3);
    RaiseFalls(xor, g, shl, room, y, 2);
    RaiseFalls(xor, g, shl, room, y, 1);
    RaiseFalls(xor, g, shl, room, y, 0);
    assert Raise(shl, y, 0) == y;
  }

  /** The register after the words ws. */
  function Fold<W>(xor: (W, W) -> W, f: W -> W, c: W, ws: seq<W>): W
    decreases |ws|
  {
    if ws == [] then c else Fold(xor, f, f(xor(c, ws[0])), ws[1..])
  }

  /** Incremental equals whole. */
  lemma {:induction false} FoldConcat<W>(xor: (W, W) -> W, f: W -> W, c: W, s: seq<W>, t: seq<W>)
    ensures Fold(xor, f, c, s + t) == Fold(xor, f, Fold(xor, f, c, s), t)
    decreases |s|
  {
    if s == [] {
      assert s + t == t;
    } else {
      assert (s + t)[0] == s[0] && (s + t)[1..] == s[1..] + t;
      FoldConcat(xor, f, f(xor(c, s[0])), s[1..], t);
    }
  }

  /** For fixed further words, different registers stay different. */
  lemma {:induction false} FoldInjective<W(!new)>(xor: (W, W) -> W, f: W -> W, zero: W, a: W, b: W, s: seq<W>)
    requires Cancels(xor, zero) && Injective(f) && Fold(xor, f, a, s) == Fold(xor, f, b, s)
    ensures a == b
    decreases |s|
  {
    if s != [] {
      FoldInjective(xor, f, zero, f(xor(a, s[0])), f(xor(b, s[0])), s[1..]);
    }
  }

  /** Words stacked into one, the first at the bottom, each next one place up. */
  function Pack<W>(xor: (W, W) -> W, up: W -> W, zero: W, s: seq<W>): W
    decreases |s|
  {
    if s == [] then zero else xor(s[0], up(Pack(xor, up, zero, s[1..])))
  }

  function Times<W>(f: W -> W, c: W, n: nat): W
    decreases n
  {
    if n == 0 then c else Times(f, f(c), n - 1)
  }

  lemma {:induction false} TimesInjective<W(!new)>(f: W -> W, a: W, b: W, n: nat)
    requires Injective(f) && Times(f, a, n) == Times(f, b, n)
    ensures a == b
    decreases n
  {
    if n > 0 {
      TimesInjective(f, f(a), f(b), n - 1);
    }
  }

  /** Every proper suffix, stacked and moved up, falls back into place. */
  ghost predicate Stacks<W(!new)>(xor: (W, W) -> W, f: W -> W, up: W -> W, zero: W, s: seq<W>)
    decreases |s|
  {
    s != [] ==>
      var rest := Pack(xor, up, zero, s[1..]);
      Falls(xor, f, up(rest), rest) && Stacks(xor, f, up, zero, s[1..])
  }

  /** Stackable words act on the register like one mix at the start. */
  lemma {:induction false} FoldIsPack<W(!new)>(xor: (W, W) -> W, f: W -> W, up: W -> W, zero: W, c: W, s: seq<W>)
    requires Cancels(xor, zero) && Stacks(xor, f, up, zero, s)
    ensures Fold(xor, f, c, s) == Times(f, xor(c, Pack(xor, up, zero, s)), |s|)
    decreases |s|
  {
    if s != [] {
      var rest := Pack(xor, up, zero, s[1..]);
      FoldIsPack(xor, f, up, zero, f(xor(c, s[0])), s[1..]);
      assert f(xor(xor(c, s[0]), up(rest))) == xor(f(xor(c, s[0])), rest);
    }
  }

  /** How bytes stack: room(r, k) says that r leaves k byte places free at the top. */
  ghost predicate StackLaws<W(!new)>(xor: (W, W) -> W, f: W -> W, up: W -> W, zero: W,
                                     byte: W -> bool, room: (W, nat) -> bool) {
    && room(zero, 4)
    && (forall b, r, k: nat {:trigger room(r, k), xor(b, up(r))} :: byte(b) && k > 0 && room(r, k) ==> room(xor(b, up(r)), k - 1))
    && (forall r, k: nat {:trigger room(r, k)} :: k > 0 && room(r, k) ==> room(r, 1) && Falls(xor, f, up(r), r))
    && (forall b, r, c, q {:trigger xor(b, up(r)), xor(c, up(q))} ::
          byte(b) && byte(c) && room(r, 1) && room(q, 1) && xor(b, up(r)) == xor(c, up(q)) ==> b == c && r == q)
  }

  ghost predicate AllBytes<W>(byte: W -> bool, s: seq<W>) {
    forall i :: 0 <= i < |s| ==> byte(s[i])
  }

  lemma {:induction false} PackRoom<W(!new)>(xor: (W, W) -> W, f: W -> W, up: W -> W, zero: W,
                                             byte: W -> bool, room: (W, nat) -> bool, s: seq<W>)
    requires StackLaws(xor, f, up, zero, byte, room) && AllBytes(byte, s) && |s| <= 4
    ensures room(Pack(xor, up, zero, s), 4 - |s|) && Stacks(xor, f, up, zero, s)
    decreases |s|
  {
    if s != [] {
      PackRoom(xor, f, up, zero, byte, room, s[1..]);
      assert byte(s[0]);
    }
  }

  lemma {:induction false} PackInjective<W(!new)>(xor: (W, W) -> W, f: W -> W, up: W -> W, zero: W,
                                                  byte: W -> bool, room: (W, nat) -> bool, s: seq<W>, t: seq<W>)
    requires StackLaws(xor, f, up, zero, byte, room) && AllBytes(byte, s) && AllBytes(byte, t) && |s| == |t| <= 4
    requires Pack(xor, up, zero, s) == Pack(xor, up, zero, t)
    ensures s == t
    decreases |s|
  {
    if s != [] {
      PackHeads(xor, f, up, zero, byte, room, s, t);
      PackInjective(xor, f, up, zero, byte, room, s[1..], t[1..]);
      assert s == [s[0]] + s[1..] && t == [t[0]] + t[1..];
    }
  }

  lemma PackHeads<W(!new)>(xor: (W, W) -> W, f: W -> W, up: W -> W, zero: W,
                           byte: W -> bool, room: (W, nat) -> bool, s: seq<W>, t: seq<W>)
    requires StackLaws(xor, f, up, zero, byte, room) && AllBytes(byte, s) && AllBytes(byte, t) && 0 < |s| == |t| <= 4
    requires Pack(xor, up, zero, s) == Pack(xor, up, zero, t)
    ensures s[0] == t[0] && Pack(xor, up, zero, s[1..]) == Pack(xor, up, zero, t[1..])
  {
    var r, q := Pack(xor, up, zero, s[1..]), Pack(xor, up, zero, t[1..]);
    assert room(r, 1) by { PackRoom(xor, f, up, zero, byte, room, s[1..]); }
    assert room(q, 1) by { PackRoom(xor, f, up, zero, byte, room, t[1..]); }
    assert xor(s[0], up(r)) == xor(t[0], up(q));
  }

  /** Two different strings of at most four bytes never give the same register between equal contexts. */
  lemma BurstDetected<W(!new)>(xor: (W, W) -> W, f: W -> W, up: W -> W, zero: W, byte: W -> bool, room: (W, nat) -> bool,
                               c: W, pre: seq<W>, s: seq<W>, t: seq<W>, post: seq<W>)
    requires Cancels(xor, zero) && Injective(f) && StackLaws(xor, f, up, zero, byte, room)
    requires AllBytes(byte, s) && AllBytes(byte, t) && |s| == |t| <= 4
    requires Fold(xor, f, c, pre + s + post) == Fold(xor, f, c, pre + t + post)
    ensures s == t
  {
    FoldConcat(xor, f, c, pre + s, post);
    FoldConcat(xor, f, c, pre + t, post);
    FoldConcat(xor, f, c, pre, s);
    FoldConcat(xor, f, c, pre, t);
    FoldInjective(xor, f, zero, Fold(xor, f, c, pre + s), Fold(xor, f, c, pre + t), post);
    var r := Fold(xor, f, c, pre);
    PackRoom(xor, f, up, zero, byte, room, s);
    PackRoom(xor, f, up, zero, byte, room, t);
    FoldIsPack(xor, f, up, zero, r, s);
    FoldIsPack(xor, f, up, zero, r, t);
    TimesInjective(f, xor(r, Pack(xor, up, zero, s)), xor(r, Pack(xor, up, zero, t)), |s|);
    PackInjective(xor, f, up, zero, byte, room, s, t);
  }
}

/** CRC-32 (IEEE, reflected), as in section 8 of RFC 1952. */
module Crc32 {
  import BA = BurstAlgebra
  import opened Bytes

  function Xor(a: bv32, b: bv32): bv32 {
    a ^ b
  }

  /** One bit: shift right, and fold the polynomial in when a one falls out. */
  function BitStep(c: bv32): bv32 {
    (c >> 1) ^ (0xEDB8_8320 & (0 - (c & 1)))
  }

  /** One byte: eight bit steps. */
  function Shift8(c: bv32): bv32 {
    BA.Eight(BitStep, c)
  }

  function Up8(c: bv32): bv32 {
    c << 8
  }

  const INIT: bv32 := 0xFFFF_FFFF

  function Narrow(b: Byte): bv8 {
    b as bv8
  }

  function Wide(b: Byte): bv32 {
    Narrow(b) as bv32
  }

  function Widen(s: seq<Byte>): seq<bv32> {
    seq(|s|, i requires 0 <= i < |s| => Wide(s[i]))
  }

  /** The register after more bytes s. */
  function Update(c: bv32, s: seq<Byte>): bv32 {
    BA.Fold(Xor, Shift8, c, Widen(s))
  }

  /** The checksum of s. */
  function Sum(s: seq<Byte>): bv32 {
    Xor(Update(INIT, s), INIT)
  }

  /** The checksum of the one-byte string "a": polynomial, bit order, initial value and final inversion. */
  lemma KnownAnswer()
    ensures Sum([0x61]) == 0xE8B7_BE43
  {
    assert Widen([0x61]) == [0x61];
  }

  /** Feeding chunks one after the other is feeding their concatenation. */
  lemma UpdateConcat(c: bv32, s: seq<Byte>, t: seq<Byte>)
    ensures Update(c, s + t) == Update(Update(c, s), t)
  {
    assert Widen(s + t) == Widen(s) + Widen(t);
    BA.FoldConcat(Xor, Shift8, c, Widen(s), Widen(t));
  }

  lemma UpdateEmpty(c: bv32)
    ensures Update(c, []) == c
  {
    assert Widen([]) == [];
  }

  // ---------------------------------------------------------------- bits

  lemma XorCancels()
    ensures BA.Cancels(Xor, 0)
  {
    forall a: bv32, b: bv32, x: bv32 {:trigger Xor(a, x), Xor(b, x)} | Xor(a, x) == Xor(b, x) ensures a == b {
      CancelRight(a, b, x);
    }
    forall a: bv32, x: bv32, y: bv32 {:trigger Xor(a, x), Xor(a, y)} | Xor(a, x) == Xor(a, y) ensures x == y {
      CancelLeft(a, x, y);
    }
  }

  lemma CancelRight(a: bv32, b: bv32, x: bv32)
    requires Xor(a, x) == Xor(b, x)
    ensures a == b
  {
    assert a == (a ^ x) ^ x;
    assert b == (b ^ x) ^ x;
  }

  lemma CancelLeft(a: bv32, x: bv32, y: bv32)
    requires Xor(a, x) == Xor(a, y)
    ensures x == y
  {
    assert x == (a ^ x) ^ a;
    assert y == (a ^ y) ^ a;
  }

  function UnStep(c: bv32): bv32 {
    ((c ^ (0xEDB8_8320 & (0 - (c >> 31)))) << 1) | (c >> 31)
  }

  lemma BitStepInverse(c: bv32)
    ensures UnStep(BitStep(c)) == c
  {
  }

  lemma BitStepInjective()
    ensures BA.Injective(BitStep)
  {
    forall a, b | BitStep(a) == BitStep(b) ensures a == b {
      BitStepInverse(a);
      BitStepInverse(b);
    }
  }

  lemma BitFall(x: bv32, y: bv32)
    requires y & 0x8000_0000 == 0
    ensures BitStep(x ^ (y << 1)) == BitStep(x) ^ y
  {
  }

  function Shl1(y: bv32): bv32 {
    y << 1
  }

  /** The top k bits of y are clear. */
  predicate BitRoom(y: bv32, k: nat) {
    match k
    case 0 => true
    case 1 => y & 0x8000_0000 == 0
    case 2 => y & 0xC000_0000 == 0
    case 3 => y & 0xE000_0000 == 0
    case 4 => y & 0xF000_0000 == 0
    case 5 => y & 0xF800_0000 == 0
    case 6 => y & 0xFC00_0000 == 0
    case 7 => y & 0xFE00_0000 == 0
    case 8 => y & 0xFF00_0000 == 0
    case _ => y == 0
  }

  lemma BitRoomStep(y: bv32, k: nat)
    requires k > 0 && BitRoom(y, k)
    ensures BitRoom(Shl1(y), k - 1) && y & 0x8000_0000 == 0
  {
  }

  lemma BitFalls(y: bv32)
    requires y & 0x8000_0000 == 0
    ensures BA.Falls(Xor, BitStep, Shl1(y), y)
  {
    forall x: bv32 ensures BitStep(Xor(x, Shl1(y))) == Xor(BitStep(x), y) {
      BitFall(x, y);
    }
  }

  lemma BitsSlide()
    ensures BA.Slides(Xor, BitStep, Shl1, BitRoom)
  {
    forall y: bv32, k: nat {:trigger BitRoom(y, k)} | k > 0 && BitRoom(y, k)
      ensures BitRoom(Shl1(y), k - 1) && BA.Falls(Xor, BitStep, Shl1(y), y)
    {
      BitRoomStep(y, k);
      BitFalls(y);
    }
  }

  lemma ShiftEight(y: bv32)
    ensures Shl1(Shl1(Shl1(Shl1(Shl1(Shl1(Shl1(Shl1(y)))))))) == y << 8
  {
  }

  lemma RaiseIsShift(y: bv32)
    ensures BA.Raise(Shl1, y, 8) == Up8(y)
  {
    BA.RaiseEight(Shl1, y);
    ShiftEight(y);
  }

  /** A word without a top byte, moved up one byte, falls back into place after one byte step. */
  lemma ByteFalls(y: bv32)
    requires y & 0xFF00_0000 == 0
    ensures BA.Falls(Xor, Shift8, Up8(y), y)
  {
    BitsSlide();
    RaiseIsShift(y);
    forall x: bv32 ensures Shift8(Xor(x, Up8(y))) == Xor(Shift8(x), y) {
      BA.EightFalls(Xor, BitStep, Shl1, BitRoom, y, x);
    }
  }

  lemma Shift8Injective()
    ensures BA.Injective(Shift8)
  {
    BitStepInjective();
    forall a, b | Shift8(a) == Shift8(b) ensures a == b {
      BA.EightInjective(BitStep, a, b);
    }
  }

  // ---------------------------------------------------------------- bytes

  predicate IsByte(w: bv32) {
    w & 0xFFFF_FF00 == 0
  }

  /** The top k bytes of r are clear. */
  predicate ByteRoom(r: bv32, k: nat) {
    match k
    case 0 => true
    case 1 => r & 0xFF00_0000 == 0
    case 2 => r & 0xFFFF_0000 == 0
    case 3 => r & 0xFFFF_FF00 == 0
    case 4 => r == 0
    case _ => false
  }

  lemma Masks(r: bv32)
    ensures r & 0xFFFF_0000 == 0 ==> r & 0xFF00_0000 == 0
    ensures r & 0xFFFF_FF00 == 0 ==> r & 0xFF00_0000 == 0
  {
  }

  lemma MasksStep2(b: bv32, r: bv32)
    requires IsByte(b) && r & 0xFFFF_0000 == 0
    ensures ByteRoom(Xor(b, Up8(r)), 1)
  {
  }

  lemma MasksStep3(b: bv32, r: bv32)
    requires IsByte(b) && r & 0xFFFF_FF00 == 0
    ensures ByteRoom(Xor(b, Up8(r)), 2)
  {
  }

  lemma MasksStep4(b: bv32, r: bv32)
    requires IsByte(b) && r == 0
    ensures ByteRoom(Xor(b, Up8(r)), 3)
  {
  }

  lemma ByteRoomStep(b: bv32, r: bv32, k: nat)
    requires IsByte(b) && k > 0 && ByteRoom(r, k)
    ensures ByteRoom(Xor(b, Up8(r)), k - 1)
  {
    if k == 2 {
      MasksStep2(b, r);
    } else if k == 3 {
      MasksStep3(b, r);
    } else if k == 4 {
      MasksStep4(b, r);
    }
  }

  lemma ByteRoomTop(r: bv32, k: nat)
    requires k > 0 && ByteRoom(r, k)
    ensures r & 0xFF00_0000 == 0
  {
    Masks(r);
    assert k == 1 || k == 2 || k == 3 || k == 4;
  }

  lemma ByteSplit(b: bv32, r: bv32, c: bv32, q: bv32)
    requires b & 0xFFFF_FF00 == 0 && c & 0xFFFF_FF00 == 0 && r & 0xFF00_0000 == 0 && q & 0xFF00_0000 == 0
    requires b ^ (r << 8) == c ^ (q << 8)
    ensures b == c && r == q
  {
  }

  lemma BytesStack()
    ensures BA.StackLaws(Xor, Shift8, Up8, 0, IsByte, ByteRoom)
  {
    forall b: bv32, r: bv32, k: nat {:trigger ByteRoom(r, k), Xor(b, Up8(r))} | IsByte(b) && k > 0 && ByteRoom(r, k)
      ensures ByteRoom(Xor(b, Up8(r)), k - 1)
    {
      ByteRoomStep(b, r, k);
    }
    forall r: bv32, k: nat {:trigger ByteRoom(r, k)} | k > 0 && ByteRoom(r, k)
      ensures ByteRoom(r, 1) && BA.Falls(Xor, Shift8, Up8(r), r)
    {
      ByteRoomTop(r, k);
      ByteFalls(r);
    }
    forall b: bv32, r: bv32, c: bv32, q: bv32 {:trigger Xor(b, Up8(r)), Xor(c, Up8(q))}
      | IsByte(b) && IsByte(c) && ByteRoom(r, 1) && ByteRoom(q, 1) && Xor(b, Up8(r)) == Xor(c, Up8(q))
      ensures b == c && r == q
    {
      ByteSplit(b, r, c, q);
    }
  }

  lemma WidenIsBytes(s: seq<Byte>)
    ensures BA.AllBytes(IsByte, Widen(s))
  {
  }

  lemma WideInjective(a: Byte, b: Byte)
    requires Wide(a) == Wide(b)
    ensures a == b
  {
    NarrowBack(a);
    NarrowBack(b);
    ExtendInjective(Narrow(a), Narrow(b));
  }

  lemma ExtendInjective(a: bv8, b: bv8)
    requires a as bv32 == b as bv32
    ensures a == b
  {
  }

  lemma NarrowBack(n: int)
    requires 0 <= n < 256
    ensures (n as bv8) as int == n
  {
    if n < 64 {
      NarrowBack0(n);
    } else if n < 128 {
      NarrowBack64(n);
    } else if n < 192 {
      NarrowBack128(n);
    } else {
      NarrowBack192(n);
    }
  }

  lemma NarrowBack0(n: int)
    requires 0 <= n < 64
    ensures (n as bv8) as int == n
  {
    if {
      case n < 16 => case 16 <= n < 32 => case 32 <= n < 48 => case 48 <= n =>
    }
  }

  lemma NarrowBack64(n: int)
    requires 64 <= n < 128
    ensures (n as bv8) as int == n
  {
    if {
      case n < 80 => case 80 <= n < 96 => case 96 <= n < 112 => case 112 <= n =>
    }
  }

  lemma NarrowBack128(n: int)
    requires 128 <= n < 192
    ensures (n as bv8) as int == n
  {
    if {
      case n < 144 => case 144 <= n < 160 => case 160 <= n < 176 => case 176 <= n =>
    }
  }

  lemma NarrowBack192(n: int)
    requires 192 <= n < 256
    ensures (n as bv8) as int == n
  {
    if {
      case n < 208 => case 208 <= n < 224 => case 224 <= n < 240 => case 240 <= n =>
    }
  }

  lemma WidenInjective(s: seq<Byte>, t: seq<Byte>)
    requires Widen(s) == Widen(t)
    ensures s == t
  {
    assert |s| == |Widen(s)| && |t| == |Widen(t)|;
    forall i | 0 <= i < |s| ensures s[i] == t[i] {
      assert Widen(s)[i] == Widen(t)[i];
      WideInjective(s[i], t[i]);
    }
  }

  /** Any change confined to at most four consecutive bytes changes the checksum, whatever surrounds it. */
  lemma BurstChangesSum(pre: seq<Byte>, s: seq<Byte>, t: seq<Byte>, post: seq<Byte>)
    requires |s| == |t| <= 4 && s != t
    ensures Sum(pre + s + post) != Sum(pre + t + post)
  {
    if Sum(pre + s + post) == Sum(pre + t + post) {
      CancelRight(Update(INIT, pre + s + post), Update(INIT, pre + t + post), INIT);
      assert Widen(pre + s + post) == Widen(pre) + Widen(s) + Widen(post);
      assert Widen(pre + t + post) == Widen(pre) + Widen(t) + Widen(post);
      XorCancels();
      Shift8Injective();
      BytesStack();
      WidenIsBytes(s);
      WidenIsBytes(t);
      BA.BurstDetected(Xor, Shift8, Up8, 0, IsByte, ByteRoom, INIT, Widen(pre), Widen(s), Widen(t), Widen(post));
      WidenInjective(s, t);
    }
  }
}
