/** The hash of jhash.h: a mixer of three 32-bit words that loses nothing, folded over the
    key in blocks of three words.  Words are numbers below 2^32. */
module JHash {
  const TWO32: nat := 0x1_0000_0000

  type Word = x: nat | x < 0x1_0000_0000
  type Byte = x: nat | x < 256

  datatype State = State(a: Word, b: Word, c: Word)

  const INITVAL: Word := 0xdeadbeef

  /** Sums and differences wrap. */
  function Plus(x: Word, y: Word): Word {
    if x + y < TWO32 then x + y else x + y - TWO32
  }

  function Minus(x: Word, y: Word): Word {
    if y <= x then x - y else x - y + TWO32
  }

  // ---------------------------------------------------------------- bits

  /** The numbers of n bits are those below this. */
  function Pow2(n: nat): (p: nat)
    ensures p > 0
  {
    if n == 0 then 1 else 2 * Pow2(n - 1)
  }

  /** Exclusive or, bit by bit from the lowest. */
  function XorBits(x: nat, y: nat): nat {
    if x == 0 && y == 0 then 0 else (x + y) % 2 + 2 * XorBits(x / 2, y / 2)
  }

  function OrBits(x: nat, y: nat): nat {
    if x == 0 && y == 0 then 0
    else (if x % 2 == 1 || y % 2 == 1 then 1 else 0) + 2 * OrBits(x / 2, y / 2)
  }

  lemma {:induction false} BitsFit(x: nat, y: nat, n: nat)
    requires x < Pow2(n) && y < Pow2(n)
    ensures XorBits(x, y) < Pow2(n) && OrBits(x, y) < Pow2(n)
  {
    if n > 0 { BitsFit(x / 2, y / 2, n - 1); }
  }

  lemma Pow2Is32()
    ensures Pow2(32) == TWO32
  {
    assert Pow2(8) == 256;
    assert Pow2(16) == 0x1_0000;
    assert Pow2(24) == 0x100_0000;
  }

  function Xor(x: Word, y: Word): Word {
    Pow2Is32();
    BitsFit(x, y, 32);
    XorBits(x, y)
  }

  function Or(x: Word, y: Word): Word {
    Pow2Is32();
    BitsFit(x, y, 32);
    OrBits(x, y)
  }

  /** word << n and word >> n. */
  function Shl(word: Word, n: nat): Word {
    if n == 0 then word else 2 * Shl(word, n - 1) % TWO32
  }

  function Shr(word: Word, n: nat): Word {
    if n == 0 then word else Shr(word, n - 1) / 2
  }

  type Shift = s: nat | s <= 31

  /** The right shift is by -shift & 31. */
  function Rol32(word: Word, shift: Shift): Word {
    Or(Shl(word, shift), Shr(word, (32 - shift) % 32))
  }

  // ---------------------------------------------------------------- rotation

  lemma Multiples(x: nat, y: nat, d: nat)
    requires x < y
    ensures x * d + d <= y * d
  {
    assert y * d == x * d + d + (y - x - 1) * d;
  }

  lemma Remainder(q: nat, r: nat, d: nat)
    requires r < d
    ensures (q * d + r) % d == r && (q * d + r) / d == q
  {
    var x := q * d + r;
    assert x == x / d * d + x % d;
    if x / d < q { Multiples(x / d, q, d); }
    if q < x / d { Multiples(q, x / d, d); }
  }

  lemma TwiceLeft(x: nat)
    ensures 2 * (x % TWO32) % TWO32 == 2 * x % TWO32
  {
  }

  lemma {:induction false} ShiftsLeft(word: Word, n: nat)
    ensures Shl(word, n) == word * Pow2(n) % TWO32
  {
    if n > 0 {
      var x := word * Pow2(n - 1);
      ShiftsLeft(word, n - 1);
      TwiceLeft(x);
      Doubled(word, Pow2(n - 1));
    }
  }

  lemma Doubled(x: nat, y: nat)
    ensures x * (2 * y) == 2 * (x * y)
  {
  }

  lemma HalfOf(x: nat, d: nat)
    requires d > 0
    ensures x / d / 2 == x / (2 * d)
  {
    var h, o := x / d / 2, x / d % 2;
    assert x == x / d * d + x % d && x / d == 2 * h + o;
    assert (2 * h + o) * d == h * (2 * d) + o * d;
    assert o * d <= d;
    Remainder(h, o * d + x % d, 2 * d);
  }

  lemma {:induction false} ShiftsRight(word: Word, n: nat)
    ensures Shr(word, n) == word / Pow2(n)
  {
    if n > 0 {
      ShiftsRight(word, n - 1);
      HalfOf(word, Pow2(n - 1));
    }
  }

  lemma {:induction false} OrZero(y: nat)
    ensures OrBits(0, y) == y
  {
    if y > 0 { OrZero(y / 2); }
  }

  /** Where the bits of two numbers lie apart, `or` is their sum. */
  lemma {:induction false} OrApart(x: nat, y: nat, n: nat)
    requires y < Pow2(n)
    ensures OrBits(x * Pow2(n), y) == x * Pow2(n) + y
    decreases n
  {
    if n == 0 {
      OrWithZero(x);
    } else {
      var u := x * Pow2(n - 1);
      assert x * Pow2(n) == 2 * u;
      OrApart(x, y / 2, n - 1);
      assert OrBits(2 * u, y) == y % 2 + 2 * OrBits(u, y / 2);
    }
  }

  lemma {:induction false} OrWithZero(x: nat)
    ensures OrBits(x, 0) == x
  {
    if x > 0 { OrWithZero(x / 2); }
  }

  lemma {:induction false} Pow2Splits(n: nat, k: nat)
    ensures Pow2(n) * Pow2(k) == Pow2(n + k)
  {
    if n > 0 {
      Pow2Splits(n - 1, k);
      Doubled(Pow2(k), Pow2(n - 1));
    }
  }

  lemma Products(hi: nat, lo: nat, q: nat, p: nat)
    requires hi < p && lo < q
    ensures hi * q + lo < q * p && lo * p < q * p
    ensures (hi * q + lo) * p == hi * (q * p) + lo * p
  {
    Multiples(hi, p, q);
    Multiples(lo, q, p);
    assert p * q == q * p;
  }

  lemma PartsMake32(s: Shift)
    ensures Pow2(32 - s) * Pow2(s) == TWO32
  {
    Pow2Is32();
    Pow2Splits(32 - s, s);
  }

  lemma LeftPart(word: Word, hi: nat, lo: nat, s: Shift, p: nat, q: nat)
    requires p == Pow2(s) && q * p == TWO32 && word == hi * q + lo && hi < p && lo < q
    ensures Shl(word, s) == lo * p
  {
    ShiftsLeft(word, s);
    Products(hi, lo, q, p);
    Remainder(hi, lo * p, TWO32);
  }

  lemma RightPart(word: Word, hi: nat, lo: nat, n: nat, q: nat)
    requires q == Pow2(n) && word == hi * q + lo && lo < q
    ensures Shr(word, n) == hi
  {
    ShiftsRight(word, n);
    Remainder(hi, lo, q);
  }

  lemma OrOf(x: Word, y: Word, z: nat)
    requires OrBits(x, y) == z
    ensures Or(x, y) == z
  {
  }

  lemma RotatesParts(word: Word, hi: nat, lo: nat, s: Shift, p: nat, q: nat)
    requires 0 < s && p == Pow2(s) && q == Pow2(32 - s) && q * p == TWO32
    requires word == hi * q + lo && hi < p && lo < q
    ensures Rol32(word, s) == lo * p + hi
  {
    var n: nat := 32 - s;
    LeftPart(word, hi, lo, s, p, q);
    RightPart(word, hi, lo, n, q);
    OrApart(lo, hi, s);
    OrOf(Shl(word, s), Shr(word, n), lo * p + hi);
  }

  /** Rotating by `s` bits moves the word's top `s` bits to its bottom and the rest up. */
  lemma RotatesWord(hi: nat, lo: nat, s: Shift)
    requires 0 < s && hi < Pow2(s) && lo < Pow2(32 - s)
    ensures hi * Pow2(32 - s) + lo < TWO32 && Rol32(hi * Pow2(32 - s) + lo, s) == lo * Pow2(s) + hi
  {
    var p, q := Pow2(s), Pow2(32 - s);
    PartsMake32(s);
    Products(hi, lo, q, p);
    RotatesParts(hi * q + lo, hi, lo, s, p, q);
  }

  lemma MovesUp(k: nat, s: Shift)
    requires 0 < s && k + s < 32
    ensures Pow2(k) < TWO32 && Rol32(Pow2(k), s) == Pow2(k + s)
  {
    Pow2Below(k, 32 - s);
    RotatesWord(0, Pow2(k), s);
    Pow2Splits(k, s);
  }

  lemma MovesAround(j: nat, s: Shift)
    requires j < s
    ensures Pow2(j + 32 - s) < TWO32 && Rol32(Pow2(j + 32 - s), s) == Pow2(j)
  {
    Pow2Below(j, s);
    RotatesWord(Pow2(j), 0, s);
    Pow2Splits(j, 32 - s);
  }

  /** Bit `k` goes to bit `k + s`, around the end of the word. */
  lemma MovesBit(k: nat, s: Shift)
    requires k < 32 && 0 < s
    ensures Pow2(k) < TWO32 && Rol32(Pow2(k), s) == Pow2((k + s) % 32)
  {
    if k + s < 32 { MovesUp(k, s); } else { MovesAround(k + s - 32, s); }
  }

  lemma {:induction false} Pow2Below(n: nat, k: nat)
    requires n < k
    ensures Pow2(n) < Pow2(k)
  {
    if n > 0 { Pow2Below(n - 1, k - 1); }
  }

  lemma {:induction false} XorTwice(x: nat, y: nat)
    ensures XorBits(XorBits(x, y), y) == x
    decreases x + y
  {
    if x > 0 || y > 0 {
      var r := XorBits(x, y);
      XorTwice(x / 2, y / 2);
      XorHalves(x, y);
      XorHalves(r, y);
      assert XorBits(r, y) / 2 == x / 2;
      Parity(x, y, r);
    }
  }

  lemma Parity(x: nat, y: nat, r: nat)
    requires r % 2 == (x + y) % 2
    ensures (r + y) % 2 == x % 2
  {
  }

  lemma XorHalves(x: nat, y: nat)
    ensures XorBits(x, y) / 2 == XorBits(x / 2, y / 2) && XorBits(x, y) % 2 == (x + y) % 2
  {
  }

  /** Exclusive or, from the lowest bit up: bits that are the same give none. */
  lemma XorBitByBit(x: nat, a: nat, y: nat, b: nat)
    requires a < 2 && b < 2
    ensures XorBits(2 * x + a, 2 * y + b) == 2 * XorBits(x, y) + if a == b then 0 else 1
  {
    var u, v := 2 * x + a, 2 * y + b;
    assert u / 2 == x && v / 2 == y;
    XorHalves(u, v);
    if a == b { assert u + v == 2 * (x + y + a); } else { assert u + v == 2 * (x + y) + 1; }
  }

  lemma XorBack(x: Word, w: Word)
    ensures Xor(Xor(x, w), w) == x
  {
    XorTwice(x, w);
  }

  // ---------------------------------------------------------------- the mixers

  type Rot = Word -> Word

  /** Rotation by `r` bits. */
  function By(r: Shift): Rot {
    w => Rol32(w, r)
  }

  /** The rotations of the two mixers, in order of use.  What the hash needs of them is only
      that each is a function of its word. */
  datatype Rots = Rots(m0: Rot, m1: Rot, m2: Rot, m3: Rot, m4: Rot, m5: Rot,
                       f0: Rot, f1: Rot, f2: Rot, f3: Rot, f4: Rot, f5: Rot, f6: Rot)

  /** Those of jhash.h. */
  function Standard(): Rots {
    Rots(By(4), By(6), By(8), By(16), By(19), By(4), By(14), By(11), By(25), By(16), By(4), By(14), By(24))
  }

  /** Three lines of __jhash_mix, assignment by assignment. */
  function MixHalf(s: State, r0: Rot, r1: Rot, r2: Rot): State {
    var a, b, c := s.a, s.b, s.c;
    var a := Xor(Minus(a, c), r0(c));
    var c := Plus(c, b);
    var b := Xor(Minus(b, a), r1(a));
    var a := Plus(a, c);
    var c := Xor(Minus(c, b), r2(b));
    var b := Plus(b, a);
    State(a, b, c)
  }

  function Mix(r: Rots, s: State): State {
    MixHalf(MixHalf(s, r.m0, r.m1, r.m2), r.m3, r.m4, r.m5)
  }

  /** Three lines of __jhash_final, assignment by assignment. */
  function FinalPart(s: State, r0: Rot, r1: Rot, r2: Rot): State {
    var a, b, c := s.a, s.b, s.c;
    var c := Minus(Xor(c, b), r0(b));
    var a := Minus(Xor(a, c), r1(c));
    var b := Minus(Xor(b, a), r2(a));
    State(a, b, c)
  }

  function Final(r: Rots, s: State): State {
    Last(FinalPart(FinalPart(s, r.f0, r.f1, r.f2), r.f3, r.f4, r.f5), r.f6)
  }

  /** What the standard rotations do to bit `k`. */
  lemma StandardAmounts(k: nat)
    requires k < 32
    ensures var r, bit := Standard(), Pow2(k);
      && bit < TWO32 && r.m0(bit) == Pow2((k + 4) % 32) && r.m1(bit) == Pow2((k + 6) % 32)
      && r.m2(bit) == Pow2((k + 8) % 32) && r.m3(bit) == Pow2((k + 16) % 32)
      && r.m4(bit) == Pow2((k + 19) % 32) && r.m5(bit) == Pow2((k + 4) % 32)
      && r.f0(bit) == Pow2((k + 14) % 32) && r.f1(bit) == Pow2((k + 11) % 32)
      && r.f2(bit) == Pow2((k + 25) % 32) && r.f3(bit) == Pow2((k + 16) % 32)
      && r.f4(bit) == Pow2((k + 4) % 32) && r.f5(bit) == Pow2((k + 14) % 32) && r.f6(bit) == Pow2((k + 24) % 32)
  {
    MovesBit(k, 4); MovesBit(k, 6); MovesBit(k, 8); MovesBit(k, 16); MovesBit(k, 19);
    MovesBit(k, 14); MovesBit(k, 11); MovesBit(k, 25); MovesBit(k, 24);
  }

  /** The sums and differences are those modulo 2^32. */
  lemma Wrapped(x: Word, y: Word)
    ensures Plus(x, y) == (x + y) % 0x1_0000_0000 && Minus(x, y) == (x - y) % 0x1_0000_0000
  {
  }

  /** The twelve assignments of the mixer with every intermediate value named. */
  lemma MixSpelledOut(r: Rots, s: State)
    ensures
      var a1 := Xor(Minus(s.a, s.c), r.m0(s.c)); var c1 := Plus(s.c, s.b);
      var b1 := Xor(Minus(s.b, a1), r.m1(a1)); var a2 := Plus(a1, c1);
      var c2 := Xor(Minus(c1, b1), r.m2(b1)); var b2 := Plus(b1, a2);
      var a3 := Xor(Minus(a2, c2), r.m3(c2)); var c3 := Plus(c2, b2);
      var b3 := Xor(Minus(b2, a3), r.m4(a3)); var a4 := Plus(a3, c3);
      var c4 := Xor(Minus(c3, b3), r.m5(b3)); var b4 := Plus(b3, a4);
      Mix(r, s) == State(a4, b4, c4)
  {
  }

  lemma FinalSpelledOut(r: Rots, s: State)
    ensures
      var c1 := Minus(Xor(s.c, s.b), r.f0(s.b)); var a1 := Minus(Xor(s.a, c1), r.f1(c1));
      var b1 := Minus(Xor(s.b, a1), r.f2(a1)); var c2 := Minus(Xor(c1, b1), r.f3(b1));
      var a2 := Minus(Xor(a1, c2), r.f4(c2)); var b2 := Minus(Xor(b1, a2), r.f5(a2));
      Final(r, s) == State(a2, b2, Minus(Xor(c2, b2), r.f6(b2)))
  {
  }

  /** One line of the mixer, `rot` being its rotation: the first word is changed by the
      third, the third by the second; then the words are renamed for the next line. */
  function Line(s: State, rot: Rot): State {
    State(s.b, Plus(s.c, s.b), Xor(Minus(s.a, s.c), rot(s.c)))
  }

  function Unline(s: State, rot: Rot): State {
    var c := Minus(s.b, s.a);
    State(Plus(Xor(s.c, rot(c)), c), s.a, c)
  }

  lemma PlusBack(x: Word, y: Word)
    ensures Minus(Plus(x, y), y) == x && Plus(Minus(x, y), y) == x
  {
  }

  lemma LineBack(s: State, rot: Rot)
    ensures Unline(Line(s, rot), rot) == s
  {
    PlusBack(s.c, s.b);
    XorBack(Minus(s.a, s.c), rot(s.c));
    PlusBack(s.a, s.c);
  }

  lemma LineForth(s: State, rot: Rot)
    ensures Line(Unline(s, rot), rot) == s
  {
    var c := Minus(s.b, s.a);
    PlusBack(s.b, s.a);
    PlusBack(Xor(s.c, rot(c)), c);
    XorBack(s.c, rot(c));
  }

  /** One line of the final mixer, renamed likewise. */
  function Step(s: State, rot: Rot): State {
    State(s.b, s.c, Minus(Xor(s.a, s.c), rot(s.c)))
  }

  function Unstep(s: State, rot: Rot): State {
    State(Xor(Plus(s.c, rot(s.b)), s.b), s.a, s.b)
  }

  lemma StepBack(s: State, rot: Rot)
    ensures Unstep(Step(s, rot), rot) == s && Step(Unstep(s, rot), rot) == s
  {
    PlusBack(Xor(s.a, s.c), rot(s.c));
    XorBack(s.a, s.c);
    XorBack(Plus(s.c, rot(s.b)), s.b);
    PlusBack(s.c, rot(s.b));
  }

  /** Three lines bring the words back to their places. */
  lemma HalfIsLines(s: State, r0: Rot, r1: Rot, r2: Rot)
    ensures MixHalf(s, r0, r1, r2) == Line(Line(Line(s, r0), r1), r2)
  {
  }

  function Unhalf(s: State, r0: Rot, r1: Rot, r2: Rot): State {
    Unline(Unline(Unline(s, r2), r1), r0)
  }

  lemma HalfBack(s: State, r0: Rot, r1: Rot, r2: Rot)
    ensures Unhalf(MixHalf(s, r0, r1, r2), r0, r1, r2) == s
    ensures MixHalf(Unhalf(s, r0, r1, r2), r0, r1, r2) == s
  {
    HalfIsLines(s, r0, r1, r2);
    LineBack(s, r0);
    LineBack(Line(s, r0), r1);
    LineBack(Line(Line(s, r0), r1), r2);
    HalfIsLines(Unhalf(s, r0, r1, r2), r0, r1, r2);
    LineForth(s, r2);
    LineForth(Unline(s, r2), r1);
    LineForth(Unline(Unline(s, r2), r1), r0);
  }

  /** The mixer backwards. */
  function Unmix(r: Rots, s: State): State {
    Unhalf(Unhalf(s, r.m3, r.m4, r.m5), r.m0, r.m1, r.m2)
  }

  /** The mixer is reversible, as its comment claims: no state is lost, none is left out. */
  lemma MixReversible(r: Rots, s: State)
    ensures Unmix(r, Mix(r, s)) == s && Mix(r, Unmix(r, s)) == s
  {
    HalfBack(s, r.m0, r.m1, r.m2);
    HalfBack(MixHalf(s, r.m0, r.m1, r.m2), r.m3, r.m4, r.m5);
    HalfBack(s, r.m3, r.m4, r.m5);
    HalfBack(Unhalf(s, r.m3, r.m4, r.m5), r.m0, r.m1, r.m2);
  }

  /** The final mixer's first line changes c by b, so its words start renamed. */
  function Renamed(s: State): State {
    State(s.c, s.a, s.b)
  }

  function Unrenamed(s: State): State {
    State(s.b, s.c, s.a)
  }

  lemma PartIsSteps(s: State, r0: Rot, r1: Rot, r2: Rot)
    ensures Renamed(FinalPart(s, r0, r1, r2)) == Step(Step(Step(Renamed(s), r0), r1), r2)
  {
  }

  function Unpart(s: State, r0: Rot, r1: Rot, r2: Rot): State {
    Unrenamed(Unstep(Unstep(Unstep(Renamed(s), r2), r1), r0))
  }

  lemma PartBack(s: State, r0: Rot, r1: Rot, r2: Rot)
    ensures Unpart(FinalPart(s, r0, r1, r2), r0, r1, r2) == s
    ensures FinalPart(Unpart(s, r0, r1, r2), r0, r1, r2) == s
  {
    var t := Renamed(s);
    PartIsSteps(s, r0, r1, r2);
    StepBack(t, r0);
    StepBack(Step(t, r0), r1);
    StepBack(Step(Step(t, r0), r1), r2);
    PartIsSteps(Unpart(s, r0, r1, r2), r0, r1, r2);
    StepBack(t, r2);
    StepBack(Unstep(t, r2), r1);
    StepBack(Unstep(Unstep(t, r2), r1), r0);
  }

  function Unfinal(r: Rots, s: State): State {
    Unpart(Unpart(Unlast(s, r.f6), r.f3, r.f4, r.f5), r.f0, r.f1, r.f2)
  }

  lemma FinalReversible(r: Rots, s: State)
    ensures Unfinal(r, Final(r, s)) == s && Final(r, Unfinal(r, s)) == s
  {
    var t := FinalPart(s, r.f0, r.f1, r.f2);
    LastBack(FinalPart(t, r.f3, r.f4, r.f5), r.f6);
    PartBack(s, r.f0, r.f1, r.f2);
    PartBack(t, r.f3, r.f4, r.f5);
    var u := Unlast(s, r.f6);
    LastBack(s, r.f6);
    PartBack(u, r.f3, r.f4, r.f5);
    PartBack(Unpart(u, r.f3, r.f4, r.f5), r.f0, r.f1, r.f2);
  }

  /** The last line of __jhash_final. */
  function Last(t: State, rot: Rot): State {
    State(t.a, t.b, Minus(Xor(t.c, t.b), rot(t.b)))
  }

  function Unlast(t: State, rot: Rot): State {
    State(t.a, t.b, Xor(Plus(t.c, rot(t.b)), t.b))
  }

  lemma LastBack(t: State, rot: Rot)
    ensures Unlast(Last(t, rot), rot) == t && Last(Unlast(t, rot), rot) == t
  {
    PlusBack(Xor(t.c, t.b), rot(t.b));
    XorBack(t.c, t.b);
    XorBack(Plus(t.c, rot(t.b)), t.b);
    PlusBack(t.c, rot(t.b));
  }

  // ---------------------------------------------------------------- keys

  /** Byte `i` of a key, zero past its end. */
  function ByteAt(key: seq<Byte>, i: nat): Byte {
    if i < |key| then key[i] else 0
  }

  /** A word as it lies in memory, lowest byte first. */
  function Load(b0: Byte, b1: Byte, b2: Byte, b3: Byte): Word {
    b0 + 0x100 * b1 + 0x1_0000 * b2 + 0x100_0000 * b3
  }

  /** The word at byte `k` of a key, zero past its end. */
  function WordFrom(key: seq<Byte>, k: nat): Word {
    Load(ByteAt(key, k), ByteAt(key, k + 1), ByteAt(key, k + 2), ByteAt(key, k + 3))
  }

  /** A key as words, the last one padded with zero bytes. */
  function ToWords(key: seq<Byte>): (ws: seq<Word>)
    ensures |ws| == (|key| + 3) / 4
    ensures forall i :: 0 <= i < |ws| ==> ws[i] == WordFrom(key, 4 * i)
  {
    seq((|key| + 3) / 4, i requires 0 <= i < (|key| + 3) / 4 => WordFrom(key, 4 * i))
  }

  function WordAt(ws: seq<Word>, i: nat): Word {
    if i < |ws| then ws[i] else 0
  }

  /** A block of three words, zero past the end, is added into the state. */
  function AddBlock(s: State, ws: seq<Word>): State {
    State(Plus(s.a, WordAt(ws, 0)), Plus(s.b, WordAt(ws, 1)), Plus(s.c, WordAt(ws, 2)))
  }

  /** The two mixers, as the fold uses them. */
  datatype Mixers = Mixers(mix: State -> State, fin: State -> State)

  function MixersOf(r: Rots): Mixers {
    Mixers(Mixing(r), Finishing(r))
  }

  function Mixing(r: Rots): State -> State {
    s => Mix(r, s)
  }

  function Finishing(r: Rots): State -> State {
    s => Final(r, s)
  }

  /** __jhash_mix and __jhash_final. */
  function JMixers(): Mixers {
    MixersOf(Standard())
  }

  /** The hash as a fold: every block of three words is added and mixed in, the last one,
      padded with zeros, finally; the empty key leaves the state alone. */
  function Absorb(m: Mixers, s: State, ws: seq<Word>): State
    decreases |ws|
  {
    if ws == [] then s
    else if |ws| <= 3 then m.fin(AddBlock(s, ws))
    else Absorb(m, m.mix(AddBlock(s, ws)), ws[3..])
  }

  /** All three words start as this. */
  function Start(length: nat, initval: Word): State {
    var x := Plus(Plus(INITVAL, length % TWO32), initval);
    State(x, x, x)
  }

  /** The state a key leaves, before c alone is returned. */
  function Digest(m: Mixers, key: seq<Byte>, initval: Word): State {
    Absorb(m, Start(|key|, initval), ToWords(key))
  }

  function DigestWords(m: Mixers, ws: seq<Word>, initval: Word): State {
    Absorb(m, Start(4 * |ws|, initval), ws)
  }

  /** What an empty key leaves, how the state starts, and how a word lies in memory. */
  lemma DigestStarts(m: Mixers, key: seq<Byte>, initval: Word, b0: Byte, b1: Byte, b2: Byte, b3: Byte)
    ensures Digest(m, [], initval).c == (0xdead_beef + initval) % 0x1_0000_0000
    ensures var x := (0xdead_beef + |key| + initval) % 0x1_0000_0000; Start(|key|, initval) == State(x, x, x)
    ensures ToWords([b0, b1, b2, b3, b0]) == [b0 + 256 * (b1 + 256 * (b2 + 256 * b3)), b0]
  {
    assert ToWords([b0, b1, b2, b3, b0])[0] == Load(b0, b1, b2, b3);
    assert ToWords([b0, b1, b2, b3, b0])[1] == Load(b0, 0, 0, 0);
  }

  // ---------------------------------------------------------------- jhash and jhash2

  /** jhash2: three words at a time, then what is left of them, the cases falling
      through. */
  method JHash2(m: Mixers, key: seq<Word>, initval: Word) returns (h: Word)
    requires |key| < TWO32
    ensures h == DigestWords(m, key, initval).c
  {
    var length := |key|;
    var a: Word := Plus(Plus(INITVAL, 4 * length % TWO32), initval);
    var b: Word, c: Word := a, a;
    var k := 0;
    while length > 3
      invariant 0 <= k && 0 <= length && k + length == |key|
      invariant Absorb(m, State(a, b, c), key[k..]) == DigestWords(m, key, initval)
    {
      ghost var s, rest := State(a, b, c), key[k..];
      a := Plus(a, key[k]);
      b := Plus(b, key[k + 1]);
      c := Plus(c, key[k + 2]);
      assert State(a, b, c) == AddBlock(s, rest);
      var t := m.mix(State(a, b, c));
      a, b, c := t.a, t.b, t.c;
      assert rest[3..] == key[k + 3..];
      length := length - 3;
      k := k + 3;
    }
    if length > 0 {
      ghost var s, rest := State(a, b, c), key[k..];
      if length >= 3 { c := Plus(c, key[k + 2]); }
      if length >= 2 { b := Plus(b, key[k + 1]); }
      a := Plus(a, key[k]);
      assert State(a, b, c) == AddBlock(s, rest);
      var t := m.fin(State(a, b, c));
      a, b, c := t.a, t.b, t.c;
    }
    return c;
  }

  /** __get_unaligned_cpu32, four bytes that are there. */
  function GetWord(key: seq<Byte>, k: nat): (w: Word)
    requires k + 4 <= |key|
    ensures w == WordFrom(key, k)
  {
    Load(key[k], key[k + 1], key[k + 2], key[k + 3])
  }

  /** jhash: twelve bytes at a time, then what is left of them, byte by byte from the
      highest, the cases falling through. */
  method JHash(m: Mixers, key: seq<Byte>, initval: Word) returns (h: Word)
    requires |key| < TWO32
    ensures h == Digest(m, key, initval).c
  {
    var length := |key|;
    var a: Word := Plus(Plus(INITVAL, length), initval);
    var b: Word, c: Word := a, a;
    var k := 0;
    assert key[k..] == key && length % TWO32 == length;
    assert State(a, b, c) == Start(|key|, initval);
    while length > 12
      invariant 0 <= k && 0 <= length && k + length == |key|
      invariant Absorb(m, State(a, b, c), ToWords(key[k..])) == Digest(m, key, initval)
    {
      ghost var rest := key[k..];
      HeadBlock(key, k, State(a, b, c));
      DropBlock(rest);
      a := Plus(a, GetWord(key, k));
      b := Plus(b, GetWord(key, k + 4));
      c := Plus(c, GetWord(key, k + 8));
      var t := m.mix(State(a, b, c));
      a, b, c := t.a, t.b, t.c;
      assert rest[12..] == key[k + 12..];
      length := length - 12;
      k := k + 12;
    }
    if length > 0 {
      HeadBlock(key, k, State(a, b, c));
      c := AddTail(key, k + 8, c);
      b := AddTail(key, k + 4, b);
      a := AddTail(key, k, a);
      var t := m.fin(State(a, b, c));
      a, b, c := t.a, t.b, t.c;
    }
    return c;
  }

  /** Four cases of jhash's switch: the bytes of one word that are there, from the highest
      down. */
  method AddTail(key: seq<Byte>, k: nat, x: Word) returns (y: Word)
    ensures y == Plus(x, WordFrom(key, k))
  {
    y := x;
    ghost var b0: nat, b1: nat, b2: nat, b3: nat := ByteAt(key, k), ByteAt(key, k + 1), ByteAt(key, k + 2), ByteAt(key, k + 3);
    if k + 4 <= |key| { y := Plus(y, 0x100_0000 * (key[k + 3] as nat)); }
    assert y == Plus(x, 0x100_0000 * b3);
    if k + 3 <= |key| { y := Plus(y, 0x1_0000 * (key[k + 2] as nat)); }
    PlusPlus(x, 0x100_0000 * b3, 0x1_0000 * b2);
    if k + 2 <= |key| { y := Plus(y, 0x100 * (key[k + 1] as nat)); }
    PlusPlus(x, 0x100_0000 * b3 + 0x1_0000 * b2, 0x100 * b1);
    if k + 1 <= |key| { y := Plus(y, key[k]); }
    PlusPlus(x, 0x100_0000 * b3 + 0x1_0000 * b2 + 0x100 * b1, b0);
  }

  lemma PlusPlus(x: Word, y: nat, z: nat)
    requires y + z < TWO32
    ensures Plus(Plus(x, y), z) == Plus(x, y + z)
  {
  }

  /** The block at byte `k` is the first of the words of what is left of the key there. */
  lemma HeadBlock(key: seq<Byte>, k: nat, s: State)
    requires k <= |key|
    ensures AddBlock(s, ToWords(key[k..]))
         == State(Plus(s.a, WordFrom(key, k)), Plus(s.b, WordFrom(key, k + 4)), Plus(s.c, WordFrom(key, k + 8)))
  {
    HeadWord(key, k, 0);
    HeadWord(key, k, 1);
    HeadWord(key, k, 2);
  }

  lemma HeadWord(key: seq<Byte>, k: nat, i: nat)
    requires k <= |key|
    ensures WordAt(ToWords(key[k..]), i) == WordFrom(key, k + 4 * i)
  {
    var rest := key[k..];
    assert ByteAt(rest, 4 * i) == ByteAt(key, k + 4 * i) && ByteAt(rest, 4 * i + 1) == ByteAt(key, k + 4 * i + 1);
    assert ByteAt(rest, 4 * i + 2) == ByteAt(key, k + 4 * i + 2) && ByteAt(rest, 4 * i + 3) == ByteAt(key, k + 4 * i + 3);
    if i < |ToWords(rest)| { assert ToWords(rest)[i] == WordFrom(rest, 4 * i); }
  }

  lemma DropBlock(key: seq<Byte>)
    requires |key| > 12
    ensures ToWords(key[12..]) == ToWords(key)[3..]
  {
    var rest := key[12..];
    forall i | 0 <= i < |ToWords(rest)| ensures ToWords(rest)[i] == ToWords(key)[i + 3] {
      SameBytes(key, 4 * i);
    }
  }

  lemma SameBytes(key: seq<Byte>, k: nat)
    requires |key| > 12
    ensures WordFrom(key[12..], k) == WordFrom(key, k + 12)
  {
    var rest := key[12..];
    assert ByteAt(rest, k) == ByteAt(key, k + 12) && ByteAt(rest, k + 1) == ByteAt(key, k + 13);
    assert ByteAt(rest, k + 2) == ByteAt(key, k + 14) && ByteAt(rest, k + 3) == ByteAt(key, k + 15);
  }

  // ---------------------------------------------------------------- the forms agree

  /** Byte `i` of a word in memory. */
  function ByteOf(w: Word, i: nat): Byte
    requires i < 4
  {
    if i == 0 then w % 0x100 else ByteOf(w / 0x100, i - 1)
  }

  function BytesOf(ws: seq<Word>): (key: seq<Byte>)
    ensures |key| == 4 * |ws|
    ensures forall i :: 0 <= i < |key| ==> key[i] == ByteOf(ws[i / 4], i % 4)
  {
    seq(4 * |ws|, i requires 0 <= i < 4 * |ws| => ByteOf(ws[i / 4], i % 4))
  }

  lemma LoadBack(w: Word)
    ensures Load(ByteOf(w, 0), ByteOf(w, 1), ByteOf(w, 2), ByteOf(w, 3)) == w
  {
    var w1 := w / 0x100;
    var w2 := w1 / 0x100;
    var w3 := w2 / 0x100;
    assert ByteOf(w, 1) == ByteOf(w1, 0) && ByteOf(w, 2) == ByteOf(w1, 1) == ByteOf(w2, 0);
    assert ByteOf(w, 3) == ByteOf(w1, 2) == ByteOf(w2, 1) == ByteOf(w3, 0) == w3;
  }

  lemma WordsBack(ws: seq<Word>)
    ensures ToWords(BytesOf(ws)) == ws
  {
    var key := BytesOf(ws);
    forall i | 0 <= i < |ws| ensures ToWords(key)[i] == ws[i] {
      LoadBack(ws[i]);
      assert ByteAt(key, 4 * i) == ByteOf(ws[i], 0) && ByteAt(key, 4 * i + 1) == ByteOf(ws[i], 1);
      assert ByteAt(key, 4 * i + 2) == ByteOf(ws[i], 2) && ByteAt(key, 4 * i + 3) == ByteOf(ws[i], 3);
    }
  }

  /** On a word array, jhash of its bytes and jhash2 of its words are the same. */
  lemma BytesAndWordsAgree(m: Mixers, ws: seq<Word>, initval: Word)
    ensures Digest(m, BytesOf(ws), initval) == DigestWords(m, ws, initval)
  {
    WordsBack(ws);
  }

  /** __jhash_nwords. */
  function JHashNWords(m: Mixers, a: Word, b: Word, c: Word, initval: Word): Word {
    m.fin(State(Plus(a, initval), Plus(b, initval), Plus(c, initval))).c
  }

  function JHash3Words(m: Mixers, a: Word, b: Word, c: Word, initval: Word): Word {
    JHashNWords(m, a, b, c, Plus(Plus(initval, INITVAL), 12))
  }

  function JHash2Words(m: Mixers, a: Word, b: Word, initval: Word): Word {
    JHashNWords(m, a, b, 0, Plus(Plus(initval, INITVAL), 8))
  }

  function JHash1Word(m: Mixers, a: Word, initval: Word): Word {
    JHashNWords(m, a, 0, 0, Plus(Plus(initval, INITVAL), 4))
  }

  lemma SameStart(n: Word, x: Word, initval: Word)
    ensures Plus(Plus(Plus(INITVAL, n), initval), x) == Plus(x, Plus(Plus(initval, INITVAL), n))
  {
  }

  /** The fixed forms are jhash2 of one, two and three words. */
  lemma FixedFormsAgree(m: Mixers, a: Word, b: Word, c: Word, initval: Word)
    ensures JHash3Words(m, a, b, c, initval) == DigestWords(m, [a, b, c], initval).c
    ensures JHash2Words(m, a, b, initval) == DigestWords(m, [a, b], initval).c
    ensures JHash1Word(m, a, initval) == DigestWords(m, [a], initval).c
  {
    SameStart(12, a, initval); SameStart(12, b, initval); SameStart(12, c, initval);
    SameStart(8, a, initval); SameStart(8, b, initval); SameStart(8, 0, initval);
    SameStart(4, a, initval); SameStart(4, 0, initval);
    OneBlock(m, 12, [a, b, c], initval);
    OneBlock(m, 8, [a, b], initval);
    OneBlock(m, 4, [a], initval);
  }

  lemma OneBlock(m: Mixers, n: nat, ws: seq<Word>, initval: Word)
    requires 0 < |ws| <= 3 && n == 4 * |ws|
    ensures DigestWords(m, ws, initval) == m.fin(AddBlock(Start(n, initval), ws))
  {
  }

  // ---------------------------------------------------------------- keys that differ

  /** Different states stay different. */
  ghost predicate Injective(f: State -> State) {
    forall s: State, t: State :: s != t ==> f(s) != f(t)
  }

  ghost predicate Lossless(m: Mixers) {
    Injective(m.mix) && Injective(m.fin)
  }

  lemma MixApart(r: Rots, s: State, t: State)
    requires s != t
    ensures Mix(r, s) != Mix(r, t) && Final(r, s) != Final(r, t)
  {
    MixReversible(r, s);
    MixReversible(r, t);
    FinalReversible(r, s);
    FinalReversible(r, t);
  }

  lemma MixingInjective(r: Rots)
    ensures Injective(Mixing(r))
  {
    forall s: State, t: State | s != t ensures Mixing(r)(s) != Mixing(r)(t) { MixingApart(r, s, t); }
  }

  lemma MixingApart(r: Rots, s: State, t: State)
    requires s != t
    ensures Mixing(r)(s) != Mixing(r)(t) && Finishing(r)(s) != Finishing(r)(t)
  {
    MixApart(r, s, t);
  }

  lemma FinishingInjective(r: Rots)
    ensures Injective(Finishing(r))
  {
    forall s: State, t: State | s != t ensures Finishing(r)(s) != Finishing(r)(t) { MixingApart(r, s, t); }
  }

  /** Being reversible, the mixers lose nothing. */
  lemma MixersLossless(r: Rots)
    ensures Lossless(MixersOf(r))
  {
    MixingInjective(r);
    FinishingInjective(r);
  }

  lemma AddBlockApart(s: State, t: State, ws: seq<Word>)
    ensures s != t ==> AddBlock(s, ws) != AddBlock(t, ws)
  {
    PlusBack(s.a, WordAt(ws, 0)); PlusBack(t.a, WordAt(ws, 0));
    PlusBack(s.b, WordAt(ws, 1)); PlusBack(t.b, WordAt(ws, 1));
    PlusBack(s.c, WordAt(ws, 2)); PlusBack(t.c, WordAt(ws, 2));
  }

  /** The same words keep different states different. */
  lemma {:induction false} AbsorbApart(m: Mixers, s: State, t: State, ws: seq<Word>)
    requires Lossless(m) && s != t
    ensures Absorb(m, s, ws) != Absorb(m, t, ws)
    decreases |ws|
  {
    AddBlockApart(s, t, ws);
    if |ws| > 3 { AbsorbApart(m, m.mix(AddBlock(s, ws)), m.mix(AddBlock(t, ws)), ws[3..]); }
  }

  /** Different first words make the state different. */
  lemma BlocksApart(s: State, ws: seq<Word>, vs: seq<Word>)
    requires |ws| == |vs| && exists i :: 0 <= i < |ws| && i < 3 && ws[i] != vs[i]
    ensures AddBlock(s, ws) != AddBlock(s, vs)
  {
    PlusApart(s.a, WordAt(ws, 0), WordAt(vs, 0));
    PlusApart(s.b, WordAt(ws, 1), WordAt(vs, 1));
    PlusApart(s.c, WordAt(ws, 2), WordAt(vs, 2));
  }

  lemma PlusApart(x: Word, y: Word, z: Word)
    ensures y != z ==> Plus(x, y) != Plus(x, z)
  {
  }

  /** Words that differ in block `j` alone leave different states. */
  lemma {:induction false} AbsorbOneBlock(m: Mixers, s: State, ws: seq<Word>, vs: seq<Word>, j: nat)
    requires Lossless(m) && |ws| == |vs| && ws != vs
    requires forall i :: 0 <= i < |ws| && !(3 * j <= i < 3 * j + 3) ==> ws[i] == vs[i]
    ensures Absorb(m, s, ws) != Absorb(m, s, vs)
    decreases j
  {
    if j == 0 {
      assert exists i :: 0 <= i < |ws| && i < 3 && ws[i] != vs[i];
      BlocksApart(s, ws, vs);
      if |ws| > 3 {
        assert ws[3..] == vs[3..];
        AbsorbApart(m, m.mix(AddBlock(s, ws)), m.mix(AddBlock(s, vs)), ws[3..]);
      }
    } else {
      assert |ws| > 3;
      assert AddBlock(s, ws) == AddBlock(s, vs);
      var i :| 0 <= i < |ws| && ws[i] != vs[i];
      assert ws[3..][i - 3] != vs[3..][i - 3];
      AbsorbOneBlock(m, m.mix(AddBlock(s, ws)), ws[3..], vs[3..], j - 1);
    }
  }

  lemma Digit(a: Byte, x: nat, b: Byte, y: nat)
    requires a + 0x100 * x == b + 0x100 * y
    ensures a == b && x == y
  {
  }

  lemma LoadApart(a0: Byte, a1: Byte, a2: Byte, a3: Byte, b0: Byte, b1: Byte, b2: Byte, b3: Byte)
    requires Load(a0, a1, a2, a3) == Load(b0, b1, b2, b3)
    ensures a0 == b0 && a1 == b1 && a2 == b2 && a3 == b3
  {
    Digit(a0, a1 + 0x100 * (a2 + 0x100 * a3), b0, b1 + 0x100 * (b2 + 0x100 * b3));
    Digit(a1, a2 + 0x100 * a3, b1, b2 + 0x100 * b3);
    Digit(a2, a3, b2, b3);
  }

  lemma WordsApart(key: seq<Byte>, other: seq<Byte>, i: nat)
    requires |key| == |other| && i < |key| && key[i] != other[i]
    ensures ToWords(key)[i / 4] != ToWords(other)[i / 4]
  {
    var k := 4 * (i / 4);
    assert i == k || i == k + 1 || i == k + 2 || i == k + 3;
    if WordFrom(key, k) == WordFrom(other, k) {
      LoadApart(ByteAt(key, k), ByteAt(key, k + 1), ByteAt(key, k + 2), ByteAt(key, k + 3),
                ByteAt(other, k), ByteAt(other, k + 1), ByteAt(other, k + 2), ByteAt(other, k + 3));
    }
  }

  /** Two keys of one length that differ within one block of twelve bytes leave different
      states: no difference is lost before c alone is returned. */
  lemma OneBlockMatters(key: seq<Byte>, other: seq<Byte>, j: nat, initval: Word)
    requires |key| == |other| && key != other
    requires forall i :: 0 <= i < |key| && !(12 * j <= i < 12 * j + 12) ==> key[i] == other[i]
    ensures Digest(JMixers(), key, initval) != Digest(JMixers(), other, initval)
  {
    MixersLossless(Standard());
    var ws, vs := ToWords(key), ToWords(other);
    var i :| 0 <= i < |key| && key[i] != other[i];
    WordsApart(key, other, i);
    forall w | 0 <= w < |ws| && !(3 * j <= w < 3 * j + 3) ensures ws[w] == vs[w] {
      assert ByteAt(key, 4 * w) == ByteAt(other, 4 * w) && ByteAt(key, 4 * w + 1) == ByteAt(other, 4 * w + 1);
      assert ByteAt(key, 4 * w + 2) == ByteAt(other, 4 * w + 2) && ByteAt(key, 4 * w + 3) == ByteAt(other, 4 * w + 3);
    }
    AbsorbOneBlock(JMixers(), Start(|key|, initval), ws, vs, j);
  }
}
