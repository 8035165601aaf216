/**
 The random generator of a task (struct UxbRng in native/uxb_runtime/uxb_runtime_task_v2.cpp):
 xoshiro256** on four 64-bit words, seeded with SplitMix64.
 */
module Rng {
  type Word = bv64

  const GAMMA: Word := 0x9E3779B97F4A7C15
  const DEFAULT_SEED: Word := 0x5EED0000C0FFEE01

  // The four words of the generator and the value that RND(0) repeats.
  datatype Words = Words(a: Word, b: Word, c: Word, d: Word)

  datatype Gen = Gen(words: Words, last: real)

  // ---------------------------------------------------------------- words, half by half

  lemma EqualByHalves(x: Word, y: Word)
    requires x & 0xFFFF_FFFF == y & 0xFFFF_FFFF && x & 0xFFFF_FFFF_0000_0000 == y & 0xFFFF_FFFF_0000_0000
    ensures x == y
  {
  }

  // ---------------------------------------------------------------- SplitMix64

  function Tick(x: Word): Word {
    x + GAMMA
  }

  function Xor30(x: Word): Word {
    x ^ (x >> 30)
  }

  function Xor27(x: Word): Word {
    x ^ (x >> 27)
  }

  function Xor31(x: Word): Word {
    x ^ (x >> 31)
  }

  function TimesA(x: Word): Word {
    x * 0xBF58476D1CE4E5B9
  }

  function TimesB(x: Word): Word {
    x * 0x94D049BB133111EB
  }

  // The finalizer of SplitMix64.
  function Mix(x: Word): Word {
    Xor31(TimesB(Xor27(TimesA(Xor30(x)))))
  }

  function Unxor30(x: Word): Word {
    x ^ (x >> 30) ^ (x >> 60)
  }

  function Unxor27(x: Word): Word {
    x ^ (x >> 27) ^ (x >> 54)
  }

  function Unxor31(x: Word): Word {
    x ^ (x >> 31) ^ (x >> 62)
  }

  function OverA(x: Word): Word {
    x * 0x96DE1B173F119089
  }

  function OverB(x: Word): Word {
    x * 0x319642B2D24D8EC3
  }

  function Unmix(z: Word): Word {
    Unxor30(OverA(Unxor27(OverB(Unxor31(z)))))
  }

  lemma Halves30(x: Word)
    ensures Unxor30(Xor30(x)) & 0xFFFF_FFFF == x & 0xFFFF_FFFF
    ensures Unxor30(Xor30(x)) & 0xFFFF_FFFF_0000_0000 == x & 0xFFFF_FFFF_0000_0000
  {
  }

  lemma Unhalves30(x: Word)
    ensures Xor30(Unxor30(x)) & 0xFFFF_FFFF == x & 0xFFFF_FFFF
    ensures Xor30(Unxor30(x)) & 0xFFFF_FFFF_0000_0000 == x & 0xFFFF_FFFF_0000_0000
  {
  }

  lemma Xor30Undone(x: Word)
    ensures Unxor30(Xor30(x)) == x
  {
    Halves30(x);
    EqualByHalves(Unxor30(Xor30(x)), x);
  }

  lemma Xor30Redone(x: Word)
    ensures Xor30(Unxor30(x)) == x
  {
    Unhalves30(x);
    EqualByHalves(Xor30(Unxor30(x)), x);
  }

  lemma Halves27(x: Word)
    ensures Unxor27(Xor27(x)) & 0xFFFF_FFFF == x & 0xFFFF_FFFF
    ensures Unxor27(Xor27(x)) & 0xFFFF_FFFF_0000_0000 == x & 0xFFFF_FFFF_0000_0000
  {
  }

  lemma Unhalves27(x: Word)
    ensures Xor27(Unxor27(x)) & 0xFFFF_FFFF == x & 0xFFFF_FFFF
    ensures Xor27(Unxor27(x)) & 0xFFFF_FFFF_0000_0000 == x & 0xFFFF_FFFF_0000_0000
  {
  }

  lemma Xor27Undone(x: Word)
    ensures Unxor27(Xor27(x)) == x
  {
    Halves27(x);
    EqualByHalves(Unxor27(Xor27(x)), x);
  }

  lemma Xor27Redone(x: Word)
    ensures Xor27(Unxor27(x)) == x
  {
    Unhalves27(x);
    EqualByHalves(Xor27(Unxor27(x)), x);
  }

  lemma Halves31(x: Word)
    ensures Unxor31(Xor31(x)) & 0xFFFF_FFFF == x & 0xFFFF_FFFF
    ensures Unxor31(Xor31(x)) & 0xFFFF_FFFF_0000_0000 == x & 0xFFFF_FFFF_0000_0000
  {
  }

  lemma Unhalves31(x: Word)
    ensures Xor31(Unxor31(x)) & 0xFFFF_FFFF == x & 0xFFFF_FFFF
    ensures Xor31(Unxor31(x)) & 0xFFFF_FFFF_0000_0000 == x & 0xFFFF_FFFF_0000_0000
  {
  }

  lemma Xor31Undone(x: Word)
    ensures Unxor31(Xor31(x)) == x
  {
    Halves31(x);
    EqualByHalves(Unxor31(Xor31(x)), x);
  }

  lemma Xor31Redone(x: Word)
    ensures Xor31(Unxor31(x)) == x
  {
    Unhalves31(x);
    EqualByHalves(Xor31(Unxor31(x)), x);
  }

  // Two functions that double and step undo each other, by induction over the binary digits of a word.
  function Twice(x: Word): Word {
    2 * x
  }

  function Plus(x: Word, y: Word): Word {
    x + y
  }

  predicate At(h: Word) {
    true
  }

  ghost predicate Doubles(f: Word -> Word) {
    f(0) == 0 && forall h: Word {:trigger At(h)} :: At(h) ==> f(Twice(h)) == Twice(f(h))
  }

  ghost predicate Steps(f: Word -> Word, a: Word, b: Word) {
    forall h: Word {:trigger At(h)} :: At(h) ==> f(Plus(h, a)) == Plus(f(h), b)
  }

  function Below(x: Word): (h: Word)
    ensures x == 0 || h < x
  {
    if x & 1 == 0 then x >> 1 else x - 1
  }

  predicate IsBelow(h: Word, x: Word) {
    h == Below(x)
  }

  predicate Shrinks(h: Word, x: Word) {
    x == 0 || h < x
  }

  lemma BelowShrinks(x: Word)
    ensures IsBelow(Below(x), x) && Shrinks(Below(x), x)
  {
    hide Below;
  }

  lemma EvenOrNext(x: Word, one: Word)
    requires one == 1
    ensures if x & 1 == 0 then x == Twice(x >> 1) else x == Plus(x - 1, one)
  {
  }

  lemma FromBelow(x: Word, h: Word, one: Word)
    requires one == 1 && IsBelow(h, x)
    ensures x == Twice(h) || x == Plus(h, one)
  {
    hide Twice, Plus;
    EvenOrNext(x, one);
  }

  // Both functions double, and each takes the other's step.
  ghost predicate Opposite(f: Word -> Word, g: Word -> Word, one: Word, c: Word) {
    one == 1 && Doubles(f) && Doubles(g) && Steps(f, one, c) && Steps(g, c, one)
  }

  lemma UndoneZero(f: Word -> Word, g: Word -> Word, one: Word, c: Word, x: Word)
    requires Opposite(f, g, one, c) && x == 0
    ensures g(f(x)) == x
  {
    hide Steps;
  }

  lemma UndoneDouble(f: Word -> Word, g: Word -> Word, h: Word)
    requires Doubles(f) && Doubles(g) && g(f(h)) == h
    ensures g(f(Twice(h))) == Twice(h)
  {
    hide Twice;
    assert At(h);
    assert At(f(h));
  }

  lemma UndoneStep(f: Word -> Word, g: Word -> Word, one: Word, c: Word, h: Word)
    requires Steps(f, one, c) && Steps(g, c, one) && g(f(h)) == h
    ensures g(f(Plus(h, one))) == Plus(h, one)
  {
    hide Plus;
    assert At(h);
    assert At(f(h));
  }

  lemma UndoneAbove(f: Word -> Word, g: Word -> Word, one: Word, c: Word, x: Word, h: Word)
    requires Opposite(f, g, one, c) && x != 0 && IsBelow(h, x) && g(f(h)) == h
    ensures g(f(x)) == x
  {
    hide Doubles, Steps, IsBelow, Twice, Plus;
    FromBelow(x, h, one);
    UndoneDouble(f, g, h);
    UndoneStep(f, g, one, c, h);
  }

  lemma {:induction false} UndoneFrom(f: Word -> Word, g: Word -> Word, one: Word, c: Word, x: Word, h: Word)
    requires Opposite(f, g, one, c) && IsBelow(h, x) && Shrinks(h, x)
    ensures g(f(x)) == x
    decreases x
  {
    hide Opposite, Below, IsBelow;
    if x == 0 {
      UndoneZero(f, g, one, c, x);
    } else {
      BelowShrinks(h);
      UndoneFrom(f, g, one, c, h, Below(h));
      UndoneAbove(f, g, one, c, x, h);
    }
  }

  lemma Undone(f: Word -> Word, g: Word -> Word, one: Word, c: Word, x: Word)
    requires Opposite(f, g, one, c)
    ensures g(f(x)) == x
  {
    hide Opposite, Below, IsBelow, Shrinks;
    BelowShrinks(x);
    UndoneFrom(f, g, one, c, x, Below(x));
  }

  // The multipliers are odd, so multiplication by them can be undone.
  lemma TimesATwice(x: Word)
    ensures TimesA(Twice(x)) == Twice(TimesA(x))
  {
    assert TimesA(2 * x) == 2 * TimesA(x);
    hide TimesA;
  }

  lemma TimesAPlus(x: Word, one: Word, c: Word)
    requires one == 1 && c == 0xBF58476D1CE4E5B9
    ensures TimesA(Plus(x, one)) == Plus(TimesA(x), c)
  {
    assert TimesA(x + 1) == TimesA(x) + 0xBF58476D1CE4E5B9;
    hide TimesA;
    assert Plus(x, one) == x + 1;
    assert Plus(TimesA(x), c) == TimesA(x) + 0xBF58476D1CE4E5B9;
  }

  lemma TimesAPlusInverse(x: Word, one: Word, c: Word)
    requires one == 1 && c == 0x96DE1B173F119089
    ensures TimesA(Plus(x, c)) == Plus(TimesA(x), one)
  {
    assert TimesA(x + 0x96DE1B173F119089) == TimesA(x) + 1;
    hide TimesA;
    assert Plus(x, c) == x + 0x96DE1B173F119089;
    assert Plus(TimesA(x), one) == TimesA(x) + 1;
  }

  lemma TimesAIsLinear(one: Word, c: Word, d: Word)
    requires one == 1 && c == 0xBF58476D1CE4E5B9 && d == 0x96DE1B173F119089
    ensures Doubles(TimesA) && Steps(TimesA, one, c) && Steps(TimesA, d, one)
  {
    hide Twice, Plus;
    assert TimesA(0) == 0;
    hide TimesA;
    forall h: Word ensures TimesA(Twice(h)) == Twice(TimesA(h)) {
      TimesATwice(h);
    }
    forall h: Word ensures TimesA(Plus(h, one)) == Plus(TimesA(h), c) && TimesA(Plus(h, d)) == Plus(TimesA(h), one) {
      TimesAPlus(h, one, c);
      TimesAPlusInverse(h, one, d);
    }
  }

  lemma OverATwice(x: Word)
    ensures OverA(Twice(x)) == Twice(OverA(x))
  {
    assert OverA(2 * x) == 2 * OverA(x);
    hide OverA;
  }

  lemma OverAPlus(x: Word, one: Word, c: Word)
    requires one == 1 && c == 0x96DE1B173F119089
    ensures OverA(Plus(x, one)) == Plus(OverA(x), c)
  {
    assert OverA(x + 1) == OverA(x) + 0x96DE1B173F119089;
    hide OverA;
    assert Plus(x, one) == x + 1;
    assert Plus(OverA(x), c) == OverA(x) + 0x96DE1B173F119089;
  }

  lemma OverAPlusInverse(x: Word, one: Word, c: Word)
    requires one == 1 && c == 0xBF58476D1CE4E5B9
    ensures OverA(Plus(x, c)) == Plus(OverA(x), one)
  {
    assert OverA(x + 0xBF58476D1CE4E5B9) == OverA(x) + 1;
    hide OverA;
    assert Plus(x, c) == x + 0xBF58476D1CE4E5B9;
    assert Plus(OverA(x), one) == OverA(x) + 1;
  }

  lemma OverAIsLinear(one: Word, c: Word, d: Word)
    requires one == 1 && c == 0x96DE1B173F119089 && d == 0xBF58476D1CE4E5B9
    ensures Doubles(OverA) && Steps(OverA, one, c) && Steps(OverA, d, one)
  {
    hide Twice, Plus;
    assert OverA(0) == 0;
    hide OverA;
    forall h: Word ensures OverA(Twice(h)) == Twice(OverA(h)) {
      OverATwice(h);
    }
    forall h: Word ensures OverA(Plus(h, one)) == Plus(OverA(h), c) && OverA(Plus(h, d)) == Plus(OverA(h), one) {
      OverAPlus(h, one, c);
      OverAPlusInverse(h, one, d);
    }
  }

  lemma TimesBTwice(x: Word)
    ensures TimesB(Twice(x)) == Twice(TimesB(x))
  {
    assert TimesB(2 * x) == 2 * TimesB(x);
    hide TimesB;
  }

  lemma TimesBPlus(x: Word, one: Word, c: Word)
    requires one == 1 && c == 0x94D049BB133111EB
    ensures TimesB(Plus(x, one)) == Plus(TimesB(x), c)
  {
    assert TimesB(x + 1) == TimesB(x) + 0x94D049BB133111EB;
    hide TimesB;
    assert Plus(x, one) == x + 1;
    assert Plus(TimesB(x), c) == TimesB(x) + 0x94D049BB133111EB;
  }

  lemma TimesBPlusInverse(x: Word, one: Word, c: Word)
    requires one == 1 && c == 0x319642B2D24D8EC3
    ensures TimesB(Plus(x, c)) == Plus(TimesB(x), one)
  {
    assert TimesB(x + 0x319642B2D24D8EC3) == TimesB(x) + 1;
    hide TimesB;
    assert Plus(x, c) == x + 0x319642B2D24D8EC3;
    assert Plus(TimesB(x), one) == TimesB(x) + 1;
  }

  lemma TimesBIsLinear(one: Word, c: Word, d: Word)
    requires one == 1 && c == 0x94D049BB133111EB && d == 0x319642B2D24D8EC3
    ensures Doubles(TimesB) && Steps(TimesB, one, c) && Steps(TimesB, d, one)
  {
    hide Twice, Plus;
    assert TimesB(0) == 0;
    hide TimesB;
    forall h: Word ensures TimesB(Twice(h)) == Twice(TimesB(h)) {
      TimesBTwice(h);
    }
    forall h: Word ensures TimesB(Plus(h, one)) == Plus(TimesB(h), c) && TimesB(Plus(h, d)) == Plus(TimesB(h), one) {
      TimesBPlus(h, one, c);
      TimesBPlusInverse(h, one, d);
    }
  }

  lemma OverBTwice(x: Word)
    ensures OverB(Twice(x)) == Twice(OverB(x))
  {
    assert OverB(2 * x) == 2 * OverB(x);
    hide OverB;
  }

  lemma OverBPlus(x: Word, one: Word, c: Word)
    requires one == 1 && c == 0x319642B2D24D8EC3
    ensures OverB(Plus(x, one)) == Plus(OverB(x), c)
  {
    assert OverB(x + 1) == OverB(x) + 0x319642B2D24D8EC3;
    hide OverB;
    assert Plus(x, one) == x + 1;
    assert Plus(OverB(x), c) == OverB(x) + 0x319642B2D24D8EC3;
  }

  lemma OverBPlusInverse(x: Word, one: Word, c: Word)
    requires one == 1 && c == 0x94D049BB133111EB
    ensures OverB(Plus(x, c)) == Plus(OverB(x), one)
  {
    assert OverB(x + 0x94D049BB133111EB) == OverB(x) + 1;
    hide OverB;
    assert Plus(x, c) == x + 0x94D049BB133111EB;
    assert Plus(OverB(x), one) == OverB(x) + 1;
  }

  lemma OverBIsLinear(one: Word, c: Word, d: Word)
    requires one == 1 && c == 0x319642B2D24D8EC3 && d == 0x94D049BB133111EB
    ensures Doubles(OverB) && Steps(OverB, one, c) && Steps(OverB, d, one)
  {
    hide Twice, Plus;
    assert OverB(0) == 0;
    hide OverB;
    forall h: Word ensures OverB(Twice(h)) == Twice(OverB(h)) {
      OverBTwice(h);
    }
    forall h: Word ensures OverB(Plus(h, one)) == Plus(OverB(h), c) && OverB(Plus(h, d)) == Plus(OverB(h), one) {
      OverBPlus(h, one, c);
      OverBPlusInverse(h, one, d);
    }
  }

  lemma UndoA(x: Word)
    ensures OverA(TimesA(x)) == x && TimesA(OverA(x)) == x
  {
    hide TimesA, OverA, Doubles, Steps;
    var one, c, d: Word := 1, 0xBF58476D1CE4E5B9, 0x96DE1B173F119089;
    TimesAIsLinear(one, c, d);
    OverAIsLinear(one, d, c);
    Undone(TimesA, OverA, one, c, x);
    Undone(OverA, TimesA, one, d, x);
  }

  lemma UndoB(x: Word)
    ensures OverB(TimesB(x)) == x && TimesB(OverB(x)) == x
  {
    hide TimesB, OverB, Doubles, Steps;
    var one, c, d: Word := 1, 0x94D049BB133111EB, 0x319642B2D24D8EC3;
    TimesBIsLinear(one, c, d);
    OverBIsLinear(one, d, c);
    Undone(TimesB, OverB, one, c, x);
    Undone(OverB, TimesB, one, d, x);
  }

  // The SplitMix64 finalizer is a bijection on 64-bit words.
  lemma MixIsBijective(x: Word)
    ensures Unmix(Mix(x)) == x && Mix(Unmix(x)) == x
  {
    Xor30Undone(x);
    UndoA(Xor30(x));
    Xor27Undone(TimesA(Xor30(x)));
    UndoB(Xor27(TimesA(Xor30(x))));
    Xor31Undone(TimesB(Xor27(TimesA(Xor30(x)))));
    Xor31Redone(x);
    UndoB(Unxor31(x));
    Xor27Redone(OverB(Unxor31(x)));
    UndoA(Unxor27(OverB(Unxor31(x))));
    Xor30Redone(OverA(Unxor27(OverB(Unxor31(x)))));
  }

  // The four words for a seed: the counter advances before each mix.
  function SeedWords(seed: Word): Words {
    var x1 := Tick(seed);
    var x2 := Tick(x1);
    var x3 := Tick(x2);
    Words(Mix(x1), Mix(x2), Mix(x3), Mix(Tick(x3)))
  }

  function SeedGen(seed: Word): Gen {
    Gen(SeedWords(seed), 0.0)
  }

  predicate AllZero(w: Words) {
    w.a == 0 && w.b == 0 && w.c == 0 && w.d == 0
  }

  lemma TickMoves(x: Word)
    ensures Tick(x) != x
  {
  }

  lemma TickIsInjective(x: Word, y: Word)
    requires Tick(x) == Tick(y)
    ensures x == y
  {
    assert x + GAMMA == y + GAMMA;
    AddCancels(x, y);
  }

  lemma AddCancels(x: Word, y: Word)
    requires x + GAMMA == y + GAMMA
    ensures x == y
  {
    assert x == (x + GAMMA) - GAMMA;
  }

  // Seeding never gives the all-zero state, on which the generator would stand still.
  lemma SeedIsNeverZero(seed: Word)
    ensures !AllZero(SeedWords(seed))
  {
    var x1 := Tick(seed);
    MixIsBijective(x1);
    MixIsBijective(Tick(x1));
    TickMoves(x1);
  }

  // Different seeds give different states.
  lemma SeedingIsInjective(seed1: Word, seed2: Word)
    requires SeedWords(seed1) == SeedWords(seed2)
    ensures seed1 == seed2
  {
    MixIsBijective(Tick(seed1));
    MixIsBijective(Tick(seed2));
    TickIsInjective(seed1, seed2);
  }

  // ---------------------------------------------------------------- xoshiro256**

  function Rotl7(v: Word): Word {
    (v << 7) | (v >> 57)
  }

  function Rotl45(v: Word): Word {
    (v << 45) | (v >> 19)
  }

  function Rotl19(v: Word): Word {
    (v << 19) | (v >> 45)
  }

  function Times5(x: Word): Word {
    x * 5
  }

  function Times9(x: Word): Word {
    x * 9
  }

  function Starred(v: Word): Word {
    Times9(Rotl7(Times5(v)))
  }

  function Output(w: Words): Word {
    Starred(w.b)
  }

  function Rotr7(v: Word): Word {
    (v >> 7) | (v << 57)
  }

  function Over5(x: Word): Word {
    x * 0xCCCCCCCCCCCCCCCD
  }

  function Times3(x: Word): Word {
    x * 3
  }

  function Over3(x: Word): Word {
    x * 0xAAAAAAAAAAAAAAAB
  }

  function Unstarred(z: Word): Word {
    Over5(Rotr7(Over3(Over3(z))))
  }

  lemma Undo5(x: Word)
    ensures Over5(Times5(x)) == x
  {
  }

  lemma Redo5(x: Word)
    ensures Times5(Over5(x)) == x
  {
  }

  lemma Undo3(x: Word)
    ensures Over3(Times3(x)) == x && Times3(Over3(x)) == x
  {
  }

  lemma NineIsThreeTimesThree(x: Word)
    ensures Times9(x) == Times3(Times3(x))
  {
  }

  lemma Undo7(x: Word)
    ensures Rotr7(Rotl7(x)) == x && Rotl7(Rotr7(x)) == x
  {
  }

  // The scrambler is a bijection: a word that the generator returns determines the state word it comes from.
  lemma StarredIsBijective(x: Word)
    ensures Unstarred(Starred(x)) == x && Starred(Unstarred(x)) == x
  {
    hide Times3, Times5, Times9, Over3, Over5, Rotl7, Rotr7;
    var v := Rotl7(Times5(x));
    Undo5(x);
    Undo7(Times5(x));
    NineIsThreeTimesThree(v);
    Undo3(Times3(v));
    Undo3(v);
    var z := Over3(Over3(x));
    Redo5(Rotr7(z));
    Undo7(z);
    NineIsThreeTimesThree(z);
    Undo3(Over3(x));
    Undo3(x);
  }

  function Xor(x: Word, y: Word): Word {
    x ^ y
  }

  function XorShl(x: Word, y: Word): Word {
    x ^ (y << 17)
  }

  function Advance(w: Words): Words {
    var c := Xor(w.c, w.a);
    var d := Xor(w.d, w.b);
    Words(Xor(w.a, d), Xor(w.b, c), XorShl(c, w.b), Rotl45(d))
  }

  lemma RotationUndone(v: Word)
    ensures Rotl19(Rotl45(v)) == v
  {
  }

  lemma XorCancels(x: Word, y: Word, z: Word)
    requires x ^ z == y ^ z
    ensures x == y
  {
  }

  lemma XorMoves(x: Word, c: Word, y: Word, d: Word)
    requires x ^ c == y ^ d
    ensures x ^ y == c ^ d
  {
  }

  lemma ShiftMoves(x: Word, c: Word, y: Word, d: Word)
    requires c ^ (x << 17) == d ^ (y << 17)
    ensures c ^ d == (x ^ y) << 17
  {
  }

  lemma OnlyZeroIsItsShift(e: Word)
    requires e == e << 17
    ensures e == 0
  {
  }

  lemma ZeroDifference(x: Word, y: Word)
    requires x ^ y == 0
    ensures x == y
  {
  }

  // The two words that the shift mixes can be told apart again.
  lemma MixedPairIsUnique(x: Word, c: Word, y: Word, d: Word)
    requires x ^ c == y ^ d && c ^ (x << 17) == d ^ (y << 17)
    ensures x == y
  {
    XorMoves(x, c, y, d);
    ShiftMoves(x, c, y, d);
    OnlyZeroIsItsShift(x ^ y);
    ZeroDifference(x, y);
  }

  lemma FirstWords(w: Words, v: Words, d: Word, e: Word)
    requires Rotl45(d) == Rotl45(e) && Xor(w.a, d) == Xor(v.a, e)
    ensures d == e && w.a == v.a
  {
    RotationUndone(d);
    RotationUndone(e);
    XorCancels(w.a, v.a, d);
  }

  lemma SameSecond(x: Word, c: Word, y: Word, d: Word)
    requires x ^ c == y ^ d && x == y
    ensures c == d
  {
  }

  lemma MiddleWords(x: Word, c: Word, y: Word, d: Word)
    requires Xor(x, c) == Xor(y, d) && XorShl(c, x) == XorShl(d, y)
    ensures x == y && c == d
  {
    MixedPairIsUnique(x, c, y, d);
    SameSecond(x, c, y, d);
  }

  lemma XorIsUnique(x: Word, y: Word, z: Word)
    requires Xor(x, z) == Xor(y, z)
    ensures x == y
  {
    XorCancels(x, y, z);
  }

  // The transition is injective, so no two states ever run together.
  lemma AdvanceIsInjective(w: Words, v: Words)
    requires Advance(w) == Advance(v)
    ensures w == v
  {
    FirstWords(w, v, Xor(w.d, w.b), Xor(v.d, v.b));
    MiddleWords(w.b, Xor(w.c, w.a), v.b, Xor(v.c, v.a));
    XorIsUnique(w.c, v.c, w.a);
    XorIsUnique(w.d, v.d, w.b);
  }

  // Only the all-zero state leads to the all-zero state.
  lemma ZeroComesFromZero(w: Words)
    requires AllZero(Advance(w))
    ensures AllZero(w)
  {
  }

  function Iterate(w: Words, n: nat): Words
    decreases n
  {
    if n == 0 then w else Advance(Iterate(w, n - 1))
  }

  // No state that a seeded generator ever reaches is zero.
  lemma {:induction false} SeededNeverReachesZero(seed: Word, n: nat)
    ensures !AllZero(Iterate(SeedWords(seed), n))
    decreases n
  {
    if n == 0 {
      SeedIsNeverZero(seed);
    } else {
      SeededNeverReachesZero(seed, n - 1);
      var before := Iterate(SeedWords(seed), n - 1);
      if AllZero(Advance(before)) {
        ZeroComesFromZero(before);
      }
    }
  }

  // ---------------------------------------------------------------- RND

  const TWO_53: nat := 9007199254740992

  function Shr11(x: Word): Word {
    x >> 11
  }

  lemma Joined(high: Word, low: Word)
    requires high >> 53 == 0
    ensures ((high << 11) | (low & 0x7FF)) as nat == 2048 * (high as nat) + (low & 0x7FF) as nat
  {
  }

  lemma LowBits(x: Word)
    ensures (x & 0x7FF) as nat < 2048
  {
  }

  lemma SplitAt11(x: Word)
    ensures ((Shr11(x) << 11) | (x & 0x7FF)) == x && Shr11(x) >> 53 == 0
  {
  }

  // The shift is the division by 2048 of the number that the word stands for.
  lemma ShiftDivides(x: Word)
    ensures var k := Shr11(x) as nat;
            2048 * k <= x as nat < 2048 * (k + 1) && k < TWO_53
  {
    SplitAt11(x);
    hide Shr11;
    Joined(Shr11(x), x);
    LowBits(x);
  }

  function Numerator(w: Words): nat {
    Shr11(Output(w)) as nat
  }

  function Fraction(k: nat): real {
    k as real / 9007199254740992.0
  }

  function NextF64(g: Gen): (r: Gen) {
    Gen(Advance(g.words), Fraction(Numerator(g.words)))
  }

  // k is the number that the leading 53 of the 64 bits of the word stand for, and r is k / 2^53.
  ghost predicate Leads(k: nat, r: real, word: Word) {
    k as real == r * TWO_53 as real && 2048 * k <= word as nat < 2048 * (k + 1)
  }

  ghost predicate LeadingBits(r: real, word: Word) {
    exists k: nat :: Leads(k, r, word)
  }

  lemma FractionLeads(x: Word, k: nat)
    requires k == Shr11(x) as nat
    ensures LeadingBits(Fraction(k), x) && 0.0 <= Fraction(k) < 1.0
  {
    ShiftDivides(x);
    hide Shr11;
    assert Leads(k, Fraction(k), x);
  }

  // A random number is k / 2^53 for the leading 53 bits k of the word drawn, in [0, 1), so the product in the
  // source is exact.
  lemma RandomIsUnitFraction(g: Gen)
    ensures LeadingBits(NextF64(g).last, Output(g.words))
    ensures 0.0 <= NextF64(g).last < 1.0
  {
    hide Output;
    FractionLeads(Output(g.words), Numerator(g.words));
  }

  lemma LeadingBitsAreOne(r: real, q: real, word: Word)
    requires LeadingBits(r, word) && LeadingBits(q, word)
    ensures r == q
  {
    var k: nat :| Leads(k, r, word);
    var l: nat :| Leads(l, q, word);
    assert k == l;
  }

  // ---------------------------------------------------------------- known answers

  // The first four words of SplitMix64 from 1234567.
  lemma SplitMixAnswers(seed: Word)
    requires seed == 1234567
    ensures SeedWords(seed) == Words(0x599ED017FB08FC85, 0x2C73F08458540FA5, 0x883EBCE5A3F27C77, 0x3FBEF740E9177B3F)
  {
  }

  // The first four outputs of xoshiro256** from the state 1, 2, 3, 4.
  lemma XoshiroAnswers(w: Words)
    requires w == Words(1, 2, 3, 4)
    ensures Output(w) == 11520 && Output(Advance(w)) == 0
    ensures Output(Advance(Advance(w))) == 1509978240
    ensures Output(Advance(Advance(Advance(w)))) == 1215971899390074240
  {
  }

  // The first word that a program draws, and the seed of its first task.
  lemma DefaultAnswer(seed: Word)
    requires seed == DEFAULT_SEED
    ensures Output(SeedWords(seed)) == 0x7EF6BA3B8F31A19A
    ensures Output(Advance(SeedWords(seed))) == 0xD5B92D3828FF483A
  {
  }

  // ---------------------------------------------------------------- the object

  class UxbRng {
    const s: array<Word>
    var lastValue: real

    ghost predicate Valid()
      reads this
    {
      s.Length == 4
    }

    ghost function Value(): Gen
      requires Valid()
      reads this, s
    {
      Gen(Words(s[0], s[1], s[2], s[3]), lastValue)
    }

    constructor ()
      ensures Valid() && fresh(s) && Value() == Gen(Words(0, 0, 0, 0), 0.0)
    {
      s := new Word[4](_ => 0);
      lastValue := 0.0;
    }

    method Seed(seedValue: Word)
      requires Valid()
      modifies this, s
      ensures Valid() && Value() == SeedGen(seedValue)
    {
      var x := seedValue;
      x, s[0] := SplitMix(x);
      x, s[1] := SplitMix(x);
      x, s[2] := SplitMix(x);
      x, s[3] := SplitMix(x);
      lastValue := 0.0;
    }

    static method SplitMix(x: Word) returns (next: Word, z: Word)
      ensures next == Tick(x) && z == Mix(next)
    {
      next := Tick(x);
      z := next;
      z := TimesA(Xor30(z));
      z := TimesB(Xor27(z));
      z := Xor31(z);
    }

    method Next() returns (result: Word)
      requires Valid()
      modifies s
      ensures result == Output(old(Value()).words)
      ensures Value() == Gen(Advance(old(Value()).words), old(lastValue))
    {
      result := Starred(s[1]);
      var second := s[1];
      s[2] := Xor(s[2], s[0]);
      s[3] := Xor(s[3], s[1]);
      s[1] := Xor(s[1], s[2]);
      s[0] := Xor(s[0], s[3]);
      s[2] := XorShl(s[2], second);
      s[3] := Rotl45(s[3]);
    }

    method NextReal() returns (r: real)
      requires Valid()
      modifies this, s
      ensures Valid() && Value() == NextF64(old(Value())) && r == lastValue
      ensures LeadingBits(r, Output(old(Value()).words)) && 0.0 <= r < 1.0
    {
      var word := Next();
      hide Output;
      FractionLeads(word, Shr11(word) as nat);
      lastValue := Fraction(Shr11(word) as nat);
      r := lastValue;
    }
  }
}
