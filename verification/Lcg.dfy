/** The 48-bit linear congruential generator: wrapping arithmetic on 64 bits,
    then a mask, and why no seed ever repeats early. */
module Lcg {
  import opened Collections
  import opened Remainders

  const A: nat := 0x5DEECE66D
  const C: nat := 0xB
  const M: nat := 0x1_0000_0000_0000
  const WORD: nat := 0x1_0000_0000_0000_0000
  const HALF: nat := 0x1_0000_0000

  /** The multiplier's inverse modulo 2^48. */
  const A_INVERSE: nat := 246154705703781

  /** `next`, on the state: multiply and add, each wrapping at 64 bits, then keep
      the low 48 bits. */
  function Advance(seed: nat): (r: nat)
    ensures r < M
  {
    ((seed * A) % WORD + C) % WORD % M
  }

  /** The generator's law. */
  function Step(x: nat): (r: nat)
    ensures r < M
  {
    (A * x + C) % M
  }

  /** Wrapping at 64 bits does not show below bit 48. */
  lemma WrappingIsExact(seed: nat)
    ensures Advance(seed) == Step(seed)
  {
    var q := (seed * A) / WORD;
    var t := (seed * A) % WORD + C;
    assert seed * A == WORD * q + (seed * A) % WORD;
    assert A * seed + C == t + WORD * q;
    assert t == t % WORD + WORD * (t / WORD);
    assert A * seed + C == t % WORD + M * (65536 * (t / WORD) + 65536 * q);
    Remainder(A * seed + C, M, 65536 * (t / WORD) + 65536 * q, t % WORD);
  }

  /** The step undone. */
  function Back(y: nat): (r: nat)
    ensures r < M
  {
    ((y + (M - C)) * A_INVERSE) % M
  }

  lemma BackStep(x: nat)
    requires x < M
    ensures Back(Step(x)) == x
  {
    var q := (A * x + C) / M;
    var v := (Step(x) + (M - C)) * A_INVERSE;
    assert Step(x) == A * x + C - M * q;
    assert v == (A * x + M - M * q) * A_INVERSE;
    assert v == x + M * (22050866921 * x + A_INVERSE - q * A_INVERSE);
    Remainder(v, M, 22050866921 * x + A_INVERSE - q * A_INVERSE, x);
  }

  lemma StepBack(y: nat)
    requires y < M
    ensures Step(Back(y)) == y
  {
    var v := (y + (M - C)) * A_INVERSE;
    var q := v / M;
    var w := 22050866921 * (y + M - C) - A * q + 1;
    assert Back(y) == v - M * q;
    assert A * Back(y) + C == A * v - M * (A * q) + C;
    assert A * v == (y + M - C) * (1 + M * 22050866921);
    assert A * Back(y) + C == y + M * w;
    Remainder(A * Back(y) + C, M, w, y);
  }

  // ---------------------------------------------------------------- the period

  /** The state after n steps. */
  function Iterate(x: nat, n: nat): (r: nat)
    requires x < M
    ensures r < M
  {
    if n == 0 then x else Step(Iterate(x, n - 1))
  }

  function Pow(n: nat): nat {
    if n == 0 then 1 else A * Pow(n - 1)
  }

  /** 1 + A + ... + A^(n-1). */
  function Geometric(n: nat): nat {
    if n == 0 then 0 else 1 + A * Geometric(n - 1)
  }

  /** Whether 2^k divides n. */
  predicate Halves(n: nat, k: nat) {
    k == 0 || (n % 2 == 0 && Halves(n / 2, k - 1))
  }

  function Pow2(k: nat): (p: nat)
    ensures p > 0
  {
    if k == 0 then 1 else 2 * Pow2(k - 1)
  }

  lemma IterateAlgebra(a: int, c: int, x: int, g: int, w: int)
    requires w == (a - 1) * x + c
    ensures a * (x + g * w) + c == x + (1 + a * g) * w
  {
    assert a * (g * w) == (a * g) * w;
  }

  /** How far n steps go from x, before remainders are taken. */
  function Travel(x: nat, n: nat): nat {
    Geometric(n) * ((A - 1) * x + C)
  }

  lemma TravelNext(x: nat, n: nat)
    requires n > 0
    ensures A * (x + Travel(x, n - 1)) + C == x + Travel(x, n)
  {
    var g := Geometric(n - 1);
    assert Geometric(n) == 1 + A * g;
    hide Geometric;
    IterateAlgebra(A, C, x, g, (A - 1) * x + C);
  }

  lemma IterateNext(x: nat, n: nat)
    requires x < M
    ensures Iterate(x, n) == (if n == 0 then x else Step(Iterate(x, n - 1))) && (n == 0 ==> Travel(x, n) == 0)
  {
    hide Step;
  }

  lemma {:induction false} IterateClosed(x: nat, n: nat)
    requires x < M
    ensures Iterate(x, n) == (x + Travel(x, n)) % M
  {
    hide Geometric, Iterate, Step, Travel;
    IterateNext(x, n);
    if n > 0 {
      IterateClosed(x, n - 1);
      TravelNext(x, n);
      StepOfRemainder(x + Travel(x, n - 1));
    }
  }

  lemma StepOfRemainder(e: nat)
    ensures Step(e % M) == (A * e + C) % M
  {
    var q := e / M;
    assert A * e + C == A * (e % M) + C + M * (A * q);
    Remainder(A * e + C, M, A * q, A * (e % M) + C);
  }

  lemma {:induction false} PowOfGeometric(n: nat)
    ensures Pow(n) == (A - 1) * Geometric(n) + 1
  {
    if n > 0 {
      PowOfGeometric(n - 1);
    }
  }

  lemma SumAlgebra(a: int, g: int, h: int, p: int)
    requires p == (a - 1) * h + 1
    ensures 1 + a * (h + p * g) == h + p * (1 + a * g)
  {
    assert a * (p * g) == p * (a * g);
  }

  lemma {:induction false} GeometricSum(m: nat, n: nat)
    ensures Geometric(m + n) == Geometric(n) + Pow(n) * Geometric(m)
  {
    if m > 0 {
      GeometricSum(m - 1, n);
      PowOfGeometric(n);
      SumAlgebra(A, Geometric(m - 1), Geometric(n), Pow(n));
    }
  }

  lemma {:induction false} GeometricParity(n: nat)
    ensures Geometric(n) % 2 == n % 2
  {
    hide Geometric;
    if n > 0 {
      GeometricParity(n - 1);
      NextParity(n);
    } else {
      GeometricNone();
    }
  }

  lemma GeometricNone()
    ensures Geometric(0) == 0
  {
  }

  lemma NextParity(n: nat)
    requires n > 0
    ensures Geometric(n) % 2 == (1 + Geometric(n - 1)) % 2
  {
    var g := Geometric(n - 1);
    assert Geometric(n) == 1 + A * g;
    hide Geometric;
    OddMultiple(g, A * g);
  }

  lemma OddMultiple(g: nat, h: nat)
    requires h == A * g
    ensures (1 + h) % 2 == (1 + g) % 2
  {
    var d := 12607451958 * g;
    assert h == g + 2 * d;
  }

  lemma ProductParity(n: nat, o: nat)
    requires o % 2 == 1
    ensures n * o % 2 == n % 2
  {
    var h := o / 2;
    assert n * o == n + 2 * (n * h);
  }

  /** An odd factor changes nothing about divisibility by powers of two. */
  lemma {:induction false} OddFactor(n: nat, o: nat, k: nat)
    requires o % 2 == 1
    ensures Halves(n * o, k) <==> Halves(n, k)
    decreases k
  {
    if k > 0 {
      ProductParity(n, o);
      if n % 2 == 0 {
        assert n * o == 2 * ((n / 2) * o);
        OddFactor(n / 2, o, k - 1);
      }
    }
  }

  /** The sum of 2m powers is that of m powers, doubled, times an odd number. */
  lemma GeometricDouble(m: nat) returns (o: nat)
    ensures o % 2 == 1 && Geometric(2 * m) == 2 * (Geometric(m) * o)
  {
    hide Geometric, Pow;
    GeometricSum(m, m);
    PowOfGeometric(m);
    var g := Geometric(m);
    o := 2 * (6303725979 * g) + 1;
    DoubleAlgebra(g, Pow(m), o);
  }

  lemma DoubleAlgebra(g: int, p: int, o: int)
    requires 1 + p == 2 * o
    ensures g + p * g == 2 * (g * o)
  {
    assert g + p * g == g * (1 + p);
  }

  /** Lifting the exponent: as A is 1 modulo 4, the sum of n powers is divisible
      by the same powers of two as n. */
  lemma {:induction false} GeometricHalves(n: nat, k: nat)
    ensures Halves(Geometric(n), k) <==> Halves(n, k)
    decreases k
  {
    if k > 0 {
      GeometricParity(n);
      if n % 2 == 0 {
        var m := n / 2;
        var o := GeometricDouble(m);
        hide Geometric;
        OddFactor(Geometric(m), o, k - 1);
        GeometricHalves(m, k - 1);
      }
    }
  }

  lemma HalveDivides(n: nat, p: nat)
    requires p > 0
    ensures n % (2 * p) == 0 <==> n % 2 == 0 && (n / 2) % p == 0
  {
    var r := n % (2 * p);
    var e := p * (n / (2 * p));
    assert n == r + 2 * e;
    assert n / 2 == r / 2 + e && n % 2 == r % 2;
    RemainderIs(n / 2, p, n / (2 * p), r / 2);
  }

  lemma {:induction false} HalvesIsDivides(n: nat, k: nat)
    ensures Halves(n, k) <==> n % Pow2(k) == 0
    decreases k
  {
    if k > 0 {
      HalvesIsDivides(n / 2, k - 1);
      HalveDivides(n, Pow2(k - 1));
    }
  }

  lemma Displacement(x: nat, v: nat)
    requires x < M
    ensures (x + v) % M == x <==> v % M == 0
  {
  }

  lemma ReturnsExactly(x: nat, n: nat)
    requires x < M
    ensures Iterate(x, n) == x <==> Travel(x, n) % M == 0
  {
    hide Iterate, Geometric, Travel;
    IterateClosed(x, n);
    Displacement(x, Travel(x, n));
  }

  lemma {:induction false} Pow2Sum(m: nat, n: nat)
    ensures Pow2(m + n) == Pow2(m) * Pow2(n)
  {
    if m > 0 {
      Pow2Sum(m - 1, n);
    }
  }

  lemma Pow48()
    ensures Pow2(16) == 65536 && Pow2(32) == HALF && Pow2(48) == M
  {
    assert Pow2(4) == 16 by {
      assert Pow2(2) == 4;
    }
    hide Pow2;
    Pow2Sum(4, 4);
    Pow2Sum(8, 8);
    Pow2Sum(16, 16);
    Pow2Sum(16, 32);
  }

  lemma DividesExactly(n: nat, w: nat)
    requires w % 2 == 1
    ensures (Geometric(n) * w) % M == 0 <==> n % M == 0
  {
    Pow48();
    hide Geometric, Halves, Pow2;
    OddFactor(Geometric(n), w, 48);
    GeometricHalves(n, 48);
    HalvesIsDivides(Geometric(n) * w, 48);
    HalvesIsDivides(n, 48);
  }

  /** Full period: any state comes back after n steps exactly if 2^48 divides n. */
  lemma FullPeriod(x: nat, n: nat)
    requires x < M
    ensures Iterate(x, n) == x <==> n % M == 0
  {
    hide Geometric, Iterate;
    ReturnsExactly(x, n);
    var w := (A - 1) * x + C;
    assert w == 2 * (12607451958 * x + 5) + 1;
    DividesExactly(n, w);
  }

  lemma {:induction false} IterateSum(x: nat, m: nat, n: nat)
    requires x < M
    ensures Iterate(x, m + n) == Iterate(Iterate(x, m), n)
  {
    if n > 0 {
      IterateSum(x, m, n - 1);
      assert Iterate(x, m + n) == Step(Iterate(x, m + n - 1));
    }
  }

  /** Two positions of one seed's stream hold the same state exactly if they are
      congruent modulo 2^48. */
  lemma RepeatsExactly(x: nat, i: nat, j: nat)
    requires x < M && i <= j
    ensures Iterate(x, i) == Iterate(x, j) <==> (j - i) % M == 0
  {
    IterateSum(x, i, j - i);
    FullPeriod(Iterate(x, i), j - i);
  }

  /** Distinct states never merge. */
  lemma {:induction false} NeverMerge(x: nat, y: nat, n: nat)
    requires x < M && y < M
    ensures Iterate(x, n) == Iterate(y, n) <==> x == y
  {
    if n > 0 {
      NeverMerge(x, y, n - 1);
      BackStep(Iterate(x, n - 1));
      BackStep(Iterate(y, n - 1));
    }
  }

  ghost function Below(n: nat): (s: set<nat>)
    ensures |s| == n
    ensures forall i: nat :: i in s <==> i < n
  {
    if n == 0 then {} else Below(n - 1) + {n - 1}
  }

  ghost function Elements(s: seq<nat>): (r: set<nat>)
    requires NoDup(s)
    ensures |r| == |s| && forall y :: y in r <==> y in s
  {
    if s == [] then {} else Elements(s[1..]) + {s[0]}
  }

  /** n different numbers below n are all of them. */
  lemma Pigeonhole(s: seq<nat>, y: nat)
    requires NoDup(s)
    requires y < |s| && forall e <- s :: e < |s|
    ensures y in s
  {
    if y !in s {
      SubsetSize(Elements(s), Below(|s|) - {y});
    }
  }

  /** From any seed, 2^48 steps visit every state there is. */
  lemma VisitsAll(x: nat, y: nat)
    requires x < M && y < M
    ensures exists n :: 0 <= n < M && Iterate(x, n) == y
  {
    hide Iterate;
    var states := seq(M, i requires 0 <= i => Iterate(x, i));
    forall i, j | 0 <= i < j < M
      ensures states[i] != states[j]
    {
      RepeatsExactly(x, i, j);
    }
    Pigeonhole(states, y);
    var n :| 0 <= n < M && states[n] == y;
    assert Iterate(x, n) == y;
  }

  // ------------------------------------------------------------- the object

  /** The low n bits of x XOR y. */
  function MaskedXor(x: nat, y: nat, n: nat): nat {
    if n == 0 then 0 else (if x % 2 == y % 2 then 0 else 1) + 2 * MaskedXor(x / 2, y / 2, n - 1)
  }

  /** `set_seed0`. */
  function SetSeed(seed: nat): nat {
    MaskedXor(seed, A, 48)
  }

  lemma LowBits(x: nat, p: nat)
    requires p > 0
    ensures x % (2 * p) == x % 2 + 2 * ((x / 2) % p)
  {
    var h := x / 2;
    var q, e := h / p, h % p;
    assert h == p * q + e;
    assert (2 * p) * q == 2 * (p * q);
    RemainderIs(x, 2 * p, q, x % 2 + 2 * e);
  }

  /** Bit k of x. */
  function Bit(x: nat, k: nat): bool {
    if k == 0 then x % 2 == 1 else Bit(x / 2, k - 1)
  }

  lemma {:induction false} BitIs(x: nat, k: nat)
    ensures Bit(x, k) <==> (x / Pow2(k)) % 2 == 1
  {
    if k > 0 {
      BitIs(x / 2, k - 1);
      HalvesDown(x, Pow2(k - 1));
    }
  }

  lemma HalvesDown(x: nat, p: nat)
    requires p > 0
    ensures x / (2 * p) == x / 2 / p
  {
    var (h, q) := (x / 2, x / 2 / p);
    var e := h % p;
    assert h == p * q + e && x == 2 * h + x % 2;
    assert (2 * p) * q == 2 * (p * q);
    assert x == (2 * p) * q + (2 * e + x % 2);
    QuotientIs(x, 2 * p, q, 2 * e + x % 2);
  }

  /** Each bit of the result is set exactly if the two differ there, and the bits
      above the mask are clear. */
  lemma {:induction false} XorBits(x: nat, y: nat, n: nat, k: nat)
    ensures Bit(MaskedXor(x, y, n), k) <==> k < n && Bit(x, k) != Bit(y, k)
    decreases k
  {
    if n == 0 {
      ZeroBit(k);
    } else if k > 0 {
      XorBits(x / 2, y / 2, n - 1, k - 1);
      assert MaskedXor(x, y, n) / 2 == MaskedXor(x / 2, y / 2, n - 1);
    }
  }

  lemma {:induction false} ZeroBit(k: nat)
    ensures !Bit(0, k)
  {
    if k > 0 {
      ZeroBit(k - 1);
    }
  }

  /** The seed of a generator is the low 48 bits of what it was given, flipped
      where the multiplier has a one. */
  lemma SeedBits(seed: nat, k: nat)
    ensures (SetSeed(seed) / Pow2(k)) % 2 == 1 <==> k < 48 && (((seed / Pow2(k)) % 2 == 1) != ((A / Pow2(k)) % 2 == 1))
  {
    XorBits(seed, A, 48, k);
    BitIs(SetSeed(seed), k);
    BitIs(seed, k);
    BitIs(A, k);
    hide Bit, Pow2, MaskedXor;
  }

  lemma {:induction false} XorTwice(x: nat, y: nat, n: nat)
    ensures MaskedXor(x, y, n) < Pow2(n)
    ensures MaskedXor(MaskedXor(x, y, n), y, n) == x % Pow2(n)
  {
    if n > 0 {
      XorTwice(x / 2, y / 2, n - 1);
      LowBits(x, Pow2(n - 1));
      var z := MaskedXor(x, y, n);
      assert z / 2 == MaskedXor(x / 2, y / 2, n - 1);
      assert z % 2 == if x % 2 == y % 2 then 0 else 1;
    }
  }

  lemma {:induction false} XorLowBits(x: nat, x': nat, y: nat, n: nat)
    requires x % Pow2(n) == x' % Pow2(n)
    ensures MaskedXor(x, y, n) == MaskedXor(x', y, n)
  {
    if n > 0 {
      LowBits(x, Pow2(n - 1));
      LowBits(x', Pow2(n - 1));
      XorLowBits(x / 2, x' / 2, y / 2, n - 1);
    }
  }

  /** Two seeds give the same state after n steps exactly if they agree in their
      low 48 bits. */
  lemma SeedsExactly(s: nat, t: nat, n: nat)
    ensures SetSeed(s) < M && SetSeed(t) < M
    ensures Iterate(SetSeed(s), n) == Iterate(SetSeed(t), n) <==> s % M == t % M
  {
    Pow48();
    hide MaskedXor, Iterate, Pow2;
    XorTwice(s, A, 48);
    XorTwice(t, A, 48);
    NeverMerge(SetSeed(s), SetSeed(t), n);
    if s % M == t % M {
      XorLowBits(s, t, A, 48);
    }
  }

  lemma TopBits(x: nat, m: nat, n: nat)
    requires x < Pow2(m + n)
    ensures x / Pow2(m) < Pow2(n)
  {
    Pow2Sum(m, n);
    QuotientBelow(x, Pow2(m), Pow2(n));
  }

  lemma SideBySide(hi: nat, lo: nat)
    requires hi < HALF && lo < HALF
    ensures ((hi * HALF) % WORD + lo) % WORD == hi * HALF + lo < WORD
    ensures (hi * HALF + lo) / HALF == hi && (hi * HALF + lo) % HALF == lo
  {
    RemainderIs(hi * HALF + lo, HALF, hi, lo);
  }

  class FastRandom {
    var seed: nat

    constructor (seed: nat)
      ensures this.seed == SetSeed(seed) && this.seed < M
    {
      XorTwice(seed, A, 48);
      Pow48();
      hide *;
      this.seed := SetSeed(seed);
    }

    /** The next state, and its top bits. */
    method Next(bits: nat) returns (r: nat)
      requires seed < M && bits <= 48
      modifies this
      ensures seed == Step(old(seed)) && seed < M
      ensures r == seed / Pow2(48 - bits) && r < Pow2(bits)
    {
      WrappingIsExact(seed);
      Pow48();
      hide Advance, Step, Pow2;
      seed := Advance(seed);
      TopBits(seed, 48 - bits, bits);
      r := seed / Pow2(48 - bits);
    }

    /** Two outputs of 32 bits side by side: nothing overflows and both can be
        read back. */
    method GetNext() returns (r: nat)
      requires seed < M
      modifies this
      ensures seed == Iterate(old(seed), 2) && seed < M
      ensures r < WORD
      ensures r / HALF == Iterate(old(seed), 1) / 65536 && r % HALF == Iterate(old(seed), 2) / 65536
    {
      ghost var x := seed;
      assert Iterate(x, 1) == Step(Iterate(x, 0)) && Iterate(x, 2) == Step(Iterate(x, 1));
      Pow48();
      hide Iterate, Step, Pow2;
      var hi := Next(32);
      var lo := Next(32);
      SideBySide(hi, lo);
      r := ((hi * HALF) % WORD + lo) % WORD;
    }
  }
}
