/**
  What the checksum computes: over the field of 32 elements, the remainder modulo the generator
  polynomial of BIP 173, section "Checksum design". The field and the polynomial are given here by
  themselves; `Step` and its generators turn out to be one step of that division.
 */
module Bech32Field {
  import opened Checksum

  // ---------------------------------------------------------------------------------------
  // The field

  /** Times x, modulo x^5 + x^3 + 1. */
  function Double(a: bv32): bv32 { if a & 16 == 16 then ((a << 1) & 31) ^ 9 else a << 1 }

  /** `a` where bit `i` of `b` is set, or nothing. */
  function Part(a: bv32, b: bv32, i: nat): bv32 { if BitOf(b, i) then a else 0 }

  /** The product: `a` times each power of x that `b` has. */
  function Times(a: bv32, b: bv32): bv32 {
    var a1 := Double(a);
    var a2 := Double(a1);
    var a3 := Double(a2);
    Xor(Xor(Xor(Xor(Part(a, b, 0), Part(a1, b, 1)), Part(a2, b, 2)), Part(a3, b, 3)), Part(Double(a3), b, 4))
  }

  // One fact of bit arithmetic at a time.

  lemma LowestBits(b: bv32, c: bv32)
    ensures (b ^ c) & 1 == 1 <==> (b & 1 == 1) != (c & 1 == 1)
  {
  }

  lemma SecondBits(b: bv32, c: bv32)
    ensures ((b ^ c) >> 1) & 1 == 1 <==> ((b >> 1) & 1 == 1) != ((c >> 1) & 1 == 1)
  {
  }

  lemma ThirdBits(b: bv32, c: bv32)
    ensures ((b ^ c) >> 2) & 1 == 1 <==> ((b >> 2) & 1 == 1) != ((c >> 2) & 1 == 1)
  {
  }

  lemma FourthBits(b: bv32, c: bv32)
    ensures ((b ^ c) >> 3) & 1 == 1 <==> ((b >> 3) & 1 == 1) != ((c >> 3) & 1 == 1)
  {
  }

  lemma FifthBits(b: bv32, c: bv32)
    ensures ((b ^ c) >> 4) & 1 == 1 <==> ((b >> 4) & 1 == 1) != ((c >> 4) & 1 == 1)
  {
  }

  lemma BitsAdd(b: bv32, c: bv32, i: nat)
    ensures BitOf(Xor(b, c), i) <==> BitOf(b, i) != BitOf(c, i)
  {
    if i == 0 {
      LowestBits(b, c);
    } else if i == 1 {
      SecondBits(b, c);
    } else if i == 2 {
      ThirdBits(b, c);
    } else if i == 3 {
      FourthBits(b, c);
    } else {
      FifthBits(b, c);
    }
  }

  lemma PartsAdd(a: bv32, b: bv32, c: bv32, i: nat)
    ensures Part(a, Xor(b, c), i) == Xor(Part(a, b, i), Part(a, c, i))
  {
    hide BitOf, Xor;
    BitsAdd(b, c, i);
    XorNothing(a);
    XorNothing(0);
    XorSwaps(a, 0);
    XorItself(a, a);
  }

  /** Products are taken bit by bit: they distribute over the sum. */
  lemma TimesDistributes(a: bv32, b: bv32, c: bv32)
    ensures Times(a, Xor(b, c)) == Xor(Times(a, b), Times(a, c))
  {
    hide Xor, Part, Double;
    var a1 := Double(a);
    var a2 := Double(a1);
    var a3 := Double(a2);
    var a4 := Double(a3);
    PartsAdd(a, b, c, 0);
    PartsAdd(a1, b, c, 1);
    PartsAdd(a2, b, c, 2);
    PartsAdd(a3, b, c, 3);
    PartsAdd(a4, b, c, 4);
    FiveSums(Part(a, b, 0), Part(a1, b, 1), Part(a2, b, 2), Part(a3, b, 3), Part(a4, b, 4),
             Part(a, c, 0), Part(a1, c, 1), Part(a2, c, 2), Part(a3, c, 3), Part(a4, c, 4));
  }

  lemma FiveSums(p: bv32, q: bv32, r: bv32, s: bv32, t: bv32, u: bv32, v: bv32, w: bv32, x: bv32, y: bv32)
    ensures Xor(Xor(Xor(Xor(Xor(p, u), Xor(q, v)), Xor(r, w)), Xor(s, x)), Xor(t, y))
         == Xor(Xor(Xor(Xor(Xor(p, q), r), s), t), Xor(Xor(Xor(Xor(u, v), w), x), y))
  {
    hide Xor;
    XorPairs(p, q, u, v);
    XorPairs(Xor(p, q), r, Xor(u, v), w);
    XorPairs(Xor(Xor(p, q), r), s, Xor(Xor(u, v), w), x);
    XorPairs(Xor(Xor(Xor(p, q), r), s), t, Xor(Xor(Xor(u, v), w), x), y);
    XorPairs(p, u, q, v);
    XorPairs(Xor(p, q), Xor(u, v), r, w);
    XorPairs(Xor(Xor(p, q), r), Xor(Xor(u, v), w), s, x);
    XorPairs(Xor(Xor(Xor(p, q), r), s), Xor(Xor(Xor(u, v), w), x), t, y);
  }

  /** 1 leaves every element as it is. */
  lemma TimesOne(a: bv32)
    ensures Times(a, 1) == a
  {
    hide Double, Xor;
    XorNothing(a);
  }

  // ---------------------------------------------------------------------------------------
  // One step of the division

  /** The element that is the coefficient of x^k in a state. */
  function Coef(c: bv32, k: nat): bv32 {
    if k == 0 then c & 31 else if k == 1 then (c >> 5) & 31 else if k == 2 then (c >> 10) & 31
    else if k == 3 then (c >> 15) & 31 else if k == 4 then (c >> 20) & 31 else (c >> 25) & 31
  }

  /** The coefficient of x^k in the generator polynomial, which begins with x^6. */
  function Generator(k: nat): bv32 {
    if k == 0 then 18 else if k == 1 then 29 else if k == 2 then 21 else if k == 3 then 20 else if k == 4 then 22 else 29
  }

  lemma SumAtZero(c: bv32, d: bv32)
    ensures (c ^ d) & 31 == (c & 31) ^ (d & 31)
  {
  }

  lemma SumAtOne(c: bv32, d: bv32)
    ensures ((c ^ d) >> 5) & 31 == ((c >> 5) & 31) ^ ((d >> 5) & 31)
  {
  }

  lemma SumAtTwo(c: bv32, d: bv32)
    ensures ((c ^ d) >> 10) & 31 == ((c >> 10) & 31) ^ ((d >> 10) & 31)
  {
  }

  lemma SumAtThree(c: bv32, d: bv32)
    ensures ((c ^ d) >> 15) & 31 == ((c >> 15) & 31) ^ ((d >> 15) & 31)
  {
  }

  lemma SumAtFour(c: bv32, d: bv32)
    ensures ((c ^ d) >> 20) & 31 == ((c >> 20) & 31) ^ ((d >> 20) & 31)
  {
  }

  lemma SumAtFive(c: bv32, d: bv32)
    ensures ((c ^ d) >> 25) & 31 == ((c >> 25) & 31) ^ ((d >> 25) & 31)
  {
  }

  lemma CoefOfSum(c: bv32, d: bv32, k: nat)
    ensures Coef(Xor(c, d), k) == Xor(Coef(c, k), Coef(d, k))
  {
    if k == 0 {
      SumAtZero(c, d);
    } else if k == 1 {
      SumAtOne(c, d);
    } else if k == 2 {
      SumAtTwo(c, d);
    } else if k == 3 {
      SumAtThree(c, d);
    } else if k == 4 {
      SumAtFour(c, d);
    } else {
      SumAtFive(c, d);
    }
  }

  lemma LiftedAtZero(c: bv32, v: bv32)
    requires v < 32
    ensures (((c & 0x1ffffff) << 5) ^ v) & 31 == v
  {
  }

  lemma LiftedAtOne(c: bv32, v: bv32)
    requires v < 32
    ensures ((((c & 0x1ffffff) << 5) ^ v) >> 5) & 31 == c & 31
  {
  }

  lemma LiftedAtTwo(c: bv32, v: bv32)
    requires v < 32
    ensures ((((c & 0x1ffffff) << 5) ^ v) >> 10) & 31 == (c >> 5) & 31
  {
  }

  lemma LiftedAtThree(c: bv32, v: bv32)
    requires v < 32
    ensures ((((c & 0x1ffffff) << 5) ^ v) >> 15) & 31 == (c >> 10) & 31
  {
  }

  lemma LiftedAtFour(c: bv32, v: bv32)
    requires v < 32
    ensures ((((c & 0x1ffffff) << 5) ^ v) >> 20) & 31 == (c >> 15) & 31
  {
  }

  lemma LiftedAtFive(c: bv32, v: bv32)
    requires v < 32
    ensures ((((c & 0x1ffffff) << 5) ^ v) >> 25) & 31 == (c >> 20) & 31
  {
  }

  lemma CoefOfLifted(c: bv32, v: bv32, k: nat)
    requires v < 32 && k <= 5
    ensures Coef(Xor(Lifted(c), v), k) == if k == 0 then v else Coef(c, k - 1)
  {
    if k == 0 {
      LiftedAtZero(c, v);
    } else if k == 1 {
      LiftedAtOne(c, v);
    } else if k == 2 {
      LiftedAtTwo(c, v);
    } else if k == 3 {
      LiftedAtThree(c, v);
    } else if k == 4 {
      LiftedAtFour(c, v);
    } else {
      LiftedAtFive(c, v);
    }
  }

  /** The generators hold the products of the powers of x with the generator polynomial. */
  lemma GeneratorsAre(i: nat, k: nat)
    requires i < 5 && k <= 5
    ensures Coef(Gen(i), k) ==
      var a := Generator(k);
      if i == 0 then a else if i == 1 then Double(a) else if i == 2 then Double(Double(a))
      else if i == 3 then Double(Double(Double(a))) else Double(Double(Double(Double(a))))
  {
  }

  lemma CoefOfFold(c: bv32, t: bv32, i: nat, k: nat)
    requires i < 5 && k <= 5
    ensures Coef(FoldOne(c, t, i), k) == Xor(Coef(c, k), Part(Coef(Gen(i), k), t, i))
  {
    hide Gen, Coef, BitOf;
    CoefOfSum(c, Gen(i), k);
    XorNothing(Coef(c, k));
  }

  /** What is folded in is the top coefficient times the generator polynomial. */
  lemma FoldedIsProduct(t: bv32, k: nat)
    requires k <= 5
    ensures Coef(Folded(0, t), k) == Times(Generator(k), t)
  {
    hide Gen, Xor, Part, Double, Generator, FoldOne;
    var c1 := FoldOne(0, t, 0);
    var c2 := FoldOne(c1, t, 1);
    var c3 := FoldOne(c2, t, 2);
    var c4 := FoldOne(c3, t, 3);
    CoefOfFold(0, t, 0, k);
    CoefOfFold(c1, t, 1, k);
    CoefOfFold(c2, t, 2, k);
    CoefOfFold(c3, t, 3, k);
    CoefOfFold(c4, t, 4, k);
    GeneratorsAre(0, k);
    GeneratorsAre(1, k);
    GeneratorsAre(2, k);
    GeneratorsAre(3, k);
    GeneratorsAre(4, k);
    assert Coef(0, k) == 0;
    hide Coef;
    XorSwaps(0, Part(Coef(Gen(0), k), t, 0));
    XorNothing(Part(Coef(Gen(0), k), t, 0));
  }

  lemma TopIsCoef(c: bv32)
    requires c < LIMIT
    ensures Top(c) == Coef(c, 5)
  {
  }

  /**
    A step is multiplication by x, plus the symbol, modulo the generator polynomial
    x^6 + 29x^5 + 22x^4 + 20x^3 + 21x^2 + 29x + 18: the coefficients move up, and the one that comes to
    x^6 is taken away with its multiple of the polynomial.
   */
  lemma StepDivides(c: bv32, v: bv32, k: nat)
    requires c < LIMIT && v < 32 && k <= 5
    ensures Coef(Step(c, v), k) ==
      Xor(if k == 0 then v else Coef(c, k - 1),
          Times(if k == 5 then 29 else if k == 4 then 22 else if k == 3 then 20 else if k == 2 then 21 else if k == 1 then 29 else 18, Coef(c, 5)))
  {
    hide Step, Folded, Xor, Lifted, Top, Coef, Times;
    StepIs(c, v);
    CoefOfSum(Xor(Lifted(c), v), Folded(0, Top(c)), k);
    CoefOfLifted(c, v, k);
    FoldedIsProduct(Top(c), k);
    TopIsCoef(c);
  }

  /** The six coefficients are the whole state. */
  lemma CoefsTell(c: bv32, d: bv32)
    requires c < LIMIT && d < LIMIT
    requires Coef(c, 0) == Coef(d, 0) && Coef(c, 1) == Coef(d, 1) && Coef(c, 2) == Coef(d, 2)
    requires Coef(c, 3) == Coef(d, 3) && Coef(c, 4) == Coef(d, 4) && Coef(c, 5) == Coef(d, 5)
    ensures c == d
  {
  }
}
