/**
  `polymod` of cloudflare/mcp/src/address.js: the checksum of BIP 173, section "Bech32", over
  32-bit patterns.
 */
module Checksum {

  /** A number below 32 as a 32-bit pattern. */
  function Pattern(n: nat): bv32 {
    if n == 0 then 0 else (Pattern(n / 2) << 1) | (if n % 2 == 1 then 1 else 0)
  }

  lemma {:induction false} PatternFits(n: nat)
    ensures n < 2 ==> Pattern(n) < 2
    ensures n < 4 ==> Pattern(n) < 4
    ensures n < 8 ==> Pattern(n) < 8
    ensures n < 16 ==> Pattern(n) < 16
    ensures n < 32 ==> Pattern(n) < 32
  {
    if n > 0 {
      PatternFits(n / 2);
    }
  }

  lemma SymbolFits(n: nat)
    requires n < 32
    ensures Pattern(n) < 32
  {
    PatternFits(n);
  }

  lemma SameHalves(a: bv32, b: bv32, x: bv32, y: bv32)
    requires a < 32 && b < 32 && x < 2 && y < 2 && (a << 1) | x == (b << 1) | y
    ensures a == b && x == y
  {
  }

  lemma {:induction false} PatternTells(m: nat, n: nat)
    requires m < 32 && n < 32 && Pattern(m) == Pattern(n)
    ensures m == n
    decreases m + n
  {
    if m > 0 || n > 0 {
      PatternFits(m / 2);
      PatternFits(n / 2);
      assert Pattern(0) == (Pattern(0) << 1) | 0;
      SameHalves(Pattern(m / 2), Pattern(n / 2), if m % 2 == 1 then 1 else 0, if n % 2 == 1 then 1 else 0);
      PatternTells(m / 2, n / 2);
    }
  }

  // The bit operations under names, so that a proof need look inside one only where it must.

  function Xor(x: bv32, y: bv32): bv32 { x ^ y }

  function Top(c: bv32): bv32 { c >> 25 }

  function Lifted(c: bv32): bv32 { (c & 0x1ffffff) << 5 }

  function Low(c: bv32): bv32 { c & 31 }

  /** `GEN[i]` */
  function Gen(i: nat): bv32 {
    if i == 0 then 0x3b6a57b2 else if i == 1 then 0x26508e6d else if i == 2 then 0x1ea119fa
    else if i == 3 then 0x3d4233dd else 0x2a1462b3
  }

  /** `(top >>> i) & 1` */
  predicate BitOf(top: bv32, i: nat) {
    (if i == 0 then top else if i == 1 then top >> 1 else if i == 2 then top >> 2 else if i == 3 then top >> 3 else top >> 4) & 1 == 1
  }

  function FoldOne(chk: bv32, top: bv32, i: nat): bv32 {
    if BitOf(top, i) then Xor(chk, Gen(i)) else chk
  }

  /** The generators of the bits set in `top`, folded into `chk`. */
  function Folded(chk: bv32, top: bv32): bv32 {
    FoldOne(FoldOne(FoldOne(FoldOne(FoldOne(chk, top, 0), top, 1), top, 2), top, 3), top, 4)
  }

  function Step(chk: bv32, v: bv32): bv32 { Folded(Xor(Lifted(chk), v), Top(chk)) }

  function Polymod(values: seq<nat>): bv32 {
    if values == [] then 1 else Step(Polymod(values[..|values| - 1]), Pattern(values[|values| - 1]))
  }

  method FoldIn(start: bv32, top: bv32) returns (chk: bv32)
    ensures chk == Folded(start, top)
  {
    hide Xor, BitOf, Gen;
    ghost var c1 := FoldOne(start, top, 0);
    ghost var c2 := FoldOne(c1, top, 1);
    ghost var c3 := FoldOne(c2, top, 2);
    ghost var c4 := FoldOne(c3, top, 3);
    chk := start;
    for i := 0 to 5
      invariant chk == if i == 0 then start else if i == 1 then c1 else if i == 2 then c2 else if i == 3 then c3
                       else if i == 4 then c4 else FoldOne(c4, top, 4)
    {
      if BitOf(top, i) {
        chk := Xor(chk, Gen(i));
      }
    }
  }

  method ComputePolymod(values: seq<nat>) returns (chk: bv32)
    ensures chk == Polymod(values)
  {
    hide Folded, Pattern, Xor, Lifted, Top;
    chk := 1;
    for k := 0 to |values|
      invariant chk == Polymod(values[..k])
    {
      assert values[..k + 1][..k] == values[..k];
      chk := FoldIn(Xor(Lifted(chk), Pattern(values[k])), Top(chk));
    }
    assert values[..|values|] == values;
  }

  // ---------------------------------------------------------------------------------------
  // One step

  const LIMIT: bv32 := 0x40000000

  lemma XorMoves(x: bv32, y: bv32, g: bv32)
    ensures Xor(Xor(x, y), g) == Xor(x, Xor(y, g))
  {
  }

  lemma XorCancels(x: bv32, y: bv32, g: bv32)
    ensures Xor(x, g) == Xor(y, g) ==> x == y
    ensures Xor(g, x) == Xor(g, y) ==> x == y
  {
  }

  lemma XorNothing(x: bv32)
    ensures Xor(x, 0) == x
  {
  }

  lemma FoldOneIsXor(chk: bv32, mixed: bv32, top: bv32, i: nat)
    ensures FoldOne(Xor(chk, mixed), top, i) == Xor(chk, FoldOne(mixed, top, i))
  {
    hide BitOf, Gen, Xor;
    XorMoves(chk, mixed, Gen(i));
  }

  /** Folding adds the same pattern to every state. */
  lemma FoldedIsXor(chk: bv32, top: bv32)
    ensures Folded(chk, top) == Xor(chk, Folded(0, top))
  {
    hide FoldOne, Xor;
    var m1 := FoldOne(0, top, 0);
    var m2 := FoldOne(m1, top, 1);
    var m3 := FoldOne(m2, top, 2);
    var m4 := FoldOne(m3, top, 3);
    XorNothing(chk);
    FoldOneIsXor(chk, 0, top, 0);
    FoldOneIsXor(chk, m1, top, 1);
    FoldOneIsXor(chk, m2, top, 2);
    FoldOneIsXor(chk, m3, top, 3);
    FoldOneIsXor(chk, m4, top, 4);
  }

  /** The low bits of what is folded in tell which generators were. */
  lemma MixedTells(a: bv32, b: bv32)
    requires a < 32 && b < 32 && Low(Folded(0, a)) == Low(Folded(0, b))
    ensures a == b
  {
  }

  lemma LowBits(c: bv32, v: bv32, g: bv32)
    ensures Low(Xor(Xor(Lifted(c), v), g)) == Xor(Low(v), Low(g))
  {
  }

  lemma PartsTell(c: bv32, d: bv32)
    requires c < LIMIT && d < LIMIT && Top(c) == Top(d) && Lifted(c) == Lifted(d)
    ensures c == d
  {
  }

  lemma TopIsSmall(c: bv32)
    requires c < LIMIT
    ensures Top(c) < 32
  {
  }

  lemma StepIs(c: bv32, v: bv32)
    ensures Step(c, v) == Xor(Xor(Lifted(c), v), Folded(0, Top(c)))
  {
    hide Folded, Xor, Lifted, Top;
    FoldedIsXor(Xor(Lifted(c), v), Top(c));
  }

  /** One symbol never makes two states one. */
  lemma StepTells(c: bv32, d: bv32, v: bv32)
    requires c < LIMIT && d < LIMIT && Step(c, v) == Step(d, v)
    ensures c == d
  {
    hide Step, Folded, Xor, Lifted, Top, Low;
    StepIs(c, v);
    StepIs(d, v);
    var f, g := Folded(0, Top(c)), Folded(0, Top(d));
    LowBits(c, v, f);
    LowBits(d, v, g);
    XorCancels(Low(f), Low(g), Low(v));
    TopIsSmall(c);
    TopIsSmall(d);
    MixedTells(Top(c), Top(d));
    XorCancels(Xor(Lifted(c), v), Xor(Lifted(d), v), f);
    XorCancels(Lifted(c), Lifted(d), v);
    PartsTell(c, d);
  }

  /** Two symbols never take one state to the same state. */
  lemma SymbolTells(c: bv32, v: bv32, w: bv32)
    requires Step(c, v) == Step(c, w)
    ensures v == w
  {
    hide Step, Folded, Xor, Lifted, Top;
    StepIs(c, v);
    StepIs(c, w);
    XorCancels(Xor(Lifted(c), v), Xor(Lifted(c), w), Folded(0, Top(c)));
    XorCancels(v, w, Lifted(c));
  }

  lemma PartsFit(c: bv32, v: bv32, g: bv32)
    requires v < 32 && g < LIMIT
    ensures Xor(Xor(Lifted(c), v), g) < LIMIT
  {
  }

  lemma GenFits(i: nat)
    ensures Gen(i) < LIMIT
  {
  }

  lemma XorFits(x: bv32, y: bv32)
    requires x < LIMIT && y < LIMIT
    ensures Xor(x, y) < LIMIT
  {
  }

  lemma FoldFits(chk: bv32, top: bv32, i: nat)
    requires chk < LIMIT
    ensures FoldOne(chk, top, i) < LIMIT
  {
    hide Gen, Xor, BitOf;
    GenFits(i);
    XorFits(chk, Gen(i));
  }

  lemma MixedFits(top: bv32)
    ensures Folded(0, top) < LIMIT
  {
    hide FoldOne;
    var c1 := FoldOne(0, top, 0);
    var c2 := FoldOne(c1, top, 1);
    var c3 := FoldOne(c2, top, 2);
    var c4 := FoldOne(c3, top, 3);
    FoldFits(0, top, 0);
    FoldFits(c1, top, 1);
    FoldFits(c2, top, 2);
    FoldFits(c3, top, 3);
    FoldFits(c4, top, 4);
  }

  /** The state stays in 30 bits. */
  lemma StepFits(c: bv32, v: bv32)
    requires v < 32
    ensures Step(c, v) < LIMIT
  {
    hide Step, Folded, Xor, Lifted, Top;
    StepIs(c, v);
    MixedFits(Top(c));
    PartsFit(c, v, Folded(0, Top(c)));
  }

  predicate AreSymbols(values: seq<nat>) { forall i | 0 <= i < |values| :: values[i] < 32 }

  lemma PolymodFits(values: seq<nat>)
    requires AreSymbols(values)
    ensures Polymod(values) < LIMIT
  {
    hide Step, Pattern;
    if values != [] {
      var last := values[|values| - 1];
      PatternFits(last);
      StepFits(Polymod(values[..|values| - 1]), Pattern(last));
    }
  }

  // ---------------------------------------------------------------------------------------
  // Whole strings

  /** `a` and `b` differ at `k` and nowhere else. */
  ghost predicate DifferAt(a: seq<nat>, b: seq<nat>, k: nat) {
    k < |a| == |b| && a[k] != b[k] && forall i | 0 <= i < |a| && i != k :: a[i] == b[i]
  }

  lemma LastSymbol(values: seq<nat>)
    requires values != []
    ensures Polymod(values) == Step(Polymod(values[..|values| - 1]), Pattern(values[|values| - 1]))
  {
  }

  /** No two strings that differ in one symbol share a checksum. */
  lemma {:induction false} OneErrorIsSeen(a: seq<nat>, b: seq<nat>, k: nat)
    requires AreSymbols(a) && AreSymbols(b) && DifferAt(a, b, k)
    ensures Polymod(a) != Polymod(b)
    decreases |a|
  {
    hide Step, Pattern, Polymod;
    var n := |a| - 1;
    PolymodFits(a[..n]);
    PolymodFits(b[..n]);
    LastSymbol(a);
    LastSymbol(b);
    if Polymod(a) == Polymod(b) {
      if k == n {
        assert a[..n] == b[..n];
        SymbolTells(Polymod(a[..n]), Pattern(a[n]), Pattern(b[n]));
        PatternTells(a[n], b[n]);
      } else {
        OneErrorIsSeen(a[..n], b[..n], k);
        StepTells(Polymod(a[..n]), Polymod(b[..n]), Pattern(a[n]));
      }
    }
  }

  /** 2 to the power `5 * k` */
  function Lim(k: nat): bv32 {
    if k == 0 then 1 else if k == 1 then 0x20 else if k == 2 then 0x400 else if k == 3 then 0x8000
    else if k == 4 then 0x100000 else if k == 5 then 0x2000000 else 0x40000000
  }

  lemma NearTops(x: bv32, y: bv32, k: nat)
    requires k <= 5 && Xor(x, y) < Lim(k)
    ensures Top(x) == Top(y)
  {
  }

  lemma XorSwaps(x: bv32, y: bv32)
    ensures Xor(x, y) == Xor(y, x)
  {
  }

  lemma XorDrops(x: bv32, y: bv32, f: bv32)
    ensures Xor(Xor(x, f), Xor(y, f)) == Xor(x, y)
  {
    hide Xor;
    XorMoves(x, f, Xor(y, f));
    XorSwaps(f, Xor(y, f));
    XorMoves(y, f, f);
    XorItself(f, f);
    XorNothing(y);
  }

  lemma XorPairs(a: bv32, b: bv32, v: bv32, w: bv32)
    ensures Xor(Xor(a, v), Xor(b, w)) == Xor(Xor(a, b), Xor(v, w))
  {
    hide Xor;
    XorMoves(a, v, Xor(b, w));
    XorMoves(v, b, w);
    XorSwaps(v, b);
    XorMoves(b, v, w);
    XorMoves(a, b, Xor(v, w));
  }

  lemma DifferenceGrows(x: bv32, y: bv32, v: bv32, w: bv32, k: nat)
    requires x < LIMIT && y < LIMIT && v < 32 && w < 32 && k <= 5 && Xor(x, y) < Lim(k)
    ensures var d := Xor(Xor(Lifted(x), Lifted(y)), Xor(v, w));
      d < Lim(k + 1) && (d == 0 ==> x == y && v == w)
  {
  }

  /** While the states differ in their lowest bits only, a difference moves up and cannot vanish. */
  lemma NearStep(x: bv32, y: bv32, v: bv32, w: bv32, k: nat)
    requires x < LIMIT && y < LIMIT && v < 32 && w < 32 && k <= 5 && Xor(x, y) < Lim(k)
    ensures Xor(Step(x, v), Step(y, w)) < Lim(k + 1)
    ensures Step(x, v) == Step(y, w) ==> x == y && v == w
  {
    hide Step, Folded, Xor, Lifted, Top, Lim;
    StepIs(x, v);
    StepIs(y, w);
    NearTops(x, y, k);
    XorDrops(Xor(Lifted(x), v), Xor(Lifted(y), w), Folded(0, Top(x)));
    XorPairs(Lifted(x), Lifted(y), v, w);
    DifferenceGrows(x, y, v, w, k);
    XorItself(Step(x, v), Step(y, w));
  }

  lemma XorItself(x: bv32, y: bv32)
    ensures x == y ==> Xor(x, y) == 0
  {
  }

  lemma StartsAlike(x: bv32)
    ensures Xor(x, x) < Lim(0)
  {
  }

  lemma OneMoreSymbol(p: seq<nat>, c: seq<nat>)
    requires c != []
    ensures var n := |c| - 1; Polymod(p + c) == Step(Polymod(p + c[..n]), Pattern(c[n]))
  {
    hide Step, Pattern;
    assert (p + c)[..|p + c| - 1] == p + c[..|c| - 1];
  }

  lemma JoinedFits(p: seq<nat>, c: seq<nat>)
    requires AreSymbols(p) && AreSymbols(c)
    ensures Polymod(p + c) < LIMIT
  {
    PolymodFits(p + c);
  }

  lemma SameEnds(c: seq<nat>, d: seq<nat>, n: nat)
    requires |c| == n + 1 == |d| && c[..n] == d[..n] && c[n] == d[n]
    ensures c == d
  {
    assert c == c[..n] + [c[n]] && d == d[..n] + [d[n]];
  }

  /** Up to six symbols from one state: the states they reach differ in the lowest bits only. */
  lemma {:induction false} EndsNear(p: seq<nat>, c: seq<nat>, d: seq<nat>)
    requires AreSymbols(p) && AreSymbols(c) && AreSymbols(d) && |c| == |d| <= 6
    ensures Xor(Polymod(p + c), Polymod(p + d)) < Lim(|c|)
    decreases |c|
  {
    hide Polymod, Xor, Lim, Step, Pattern;
    if c == [] {
      assert c == d;
      StartsAlike(Polymod(p + c));
    } else {
      var n := |c| - 1;
      EndsNear(p, c[..n], d[..n]);
      OneMoreSymbol(p, c);
      OneMoreSymbol(p, d);
      JoinedFits(p, c[..n]);
      JoinedFits(p, d[..n]);
      SymbolFits(c[n]);
      SymbolFits(d[n]);
      NearStep(Polymod(p + c[..n]), Polymod(p + d[..n]), Pattern(c[n]), Pattern(d[n]), n);
    }
  }

  /** A payload has one checksum: one choice of six symbols brings the state to a given value. */
  lemma {:induction false} ChecksumIsUnique(p: seq<nat>, c: seq<nat>, d: seq<nat>)
    requires AreSymbols(p) && AreSymbols(c) && AreSymbols(d) && |c| == |d| <= 6
    requires Polymod(p + c) == Polymod(p + d)
    ensures c == d
    decreases |c|
  {
    hide Polymod, Xor, Lim, Step, Pattern;
    if c != [] {
      var n := |c| - 1;
      OneMoreSymbol(p, c);
      OneMoreSymbol(p, d);
      JoinedFits(p, c[..n]);
      JoinedFits(p, d[..n]);
      SymbolFits(c[n]);
      SymbolFits(d[n]);
      EndsNear(p, c[..n], d[..n]);
      NearStep(Polymod(p + c[..n]), Polymod(p + d[..n]), Pattern(c[n]), Pattern(d[n]), n);
      PatternTells(c[n], d[n]);
      ChecksumIsUnique(p, c[..n], d[..n]);
      SameEnds(c, d, n);
    }
  }
}
