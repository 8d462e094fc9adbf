/** Share and block targets of miner/miner.py: 256-bit numbers as 32 bytes, least first. */
module Targets {
  import opened Bits

  const SIZE := 32

  /** `bit_length() - 1` */
  function Log2(d: nat): (k: nat)
    requires d > 0
  {
    if d == 1 then 0 else 1 + Log2(d / 2)
  }

  lemma {:induction false} Log2Is(d: nat)
    requires d > 0
    ensures Pow2(Log2(d)) <= d < 2 * Pow2(Log2(d))
  {
    if d > 1 {
      Log2Is(d / 2);
    }
  }

  // ---------------------------------------------------------------------------------------
  // Shifting bytes

  /** Every byte takes its low bits from the next one. */
  function Shifted(s: seq<nat>, k: nat): (r: seq<nat>)
    ensures |r| == |s|
  {
    if s == [] then []
    else [ShiftedByte(s[0], if |s| > 1 then s[1] else 0, k)] + Shifted(s[1..], k)
  }

  function ShiftedByte(lo: nat, hi: nat, k: nat): nat {
    And(Or(Shr(lo, k), if k <= 8 then Shl(hi, 8 - k) else 0), 0xFF)
  }

  lemma {:induction false} ShiftedAt(s: seq<nat>, k: nat, i: nat)
    requires i < |s|
    ensures Shifted(s, k)[i] == ShiftedByte(s[i], if i + 1 < |s| then s[i + 1] else 0, k)
  {
    if i > 0 {
      ShiftedAt(s[1..], k, i - 1);
    }
  }

  lemma PowersOfAByte(k: nat)
    requires 0 < k < 8
    ensures Pow2(k) * Pow2(8 - k) == 256
  {
    Pow2Sum(k, 8 - k);
    Pow256IsPow2(1);
    assert Pow256(0) == 1 && Pow256(1) == 256;
  }

  lemma ShiftedByteOf(lo: nat, hi: nat, k: nat)
    requires k <= 8
    ensures ShiftedByte(lo, hi, k) == And(Or(Quotient(lo, Pow2(k)), hi * Pow2(8 - k)), 0xFF)
  {
    hide Pow2, And, Or, Quotient;
  }

  lemma QuotientOf(a: nat, m: nat)
    requires m > 0
    ensures Quotient(a, m) == a / m
  {
  }

  /** The two parts of a shifted byte do not overlap, and the mask cuts off what the next byte keeps. */
  lemma ShiftedByteIs(lo: nat, hi: nat, k: nat)
    requires lo < 256 && 0 < k < 8
    ensures ShiftedByte(lo, hi, k) == lo / Pow2(k) + (hi % Pow2(k)) * Pow2(8 - k)
  {
    hide *;
    var p, q := Pow2(k), Pow2(8 - k);
    var x := Quotient(lo, p);
    ShiftedByteOf(lo, hi, k);
    QuotientOf(lo, p);
    PowersOfAByte(k);
    QuotientIsSmall(lo, p, q);
    OrIsSum(hi, 8 - k, x);
    OrSwaps(x, hi * q);
    MaskByte(x + hi * q);
    CarriedPart(x, hi, p, q);
  }

  lemma CarriedPart(x: nat, hi: nat, p: nat, q: nat)
    requires p > 0 && p * q == 256 && x < q
    ensures (x + hi * q) % 256 == x + (hi % p) * q
  {
    var h, g := hi % p, hi / p;
    assert hi * q == g * 256 + h * q by {
      assert hi == g * p + h;
      assert (g * p + h) * q == g * (p * q) + h * q;
    }
    assert h * q + q <= 256 by {
      MulRises(h + 1, p, q);
    }
    DivModIs(x + hi * q, 256, g, x + h * q);
  }

  lemma {:induction false} OrSwaps(a: nat, b: nat)
    ensures Or(a, b) == Or(b, a)
    decreases a + b
  {
    if a > 0 && b > 0 {
      OrSwaps(a / 2, b / 2);
    }
  }

  /** Shifting every byte shifts the number. */
  lemma {:induction false} ShiftedIsQuotient(s: seq<nat>, k: nat)
    requires AreBytes(s) && 0 < k < 8
    ensures Le(Shifted(s, k)) == Le(s) / Pow2(k)
  {
    if s == [] {
      assert Le([]) == 0 && Shifted([], k) == [];
      DivModIs(0, Pow2(k), 0, 0);
    } else {
      ShiftedIsQuotient(s[1..], k);
      LastBits(s, k);
      LeFirst(s);
      LeFirst(Shifted(s, k));
      assert Shifted(s, k)[1..] == Shifted(s[1..], k);
      ShiftedByteIs(s[0], if |s| > 1 then s[1] else 0, k);
      PowersOfAByte(k);
      hide *;
      OneMoreByte(s[0], Le(s[1..]), Pow2(k), Pow2(8 - k));
    }
  }

  /** The bits that move into the first byte are the low bits of the second. */
  lemma LastBits(s: seq<nat>, k: nat)
    requires s != [] && 0 < k < 8
    ensures Le(s[1..]) % Pow2(k) == (if |s| > 1 then s[1] else 0) % Pow2(k)
  {
    PowersOfAByte(k);
    if |s| > 1 {
      LeFirst(s[1..]);
      hide *;
      LowPart(Le(s[1..]), s[1], Le(s[1..][1..]), Pow2(k), Pow2(8 - k));
    } else {
      assert Le(s[1..]) == 0;
    }
  }

  lemma LowPart(v: nat, hi: nat, more: nat, p: nat, q: nat)
    requires p > 0 && p * q == 256 && v == hi + 256 * more
    ensures v % p == hi % p
  {
    assert v == (hi / p + q * more) * p + hi % p by {
      assert (q * more) * p == (p * q) * more;
      assert hi == (hi / p) * p + hi % p;
      assert (hi / p + q * more) * p == (hi / p) * p + (q * more) * p;
    }
    DivModIs(v, p, hi / p + q * more, hi % p);
  }

  lemma OneMoreByte(lo: nat, v: nat, p: nat, q: nat)
    requires p > 0 && p * q == 256
    ensures (lo + 256 * v) / p == (lo / p + (v % p) * q) + 256 * (v / p)
  {
    var a := lo / p + q * v;
    assert lo + 256 * v == a * p + lo % p by {
      assert (q * v) * p == (p * q) * v;
      assert lo == (lo / p) * p + lo % p;
      assert (lo / p + q * v) * p == (lo / p) * p + (q * v) * p;
    }
    DivModIs(lo + 256 * v, p, a, lo % p);
    assert q * v == (v % p) * q + 256 * (v / p) by {
      assert v == (v / p) * p + v % p;
      assert q * ((v / p) * p + v % p) == (p * q) * (v / p) + (v % p) * q;
    }
  }

  lemma LastShiftedByte(lo: nat, k: nat)
    requires lo < 256 && 0 < k < 8
    ensures ShiftedByte(lo, 0, k) == Shr(lo, k)
  {
    PowersOfAByte(k);
    ShiftedByteIs(lo, 0, k);
    var p := Pow2(k);
    DivModIs(0, p, 0, 0);
  }

  method ShiftInPlace(t: array<nat>, k: nat)
    requires t.Length > 0 && AreBytes(t[..]) && 0 < k < 8
    modifies t
    ensures t[..] == Shifted(old(t[..]), k)
  {
    ghost var was := t[..];
    var last := t.Length - 1;
    hide Shifted, ShiftedByte;
    for i := 0 to last
      invariant forall j | 0 <= j < i :: t[j] == Shifted(was, k)[j]
      invariant forall j | i <= j < t.Length :: t[j] == was[j]
    {
      ShiftedAt(was, k, i);
      ByteOf(t[i], t[i + 1], k);
      t[i] := And(Or(Shr(t[i], k), Shl(t[i + 1], 8 - k)), 0xFF);
    }
    ShiftedAt(was, k, last);
    LastShiftedByte(was[last], k);
    t[last] := Shr(t[last], k);
    assert t[..] == Shifted(was, k);
  }

  lemma ByteOf(lo: nat, hi: nat, k: nat)
    requires k <= 8
    ensures ShiftedByte(lo, hi, k) == And(Or(Shr(lo, k), Shl(hi, 8 - k)), 0xFF)
  {
  }

  /** The largest target: 28 bytes of ones. */
  ghost function Easiest(): nat { Pow2(224) - 1 }

  lemma OnesIs(s: seq<nat>)
    requires |s| == SIZE && (forall i | 0 <= i < 28 :: s[i] == 255) && forall i | 28 <= i < SIZE :: s[i] == 0
    ensures AreBytes(s) && Le(s) == Easiest()
  {
    LeOnes(s[..28]);
    LeZeros(s[28..]);
    hide Le, Pow2, Pow256;
    LeSplit(s, 28);
    Pow256IsPow2(28);
  }

  /** Dropping the low bytes divides by a power of 256. */
  lemma DropLow(s: seq<nat>, k: nat)
    requires AreBytes(s) && k <= |s|
    ensures Le(s[k..]) == Le(s) / Pow2(8 * k)
  {
    LeBound(s[..k]);
    hide Le, Pow2, Pow256;
    LeSplit(s, k);
    Pow256IsPow2(k);
    Divides(Le(s), Pow256(k), Le(s[k..]), Le(s[..k]));
  }

  lemma WithZeros(s: seq<nat>, zeros: seq<nat>)
    requires forall i | 0 <= i < |zeros| :: zeros[i] == 0
    ensures Le(s + zeros) == Le(s)
  {
    LeJoin(s, zeros);
    LeZeros(zeros);
  }

  /** The bytes of ones, moved down. */
  method StartTarget(byteShift: nat) returns (t: array<nat>)
    requires byteShift < SIZE
    ensures fresh(t) && t.Length == SIZE && AreBytes(t[..]) && Le(t[..]) == Easiest() / Pow2(8 * byteShift)
  {
    t := new nat[SIZE](i => if i < 28 then 255 else 0);
    OnesIs(t[..]);
    assert Pow2(0) == 1;
    hide Le, Easiest, Pow2;
    if byteShift > 0 {
      var zeros: seq<nat> := seq(byteShift, _ => 0);
      var moved := t[byteShift..] + zeros;
      DropLow(t[..], byteShift);
      WithZeros(t[byteShift..], zeros);
      assert t[..][byteShift..] == t[byteShift..];
      t := new nat[SIZE](i requires 0 <= i < |moved| => moved[i]);
      assert t[..] == moved;
    }
  }

  method ShareTarget(diff: nat) returns (target: seq<nat>)
    ensures |target| == SIZE && AreBytes(target)
    ensures Le(target) == Easiest() / Pow2(if diff > 0 then Log2(diff) else 0)
  {
    hide Le, Easiest, Pow2, Shifted, Log2, AreBytes, HardestAtOne;
    var bits := if diff > 0 then Log2(diff) else 0;
    if bits >= 224 {
      target := BitcoinTarget(diff);
      NothingLeft(diff);
      return;
    }
    var byteShift, bitShift := bits / 8, bits % 8;
    var t := StartTarget(byteShift);
    if bitShift > 0 {
      ShiftedIsQuotient(t[..], bitShift);
      ShiftedAreBytes(t[..], bitShift);
      ShiftInPlace(t, bitShift);
      Pow2Sum(8 * byteShift, bitShift);
      DivideTwice(Easiest(), Pow2(8 * byteShift), Pow2(bitShift));
    }
    target := t[..];
  }

  lemma {:induction false} ShiftedAreBytes(s: seq<nat>, k: nat)
    ensures AreBytes(Shifted(s, k))
  {
    if s != [] {
      ShiftedAreBytes(s[1..], k);
      var x := Or(Shr(s[0], k), if k <= 8 then Shl(if |s| > 1 then s[1] else 0, 8 - k) else 0);
      MaskByte(x);
    }
  }

  // ---------------------------------------------------------------------------------------
  // Long division

  const PARTS := [0, 0, 0, 0x00000000FFFF0000]

  function Part(i: nat): nat
    requires i < 4
  {
    PARTS[i]
  }

  /** The number the limbs from number `i` on make up. */
  function Upper(i: nat): nat
    requires i <= 4
    decreases 4 - i
  {
    if i == 4 then 0 else Upper(i + 1) * Pow2(64) + Part(i)
  }

  /** The block target at difficulty 1. */
  ghost function HardestAtOne(): nat { 0xFFFF * Pow2(208) }

  lemma UpperEnds()
    ensures Upper(4) == 0
  {
  }

  lemma PowersOfALimb()
    ensures Pow2(128) == Pow2(64) * Pow2(64) && Pow2(192) == Pow2(128) * Pow2(64) && Pow2(208) == Pow2(192) * 65536
  {
    hide Pow2;
    Pow2Sum(64, 64);
    Pow2Sum(128, 64);
    Pow2Sum(192, 16);
    SixteenBits();
  }

  lemma UpperIsAll()
    ensures Upper(0) == HardestAtOne()
  {
    hide Pow2, Upper;
    UpperEnds();
    UpperOf(3);
    UpperOf(2);
    UpperOf(1);
    UpperOf(0);
    PowersOfALimb();
    ThreeLimbsUp(Pow2(64), Upper(2), Upper(1), Upper(0), Pow2(128), Pow2(192));
  }

  lemma ThreeLimbsUp(p: nat, u2: nat, u1: nat, u0: nat, p2: nat, p3: nat)
    requires u2 == 0xFFFF0000 * p && u1 == u2 * p && u0 == u1 * p && p2 == p * p && p3 == p2 * p
    ensures u0 == 0xFFFF * (p3 * 65536)
  {
    Associates(0xFFFF0000, p, p);
    Associates(0xFFFF0000, p2, p);
  }

  lemma SixteenBits()
    ensures Pow2(16) == 65536
  {
    Pow256IsPow2(2);
    assert Pow256(0) == 1 && Pow256(1) == 256;
  }

  lemma LimbsFit()
    ensures Pow2(64) > 0xFFFF0000
  {
    Pow256IsPow2(8);
    assert Pow256(4) == 256 * (256 * Pow256(2));
    Pow256IsPow2(4);
    Pow2Rises(32, 64);
    assert Pow256(0) == 1 && Pow256(1) == 256 && Pow256(2) == 65536;
  }

  /** A limb of the quotient fits in 64 bits, as the remainder before it is below the divisor. */
  lemma LimbQuotient(rem: nat, part: nat, diff: nat, p: nat)
    requires rem < diff && part < p
    ensures (rem * p + part) / diff < p
  {
    assert rem * p + part < diff * p by {
      MulRises(rem + 1, diff, p);
      assert (rem + 1) * p == rem * p + p;
    }
    QuotientIsSmall(rem * p + part, diff, p);
  }

  lemma QuotientParts(a: nat, d: nat)
    requires d > 0
    ensures a == Quotient(a, d) * d + Remainder(a, d) && Remainder(a, d) < d
  {
  }

  /** A limb more of the number, a limb more of the quotient. */
  lemma DivisionStep(q: nat, rem: nat, part: nat, d: nat, p: nat, upper: nat)
    requires rem < d && part < p && q * d + rem == upper
    ensures var temp := rem * p + part;
      && Quotient(temp, d) < p && Remainder(temp, d) < d
      && (Quotient(temp, d) + p * q) * d + Remainder(temp, d) == upper * p + part
  {
    hide *;
    var temp := rem * p + part;
    LimbQuotient(rem, part, d, p);
    QuotientOf(temp, d);
    QuotientParts(temp, d);
    StepAdds(Quotient(temp, d), q, d, p, Remainder(temp, d), rem, part);
  }

  lemma StepAdds(quot: nat, q: nat, d: nat, p: nat, left: nat, rem: nat, part: nat)
    requires quot * d + left == rem * p + part
    ensures (quot + p * q) * d + left == (q * d + rem) * p + part
  {
    assert (quot + p * q) * d == quot * d + (p * q) * d;
    assert (q * d + rem) * p == (q * d) * p + rem * p;
    Associates(q, d, p);
    Associates(p, q, d);
    assert q * (d * p) == p * (q * d) by {
      Associates(q, d, p);
      assert (q * d) * p == p * (q * d);
    }
  }

  /** `(quot >> (j << 3)) & 0xFF` */
  function ByteNumber(quot: nat, j: nat): (b: nat)
    requires j < 8
    ensures b == Bytes(quot, 8)[j]
  {
    ByteAt(quot, 8, j);
    And(Shr(quot, 8 * j), 0xFF)
  }

  lemma LimbWritten(was: seq<nat>, now: seq<nat>, bytes: seq<nat>, at: nat)
    requires |was| == |now| == SIZE && |bytes| == 8 && at + 8 <= SIZE
    requires forall k | 0 <= k < 8 :: now[at + k] == bytes[k]
    requires forall k | at + 8 <= k < SIZE :: now[k] == was[k]
    ensures now[at..] == bytes + was[at + 8..]
  {
    forall k | 0 <= k < SIZE - at ensures now[at..][k] == (bytes + was[at + 8..])[k] {
      if k < 8 {
        assert now[at + k] == bytes[k];
      }
    }
  }

  /** `result[8 * i .. 8 * i + 8]` gets the bytes of the limb. */
  method WriteLimb(result: array<nat>, i: nat, quot: nat)
    requires result.Length == SIZE && i < 4
    modifies result
    ensures result[8 * i..] == Bytes(quot, 8) + old(result[8 * (i + 1)..])
  {
    ghost var was, bytes := result[..], Bytes(quot, 8);
    hide Bytes, AreBytes, ByteNumber;
    var at := 8 * i;
    for j := 0 to 8
      invariant forall k | 0 <= k < j :: result[at + k] == bytes[k]
      invariant forall k | at + j <= k < SIZE :: result[k] == was[k]
    {
      result[at + j] := ByteNumber(quot, j);
    }
    LimbWritten(was, result[..], bytes, at);
  }

  /** The bytes found so far are the quotient of the limbs from number `i` on, and `rem` is left. */
  ghost predicate DividedTo(i: nat, upper: seq<nat>, rem: nat, d: nat) {
    i <= 4 && rem < d && Le(upper) * d + rem == Upper(i)
  }

  /** What is divided for limb `i`. */
  function Temp(rem: nat, i: nat): nat
    requires i < 4
  {
    Or(Shl(rem, 64), Part(i))
  }

  lemma TempIs(rem: nat, i: nat)
    requires i < 4
    ensures Temp(rem, i) == rem * Pow2(64) + Part(i) && Part(i) < Pow2(64)
  {
    LimbsFit();
    OrIsSum(rem, 64, Part(i));
  }

  lemma LimbOfBytes(quot: nat, upper: seq<nat>, q: nat)
    requires quot < Pow2(64) && q == Le(upper)
    ensures Le(Bytes(quot, 8) + upper) == quot + Pow2(64) * q
  {
    Pow256IsPow2(8);
    hide *;
    BytesAreThere(quot, 8);
    LeJoin(Bytes(quot, 8), upper);
  }

  lemma UpperOf(i: nat)
    requires i < 4
    ensures Upper(i) == Upper(i + 1) * Pow2(64) + Part(i)
  {
  }

  /** One limb of the division. */
  lemma OneMoreLimb(upper: seq<nat>, rem: nat, i: nat, d: nat)
    requires i < 4 && d > 0 && DividedTo(i + 1, upper, rem, d)
    ensures DividedTo(i, Bytes(Quotient(Temp(rem, i), d), 8) + upper, Remainder(Temp(rem, i), d), d)
  {
    var q, u := WhatDividedToSays(upper, rem, i + 1, d);
    hide *;
    var quot, left := Quotient(Temp(rem, i), d), Remainder(Temp(rem, i), d);
    var whole := LimbOf(q, u, rem, i, d);
    LimbOfBytes(quot, upper, q);
    IsDividedTo(i, Bytes(quot, 8) + upper, left, d, whole);
  }

  lemma WhatDividedToSays(upper: seq<nat>, rem: nat, i: nat, d: nat) returns (q: nat, u: nat)
    requires DividedTo(i, upper, rem, d)
    ensures i <= 4 && rem < d && q == Le(upper) && u == Upper(i) && q * d + rem == u
  {
    q, u := Le(upper), Upper(i);
  }

  lemma IsDividedTo(i: nat, s: seq<nat>, rem: nat, d: nat, q: nat)
    requires i <= 4 && rem < d && q == Le(s) && q * d + rem == Upper(i)
    ensures DividedTo(i, s, rem, d)
  {
  }

  lemma LimbOf(q: nat, upper: nat, rem: nat, i: nat, d: nat) returns (whole: nat)
    requires i < 4 && rem < d && q * d + rem == upper == Upper(i + 1)
    ensures var quot, left := Quotient(Temp(rem, i), d), Remainder(Temp(rem, i), d);
      quot < Pow2(64) && left < d && whole == quot + Pow2(64) * q && whole * d + left == Upper(i)
  {
    hide *;
    TempIs(rem, i);
    UpperOf(i);
    DivisionStep(q, rem, Part(i), d, Pow2(64), upper);
    whole := Quotient(Temp(rem, i), d) + Pow2(64) * q;
  }

  lemma AllDivided(target: seq<nat>, rem: nat, d: nat)
    requires DividedTo(0, target, rem, d)
    ensures Le(target) == HardestAtOne() / d
  {
    UpperIsAll();
    DivModIs(Upper(0), d, Le(target), rem);
  }

  method DivideLimb(result: array<nat>, i: nat, rem: nat, d: nat) returns (left: nat)
    requires result.Length == SIZE && i < 4 && d > 0
    requires AreBytes(result[8 * (i + 1)..]) && DividedTo(i + 1, result[8 * (i + 1)..], rem, d)
    modifies result
    ensures AreBytes(result[8 * i..]) && DividedTo(i, result[8 * i..], left, d)
  {
    hide Pow2, Pow256, DividedTo, Bytes, Temp, Quotient, Remainder;
    OneMoreLimb(result[8 * (i + 1)..], rem, i, d);
    var temp := Temp(rem, i);
    WriteLimb(result, i, Quotient(temp, d));
    left := Remainder(temp, d);
  }

  method BitcoinTarget(diff: int) returns (target: seq<nat>)
    ensures |target| == SIZE && AreBytes(target)
    ensures Le(target) == HardestAtOne() / if diff < 1 then 1 else diff
  {
    var d: nat := if diff < 1 then 1 else diff;
    var rem: nat := 0;
    var result := new nat[SIZE](_ => 0);
    assert result[32..] == [];
    assert DividedTo(4, [], rem, d);
    hide HardestAtOne, DividedTo, AreBytes, Le;
    assert AreBytes([]);
    var i: nat := 4;
    while i > 0
      invariant i <= 4 && AreBytes(result[8 * i..]) && DividedTo(i, result[8 * i..], rem, d)
    {
      rem := DivideLimb(result, i - 1, rem, d);
      i := i - 1;
    }
    target := result[..];
    assert result[0..] == target;
    AllDivided(target, rem, d);
  }

  // ---------------------------------------------------------------------------------------
  // The two targets

  lemma AtMostQuotient(x: nat, n: nat, b: nat)
    requires n > 0 && x * n <= b
    ensures x <= b / n
  {
    var y := b / n;
    assert b < y * n + n && (y + 1) * n == y * n + n;
    if x > y {
      MulRises(y + 1, x, n);
    }
  }

  lemma SmallerQuotient(a: nat, b: nat, m: nat, n: nat)
    requires a <= b && 0 < n <= m
    ensures a / m <= b / n
  {
    var x := a / m;
    assert m * x <= a && m * x == x * m && n * x == x * n;
    MulRises(n, m, x);
    AtMostQuotient(x, n, b);
  }

  lemma OneIsSmaller()
    ensures HardestAtOne() <= Easiest()
  {
    Pow2Sum(16, 208);
    SixteenBits();
  }

  /** A share is never harder than a block. */
  lemma ShareIsEasier(diff: nat)
    requires diff >= 1
    ensures Easiest() / Pow2(Log2(diff)) >= HardestAtOne() / diff
  {
    Log2Is(diff);
    OneIsSmaller();
    hide Easiest, HardestAtOne, Log2, Pow2;
    SmallerQuotient(HardestAtOne(), Easiest(), diff, Pow2(Log2(diff)));
  }

  /** Past 2^224 both are zero, so the other rule may stand in. */
  lemma NothingLeft(diff: nat)
    requires diff > 0 && Log2(diff) >= 224
    ensures HardestAtOne() / diff == 0 == Easiest() / Pow2(Log2(diff))
  {
    Log2Is(diff);
    OneIsSmaller();
    Pow2Rises(224, Log2(diff));
    DivModIs(HardestAtOne(), diff, 0, HardestAtOne());
    DivModIs(Easiest(), Pow2(Log2(diff)), 0, Easiest());
  }

  lemma HigherDecides(a: nat, b: nat, p: nat, x: nat, y: nat)
    requires a < p && x < y
    ensures a + p * x < b + p * y
  {
    MulRises(x + 1, y, p);
    assert (x + 1) * p == p * x + p && y * p == p * y;
  }

  /** The first byte from the top that differs decides. */
  lemma TopByteDecides(a: seq<nat>, b: seq<nat>, i: nat)
    requires |a| == |b| && AreBytes(a) && AreBytes(b) && i < |a| && a[i + 1..] == b[i + 1..] && a[i] < b[i]
    ensures Le(a) < Le(b)
  {
    LeSplit(a, i);
    LeSplit(b, i);
    LeBound(a[..i]);
    assert a[i..][1..] == a[i + 1..] && b[i..][1..] == b[i + 1..];
    assert Le(a[i..]) < Le(b[i..]);
    hide Le, Pow256;
    HigherDecides(Le(a[..i]), Le(b[..i]), Pow256(i), Le(a[i..]), Le(b[i..]));
  }

  method Meets(hash: seq<nat>, target: seq<nat>) returns (ok: bool)
    requires |hash| == SIZE == |target| && AreBytes(hash) && AreBytes(target)
    ensures ok <==> Le(hash) <= Le(target)
  {
    hide AreBytes, Le;
    var i := SIZE;
    while i > 0
      invariant 0 <= i <= SIZE && hash[i..] == target[i..]
    {
      i := i - 1;
      if hash[i] < target[i] {
        TopByteDecides(hash, target, i);
        return true;
      }
      if hash[i] > target[i] {
        TopByteDecides(target, hash, i);
        return false;
      }
    }
    assert hash[0..] == hash && target[0..] == target;
    ok := true;
  }
}
