/**
  `convertBits` of cloudflare/mcp/src/address.js from 5 to 8 bits, with JavaScript's 32-bit
  operators: what it makes of the accumulator's wrapping around is what unbounded numbers give.
 */
module Regroup {
  import opened Prelude
  import opened Bits

  // ---------------------------------------------------------------------------------------
  // JavaScript's bit operators

  const TWO32 := 0x1_0000_0000

  function ToUint32(x: int): nat { x % TWO32 }

  function ToInt32(x: int): int {
    if ToUint32(x) >= 0x8000_0000 then ToUint32(x) - TWO32 else ToUint32(x)
  }

  function JsShl(a: int, k: nat): int { ToInt32(ToInt32(a) * Pow2(k)) }

  /** `>>` keeps the sign: it rounds down. */
  function JsSar(a: int, k: nat): int { ToInt32(a) / Pow2(k) }

  function JsOr(a: int, b: int): int { ToInt32(Or(ToUint32(a), ToUint32(b))) }

  function JsAnd(a: int, b: int): int { ToInt32(And(ToUint32(a), ToUint32(b))) }

  // ---------------------------------------------------------------------------------------
  // What the conversion means

  predicate AreGroups(data: seq<nat>) { forall i | 0 <= i < |data| :: data[i] < 32 }

  /** The 5-bit groups one after the other, as one number. */
  function Joined(data: seq<nat>): nat {
    if data == [] then 0 else 32 * Joined(data[..|data| - 1]) + data[|data| - 1]
  }

  /** The `n` lowest bytes of a number, highest first. */
  function BigEndian(q: nat, n: nat): (s: seq<nat>)
    ensures |s| == n && AreBytes(s)
  {
    if n == 0 then [] else BigEndian(q / 256, n - 1) + [q % 256]
  }

  /** The bytes of the joined groups, when fewer than 5 bits are left over and these are zero. */
  function Regrouped(data: seq<nat>): Option<seq<nat>> {
    var bits, whole := 5 * |data| % 8, 5 * |data| / 8;
    if bits >= 5 || Joined(data) % Pow2(bits) != 0 then None
    else Some(BigEndian(Shr(Joined(data), bits), whole))
  }

  // ---------------------------------------------------------------------------------------
  // The accumulator

  /** `acc` stands for `n`: they agree in 32 bits. */
  predicate StandsFor(acc: int, n: nat) { acc % TWO32 == n % TWO32 }

  lemma WrapsOnce(x: int)
    ensures ToInt32(x) % TWO32 == x % TWO32
  {
  }

  lemma SameRemainder(a: int, b: int, k: int, m: int)
    requires m > 0 && a == b + k * m
    ensures a % m == b % m
  {
    DivModIs(a, m, b / m + k, b % m);
  }

  lemma Differ(a: int, b: int, m: int) returns (k: int)
    requires m > 0 && a % m == b % m
    ensures a == b + k * m
  {
    k := a / m - b / m;
    assert a == (a / m) * m + a % m && b == (b / m) * m + b % m;
    assert (a / m - b / m) * m == (a / m) * m - (b / m) * m;
  }

  lemma ShiftStands(acc: int, n: nat)
    requires StandsFor(acc, n)
    ensures StandsFor(JsShl(acc, 5), 32 * n)
  {
    Pow32();
    hide Pow2;
    var t := ToInt32(acc);
    WrapsOnce(acc);
    WrapsOnce(t * 32);
    hide ToInt32;
    var k := Differ(t, n, TWO32);
    SameRemainder(t * 32, n * 32, k * 32, TWO32);
  }

  lemma LowWord(a: int, n: nat) returns (q: nat, m: nat)
    requires StandsFor(a, 32 * n)
    ensures ToUint32(a) == 32 * m && 32 * n == q * TWO32 + 32 * m && 32 * m + 31 < TWO32
  {
    q, m := n / 0x800_0000, n % 0x800_0000;
    DivModIs(32 * n, TWO32, q, 32 * m);
  }

  lemma JsOrIs(a: int, u: nat, v: nat)
    requires ToUint32(a) == u && v < 32
    ensures JsOr(a, v) == ToInt32(Or(u, v))
  {
    hide Or;
  }

  lemma OrOfFive(m: nat, v: nat)
    requires v < 32
    ensures Or(32 * m, v) == 32 * m + v
  {
    Pow32();
    hide Or, Pow2;
    OrIsSum(m, 5, v);
  }

  lemma IsStanding(a: int, n: nat)
    requires a % TWO32 == n % TWO32
    ensures StandsFor(a, n)
  {
  }

  /** The low 5 bits are free, so that `|` adds. */
  lemma OrStands(a: int, n: nat, v: nat)
    requires StandsFor(a, 32 * n) && v < 32
    ensures StandsFor(JsOr(a, v), 32 * n + v)
  {
    hide *;
    var q, m := LowWord(a, n);
    OrOfFive(m, v);
    JsOrIs(a, 32 * m, v);
    WrapsOnce(32 * m + v);
    SameRemainder(32 * n + v, 32 * m + v, q, TWO32);
    IsStanding(JsOr(a, v), 32 * n + v);
  }

  /** `(acc << 5) | v` */
  lemma TakesFive(acc: int, n: nat, v: nat)
    requires StandsFor(acc, n) && v < 32
    ensures StandsFor(JsOr(JsShl(acc, 5), v), 32 * n + v)
  {
    hide StandsFor, JsOr, JsShl;
    ShiftStands(acc, n);
    OrStands(JsShl(acc, 5), n, v);
  }

  /** A multiple of 2^k comes down as a whole. */
  lemma ShiftOfSum(n: int, m: int, k: nat)
    ensures (n + m * Pow2(k)) / Pow2(k) == n / Pow2(k) + m
  {
    var p := Pow2(k);
    assert (n / p + m) * p == (n / p) * p + m * p;
    DivModIs(n + m * p, p, n / p + m, n % p);
  }

  lemma WordIs(bits: nat)
    requires bits <= 24
    ensures (256 * Pow2(24 - bits)) * Pow2(bits) == TWO32
  {
    hide Pow2;
    Pow2Sum(24 - bits, bits);
    ThreeBytes();
    Associates(256, Pow2(24 - bits), Pow2(bits));
  }

  lemma ThreeBytes()
    ensures Pow2(24) == 0x100_0000
  {
    hide Pow2;
    Pow256IsPow2(3);
    assert Pow256(0) == 1 && Pow256(1) == 256 && Pow256(2) == 65536;
  }

  lemma SignDrops(t: int, n: nat, k: int, bits: nat)
    requires bits <= 24 && t == n + k * TWO32
    ensures t / Pow2(bits) % 256 == n / Pow2(bits) % 256
  {
    var q, p := Pow2(24 - bits), Pow2(bits);
    WordIs(bits);
    hide Pow2;
    Associates(k, 256 * q, p);
    ShiftOfSum(n, k * (256 * q), bits);
    BytesUp(k, q);
    SameRemainder(t / p, n / p, k * q, 256);
  }

  lemma BytesUp(k: int, q: nat)
    ensures k * (256 * q) == (k * q) * 256
  {
    Associates(k, q, 256);
  }

  /** `(acc >> bits) & 255`: what was lost at the top, and the sign, are above the byte taken. */
  lemma GivesByte(acc: int, n: nat, bits: nat)
    requires StandsFor(acc, n) && bits <= 24
    ensures JsAnd(JsSar(acc, bits), 0xFF) == n / Pow2(bits) % 256
  {
    WrapsOnce(acc);
    hide ToInt32, Pow2;
    var k := Differ(ToInt32(acc), n, TWO32);
    SignDrops(ToInt32(acc), n, k, bits);
    ByteOf(JsSar(acc, bits));
  }

  lemma JsAndIs(x: int)
    ensures JsAnd(x, 0xFF) == ToInt32(And(ToUint32(x), 0xFF)) && ToUint32(x) % TWO32 == x % TWO32
  {
    hide And, ToInt32;
  }

  lemma SmallStays(y: int)
    requires 0 <= y < 0x8000_0000
    ensures ToInt32(y) == y
  {
  }

  lemma ByteOf(x: int)
    ensures JsAnd(x, 0xFF) == x % 256
  {
    hide *;
    JsAndIs(x);
    MaskByte(ToUint32(x));
    WordsAreBytes(ToUint32(x), x);
    SmallStays(x % 256);
  }

  lemma Pow32()
    ensures Pow2(5) == 32
  {
    assert Pow2(2) == 4;
    Pow2Sum(2, 2);
    Pow2Sum(4, 1);
    assert Pow2(1) == 2;
  }

  // ---------------------------------------------------------------------------------------
  // The conversion

  lemma Quotients(n: nat, v: nat, b: nat)
    requires v < 32
    ensures (32 * n + v) / Pow2(b + 5) == n / Pow2(b)
  {
    Pow2Sum(b, 5);
    Pow32();
    hide Pow2;
    assert Pow2(b) * 32 == 32 * Pow2(b);
    DivideTwice(32 * n + v, 32, Pow2(b));
    assert (32 * n + v) / 32 == n;
  }

  lemma ByteUp(n: nat, b: nat)
    ensures n / Pow2(b) / 256 == n / Pow2(b + 8)
  {
    Pow2Sum(b, 8);
    Pow256IsPow2(1);
    assert Pow256(0) == 1 && Pow256(1) == 256;
    DivideTwice(n, Pow2(b), 256);
  }

  /** The bytes so far: all whole bytes of the joined groups. */
  ghost predicate GivenSoFar(out: seq<nat>, n: nat, bits: nat) {
    out == BigEndian(Shr(n, bits), |out|)
  }

  lemma FiveMore(out: seq<nat>, n: nat, v: nat, bits: nat)
    requires GivenSoFar(out, n, bits) && v < 32
    ensures GivenSoFar(out, 32 * n + v, bits + 5)
  {
    hide Pow2, BigEndian;
    Quotients(n, v, bits);
  }

  lemma OneMoreByte(out: seq<nat>, n: nat, bits: nat)
    requires GivenSoFar(out, n, bits + 8)
    ensures GivenSoFar(out + [n / Pow2(bits) % 256], n, bits)
  {
    hide Pow2;
    ByteUp(n, bits);
  }

  /** After `i` groups there are `whole` bytes, and `bits` bits left over. */
  ghost predicate Counts(i: nat, bits: nat, whole: nat) { bits == 5 * i % 8 && whole == 5 * i / 8 }

  lemma CountOneMore(i: nat, bits: nat, whole: nat)
    requires Counts(i, bits, whole)
    ensures bits < 8
    ensures if bits + 5 >= 8 then Counts(i + 1, bits + 5 - 8, whole + 1) else Counts(i + 1, bits + 5, whole)
  {
  }

  lemma GroupFits(data: seq<nat>, i: nat)
    requires AreGroups(data) && i < |data|
    ensures data[i] < 32
  {
  }

  lemma NoGroups()
    ensures Counts(0, 0, 0)
  {
  }

  method ConvertBits(data: seq<nat>) returns (r: Option<seq<nat>>)
    requires AreGroups(data)
    ensures r == Regrouped(data)
  {
    hide *;
    var acc: int, bits: nat := 0, 0;
    var out: seq<nat> := [];
    Beginning();
    NoGroups();
    assert data[..0] == [];
    for i := 0 to |data|
      invariant Counts(i, bits, |out|)
      invariant StandsFor(acc, Joined(data[..i])) && GivenSoFar(out, Joined(data[..i]), bits)
    {
      var v := data[i];
      CountOneMore(i, bits, |out|);
      OneMoreGroup(data, i);
      GroupFits(data, i);
      acc, bits, out := TakeGroup(acc, bits, out, v, Joined(data[..i]));
    }
    assert data[..|data|] == data;
    r := Finish(acc, bits, out, data);
  }

  method TakeGroup(acc: int, bits: nat, out: seq<nat>, v: nat, ghost n: nat) returns (acc': int, bits': nat, out': seq<nat>)
    requires v < 32 && bits < 8 && StandsFor(acc, n) && GivenSoFar(out, n, bits)
    ensures StandsFor(acc', 32 * n + v) && GivenSoFar(out', 32 * n + v, bits')
    ensures if bits + 5 >= 8 then bits' == bits + 5 - 8 && |out'| == |out| + 1 else bits' == bits + 5 && |out'| == |out|
  {
    hide *;
    TakesFive(acc, n, v);
    FiveMore(out, n, v, bits);
    acc' := JsOr(JsShl(acc, 5), v);
    bits' := bits + 5;
    out' := out;
    if bits' >= 8 {
      bits' := bits' - 8;
      GivesByte(acc', 32 * n + v, bits');
      OneMoreByte(out, 32 * n + v, bits');
      ByteIsSmall(acc', bits');
      out' := out' + [JsAnd(JsSar(acc', bits'), 0xFF)];
    }
  }

  lemma ByteIsSmall(acc: int, bits: nat)
    ensures JsAnd(JsSar(acc, bits), 0xFF) >= 0
  {
    ByteOf(JsSar(acc, bits));
    hide JsAnd, JsSar;
  }

  method Finish(acc: int, bits: nat, out: seq<nat>, ghost data: seq<nat>) returns (r: Option<seq<nat>>)
    requires Counts(|data|, bits, |out|) && StandsFor(acc, Joined(data)) && GivenSoFar(out, Joined(data), bits)
    ensures r == Regrouped(data)
  {
    PaddingIs(acc, Joined(data), bits);
    GivenIs(out, Joined(data), bits);
    hide Joined, JsAnd, JsShl, StandsFor, GivenSoFar, Pow2, BigEndian, Shr;
    if bits >= 5 || JsAnd(JsShl(acc, 8 - bits), 0xFF) != 0 {
      return None;
    }
    r := Some(out);
  }

  lemma Beginning()
    ensures StandsFor(0, Joined([])) && GivenSoFar([], Joined([]), 0)
  {
  }

  lemma OneMoreGroup(data: seq<nat>, i: nat)
    requires i < |data|
    ensures Joined(data[..i + 1]) == 32 * Joined(data[..i]) + data[i]
  {
    assert data[..i + 1][..i] == data[..i];
  }

  lemma GivenIs(out: seq<nat>, n: nat, bits: nat)
    requires GivenSoFar(out, n, bits)
    ensures out == BigEndian(Shr(n, bits), |out|)
  {
  }

  lemma OneByte(bits: nat)
    requires bits <= 8
    ensures Pow2(8 - bits) * Pow2(bits) == 256
  {
    hide Pow2;
    Pow2Sum(8 - bits, bits);
    Pow256IsPow2(1);
    assert Pow256(0) == 1 && Pow256(1) == 256;
  }

  lemma WrapDrops(t: int, n: nat, k: int, p: nat)
    requires t == n + k * TWO32
    ensures t * p % 256 == n * p % 256
  {
    Associates(k, TWO32, p);
    assert t * p == n * p + k * (TWO32 * p);
    Associates(k, p * 0x100_0000, 256);
    assert TWO32 * p == (p * 0x100_0000) * 256;
    SameRemainder(t * p, n * p, k * (p * 0x100_0000), 256);
  }

  lemma WordsAreBytes(a: int, b: int)
    requires a % TWO32 == b % TWO32
    ensures a % 256 == b % 256
  {
    var k := Differ(a, b, TWO32);
    SameRemainder(a, b, k * 0x100_0000, 256);
  }

  lemma ShiftedByte(acc: int, n: nat, k: nat)
    requires StandsFor(acc, n)
    ensures JsAnd(JsShl(acc, k), 0xFF) == n * Pow2(k) % 256
  {
    hide Pow2;
    var t, p := ToInt32(acc), Pow2(k);
    WrapsOnce(acc);
    WrapsOnce(t * p);
    ByteOf(JsShl(acc, k));
    hide ToInt32;
    var j := Differ(t, n, TWO32);
    WrapDrops(t, n, j, p);
    WordsAreBytes(t * p, ToInt32(t * p));
  }

  /** `(acc << (8 - bits)) & 255` is zero exactly when the bits left over are. */
  lemma PaddingIs(acc: int, n: nat, bits: nat)
    requires StandsFor(acc, n) && bits < 8
    ensures JsAnd(JsShl(acc, 8 - bits), 0xFF) == 0 <==> n % Pow2(bits) == 0
  {
    hide Pow2, StandsFor, JsAnd, JsShl;
    ShiftedByte(acc, n, 8 - bits);
    OneByte(bits);
    ScaledRemainder(n, Pow2(8 - bits), Pow2(bits));
    ZeroFactor(n % Pow2(bits), Pow2(8 - bits));
  }

  lemma ZeroFactor(r: nat, p: nat)
    requires p > 0
    ensures r * p == 0 <==> r == 0
  {
    if r > 0 {
      AtLeastOnce(r, p);
    }
  }

  lemma ScaledRemainder(n: nat, p: nat, q: nat)
    requires p > 0 && q > 0 && p * q == 256
    ensures n * p % 256 == (n % q) * p
  {
    var d, r := n / q, n % q;
    assert n * p == d * 256 + r * p by {
      assert (d * q + r) * p == d * (p * q) + r * p;
    }
    assert r * p < 256 by {
      assert (r + 1) * p <= q * p;
    }
    DivModIs(n * p, 256, d, r * p);
  }

  // ---------------------------------------------------------------------------------------
  // Nothing is lost

  lemma {:induction false} JoinedTells(a: seq<nat>, b: seq<nat>)
    requires |a| == |b| && AreGroups(a) && AreGroups(b) && Joined(a) == Joined(b)
    ensures a == b
    decreases |a|
  {
    if a != [] {
      var n := |a| - 1;
      JoinedTells(a[..n], b[..n]);
      assert a == a[..n] + [a[n]] && b == b[..n] + [b[n]];
    }
  }

  lemma {:induction false} JoinedFits(data: seq<nat>)
    requires AreGroups(data)
    ensures Joined(data) < Pow2(5 * |data|)
  {
    if data != [] {
      JoinedFits(data[..|data| - 1]);
      Pow2Sum(5 * (|data| - 1), 5);
      Pow32();
    }
  }

  lemma {:induction false} BigEndianTells(q: nat, r: nat, n: nat)
    requires q < Pow256(n) && r < Pow256(n) && BigEndian(q, n) == BigEndian(r, n)
    ensures q == r
    decreases n
  {
    if n > 0 {
      var x, y := BigEndian(q, n), BigEndian(r, n);
      assert x[n - 1] == q % 256 && y[n - 1] == r % 256;
      assert x[..n - 1] == BigEndian(q / 256, n - 1) && y[..n - 1] == BigEndian(r / 256, n - 1);
      BigEndianTells(q / 256, r / 256, n - 1);
    }
  }

  lemma WholeBytesFit(data: seq<nat>)
    requires AreGroups(data)
    ensures Shr(Joined(data), 5 * |data| % 8) < Pow256(5 * |data| / 8)
  {
    var bits, whole := 5 * |data| % 8, 5 * |data| / 8;
    JoinedFits(data);
    Pow256IsPow2(whole);
    assert 5 * |data| == 8 * whole + bits;
    Pow2Sum(8 * whole, bits);
    hide Pow2, Pow256, Joined, AreGroups;
    QuotientIsSmall(Joined(data), Pow2(bits), Pow2(8 * whole));
    assert Pow2(8 * whole) * Pow2(bits) == Pow2(bits) * Pow2(8 * whole);
  }

  lemma SameLength(a: nat, b: nat)
    requires 5 * a / 8 == 5 * b / 8 && 5 * a % 8 < 5 && 5 * b % 8 < 5
    ensures a == b
  {
  }

  /** The bytes tell the groups, and how many there were. */
  lemma RegroupedTells(a: seq<nat>, b: seq<nat>)
    requires AreGroups(a) && AreGroups(b) && Regrouped(a).Some? && Regrouped(a) == Regrouped(b)
    ensures a == b
  {
    SameLength(|a|, |b|);
    var bits, whole := 5 * |a| % 8, 5 * |a| / 8;
    WholeBytesFit(a);
    WholeBytesFit(b);
    hide BigEndian, Joined, Pow2, Pow256, AreGroups;
    BigEndianTells(Shr(Joined(a), bits), Shr(Joined(b), bits), whole);
    SameMultiple(Joined(a), Joined(b), Pow2(bits));
    JoinedTells(a, b);
  }

  lemma SameMultiple(x: nat, y: nat, m: nat)
    requires m > 0 && x % m == 0 == y % m && x / m == y / m
    ensures x == y
  {
    assert x == (x / m) * m + x % m && y == (y / m) * m + y % m;
  }
}
