/** Powers of two, shifts and masks of whole numbers, and byte strings as numbers. */
module Bits {

  function Pow2(n: nat): (p: nat)
    ensures p > 0
  {
    if n == 0 then 1 else 2 * Pow2(n - 1)
  }

  lemma {:induction false} Pow2Sum(a: nat, b: nat)
    ensures Pow2(a + b) == Pow2(a) * Pow2(b)
    decreases b
  {
    if b > 0 {
      Pow2Sum(a, b - 1);
    }
  }

  lemma {:induction false} Pow2Rises(a: nat, b: nat)
    requires a <= b
    ensures Pow2(a) <= Pow2(b)
    decreases b
  {
    if a < b {
      Pow2Rises(a, b - 1);
    }
  }

  function Shl(a: nat, k: nat): nat { a * Pow2(k) }

  function Quotient(a: nat, m: nat): nat
    requires m > 0
  {
    a / m
  }

  function Remainder(a: nat, m: nat): nat
    requires m > 0
  {
    a % m
  }

  function Shr(a: nat, k: nat): nat { Quotient(a, Pow2(k)) }

  /** Bit by bit. */
  function Or(a: nat, b: nat): nat
    decreases a + b
  {
    if a == 0 then b else if b == 0 then a
    else 2 * Or(a / 2, b / 2) + if a % 2 == 1 || b % 2 == 1 then 1 else 0
  }

  function And(a: nat, b: nat): nat
    decreases a + b
  {
    if a == 0 || b == 0 then 0
    else 2 * And(a / 2, b / 2) + if a % 2 == 1 && b % 2 == 1 then 1 else 0
  }

  lemma DivideHalf(a: nat, m: nat)
    requires m > 0
    ensures a % (2 * m) == 2 * ((a / 2) % m) + a % 2
    ensures a / (2 * m) == (a / 2) / m
  {
    var q, r := (a / 2) / m, (a / 2) % m;
    assert a == 2 * (q * m + r) + a % 2;
    assert a == q * (2 * m) + (2 * r + a % 2) by {
      assert 2 * (q * m) == q * (2 * m);
    }
    DivModIs(a, 2 * m, q, 2 * r + a % 2);
  }

  lemma AtLeastOnce(k: int, m: int)
    requires k >= 1 && m > 0
    ensures k * m >= m
  {
  }

  /** Quotient and remainder are the only two numbers of their kind. */
  lemma OneQuotient(m: int, q: int, r: int, q': int, r': int)
    requires m > 0 && q * m + r == q' * m + r' && 0 <= r < m && 0 <= r' < m
    ensures q == q' && r == r'
  {
    assert (q - q') * m == q * m - q' * m && (q' - q) * m == q' * m - q * m;
    if q > q' {
      AtLeastOnce(q - q', m);
    } else if q < q' {
      AtLeastOnce(q' - q, m);
    }
  }

  lemma DivModIs(a: int, m: int, q: int, r: int)
    requires m > 0 && a == q * m + r && 0 <= r < m
    ensures a / m == q && a % m == r
  {
    assert (a / m) * m + a % m == a;
    OneQuotient(m, a / m, a % m, q, r);
  }

  lemma Associates(a: int, b: int, c: int)
    ensures (a * b) * c == a * (b * c)
  {
  }

  lemma MulRises(a: nat, b: nat, m: nat)
    requires a <= b
    ensures a * m <= b * m
  {
  }

  lemma QuotientIsSmall(a: nat, p: nat, q: nat)
    requires p > 0 && a < p * q
    ensures a / p < q
  {
    var x := a / p;
    assert x * p <= a;
    if x >= q {
      MulRises(q, x, p);
    }
  }

  lemma Divides(a: nat, m: nat, q: nat, r: nat)
    requires a == r + m * q && r < m
    ensures a / m == q
  {
    assert m * q == q * m;
    DivModIs(a, m, q, r);
  }

  /** Masking keeps the lowest bits. */
  lemma {:induction false} MaskIsRemainder(a: nat, k: nat)
    ensures And(a, Pow2(k) - 1) == a % Pow2(k)
    decreases k
  {
    if k > 0 {
      var m := Pow2(k - 1);
      DivideHalf(a, m);
      MaskIsRemainder(a / 2, k - 1);
      assert (2 * m - 1) / 2 == m - 1 && (2 * m - 1) % 2 == 1;
    }
  }

  /** Numbers without a bit in common add up. */
  lemma {:induction false} OrIsSum(a: nat, k: nat, b: nat)
    requires b < Pow2(k)
    ensures Or(a * Pow2(k), b) == a * Pow2(k) + b
    decreases k
  {
    if k > 0 && a > 0 && b > 0 {
      var m := Pow2(k - 1);
      assert a * Pow2(k) == 2 * (a * m) by {
        assert a * (2 * m) == 2 * (a * m);
      }
      OrIsSum(a, k - 1, b / 2);
    }
  }

  // ---------------------------------------------------------------------------------------
  // Bytes, least first

  predicate AreBytes(s: seq<nat>) { forall i | 0 <= i < |s| :: s[i] < 256 }

  function Le(s: seq<nat>): nat {
    if s == [] then 0 else s[0] + 256 * Le(s[1..])
  }

  function Pow256(n: nat): (p: nat)
    ensures p > 0
  {
    if n == 0 then 1 else 256 * Pow256(n - 1)
  }

  lemma {:induction false} Pow256IsPow2(n: nat)
    ensures Pow256(n) == Pow2(8 * n)
  {
    if n > 0 {
      Pow256IsPow2(n - 1);
      Pow2Sum(8 * (n - 1), 8);
      assert Pow2(8) == 256 by {
        assert Pow2(2) == 4;
        Pow2Sum(2, 2);
        Pow2Sum(4, 4);
      }
    }
  }

  lemma LeFirst(s: seq<nat>)
    requires s != []
    ensures Le(s) == s[0] + 256 * Le(s[1..])
  {
  }

  lemma PowerStep(n: nat)
    requires n > 0
    ensures Pow256(n) == 256 * Pow256(n - 1)
  {
  }

  lemma {:induction false} LeJoin(a: seq<nat>, b: seq<nat>)
    ensures Le(a + b) == Le(a) + Pow256(|a|) * Le(b)
  {
    if a == [] {
      assert a + b == b;
      assert Le([]) == 0 && Pow256(0) == 1;
    } else {
      LeJoin(a[1..], b);
      LeFirst(a);
      LeFirst(a + b);
      assert (a + b)[1..] == a[1..] + b;
      PowerStep(|a|);
      hide *;
      Associates(256, Pow256(|a| - 1), Le(b));
    }
  }

  lemma LeSplit(s: seq<nat>, k: nat)
    requires k <= |s|
    ensures Le(s) == Le(s[..k]) + Pow256(k) * Le(s[k..])
  {
    hide Le, Pow256;
    LeJoin(s[..k], s[k..]);
    assert s[..k] + s[k..] == s;
  }

  lemma {:induction false} LeBound(s: seq<nat>)
    requires AreBytes(s)
    ensures Le(s) < Pow256(|s|)
  {
    if s != [] {
      LeBound(s[1..]);
    }
  }

  lemma {:induction false} LeZeros(s: seq<nat>)
    requires forall i | 0 <= i < |s| :: s[i] == 0
    ensures Le(s) == 0
  {
    if s != [] {
      LeZeros(s[1..]);
    }
  }

  lemma {:induction false} LeOnes(s: seq<nat>)
    requires forall i | 0 <= i < |s| :: s[i] == 255
    ensures Le(s) == Pow256(|s|) - 1
  {
    if s != [] {
      LeOnes(s[1..]);
    }
  }

  /** The `n` lowest bytes of a number. */
  function Bytes(q: nat, n: nat): (s: seq<nat>)
    ensures |s| == n && AreBytes(s)
    decreases n
  {
    if n == 0 then [] else [q % 256] + Bytes(q / 256, n - 1)
  }

  lemma {:induction false} BytesAreThere(q: nat, n: nat)
    requires q < Pow256(n)
    ensures Le(Bytes(q, n)) == q
    decreases n
  {
    if n > 0 {
      BytesAreThere(q / 256, n - 1);
      assert Bytes(q, n)[1..] == Bytes(q / 256, n - 1);
    }
  }

  /** Byte number `j` is the number shifted down and masked. */
  lemma {:induction false} ByteAt(q: nat, n: nat, j: nat)
    requires j < n
    ensures Bytes(q, n)[j] == And(Shr(q, 8 * j), 0xFF)
    decreases n
  {
    MaskByte(Shr(q, 8 * j));
    if j == 0 {
      assert Pow2(0) == 1;
    } else {
      ByteAt(q / 256, n - 1, j - 1);
      MaskByte(Shr(q / 256, 8 * (j - 1)));
      Pow256IsPow2(j);
      Pow256IsPow2(j - 1);
      DivideTwice(q, 256, Pow256(j - 1));
    }
  }

  lemma MaskByte(a: nat)
    ensures And(a, 0xFF) == a % 256
  {
    assert Pow2(8) == 256 by {
      Pow256IsPow2(1);
    }
    MaskIsRemainder(a, 8);
  }

  lemma Parts(a: nat, m: nat) returns (q: nat, r: nat)
    requires m > 0
    ensures a == q * m + r && r < m && q == a / m
  {
    q, r := a / m, a % m;
  }

  lemma Distributes(x: int, n: int, y: int, m: int)
    ensures (x * n + y) * m == x * (m * n) + y * m
  {
    Associates(x, n, m);
    assert n * m == m * n;
  }

  lemma BelowProduct(y: nat, n: nat, r: nat, m: nat)
    requires y < n && r < m
    ensures y * m + r < m * n
  {
    MulRises(y + 1, n, m);
    assert (y + 1) * m == y * m + m && n * m == m * n;
  }

  lemma ProductIsPositive(m: nat, n: nat)
    requires m > 0 && n > 0
    ensures m * n > 0
  {
  }

  lemma DivideTwice(a: nat, m: nat, n: nat)
    requires m > 0 && n > 0
    ensures m * n > 0 && a / (m * n) == a / m / n
  {
    var q, r := Parts(a, m);
    var x, y := Parts(q, n);
    ProductIsPositive(m, n);
    Distributes(x, n, y, m);
    BelowProduct(y, n, r, m);
    DivModIs(a, m * n, x, y * m + r);
  }
}
