/**
  Expected blocks of pool/server.py: the pool's hashrate over time against the difficulty of the
  day. The sum is carried on from call to call; it is always what one pass over the whole table
  would give, however often the node failed to answer in between.
 */
module Luck {
  import opened Prelude

  /** A row of `pool_samples`, keyed by time. */
  datatype Sample = Sample(ts: int, hrGhs: real)

  /** A retarget epoch: when it started, and its difficulty. */
  datatype Epoch = Epoch(start: int, difficulty: real)

  const POW2_32 := 4294967296.0
  const GIGA := 1000000000.0

  function HashesPerBlock(difficulty: real): real { if difficulty > 0.0 then difficulty * POW2_32 else 0.0 }

  // ---------------------------------------------------------------------------------------
  // One pass

  /** The difficulty of the last epoch that has started; the list is in order. */
  function DifficultyFrom(epochs: seq<Epoch>, ts: int, found: real): real
    decreases |epochs|
  {
    if epochs == [] || ts < epochs[0].start then found else DifficultyFrom(epochs[1..], ts, epochs[0].difficulty)
  }

  function DifficultyAt(epochs: seq<Epoch>, ts: int, fallback: real): real {
    DifficultyFrom(epochs, ts, fallback)
  }

  method FindDifficulty(epochs: seq<Epoch>, ts: int, fallback: real) returns (d: real)
    ensures d == DifficultyAt(epochs, ts, fallback)
  {
    d := fallback;
    var i := 0;
    while i < |epochs| && ts >= epochs[i].start
      invariant i <= |epochs| && DifficultyFrom(epochs[i..], ts, d) == DifficultyAt(epochs, ts, fallback)
    {
      assert epochs[i..][1..] == epochs[i + 1..];
      d := epochs[i].difficulty;
      i := i + 1;
    }
  }

  /** It is that of the last epoch of those that had started by then, or the fallback where none had. */
  lemma {:induction false} DifficultyIs(epochs: seq<Epoch>, ts: int, fallback: real) returns (n: nat)
    ensures n <= |epochs| && (forall i | 0 <= i < n :: epochs[i].start <= ts) && (n < |epochs| ==> epochs[n].start > ts)
    ensures DifficultyAt(epochs, ts, fallback) == if n == 0 then fallback else epochs[n - 1].difficulty
    decreases |epochs|
  {
    if epochs == [] || ts < epochs[0].start {
      n := 0;
    } else {
      var m := DifficultyIs(epochs[1..], ts, epochs[0].difficulty);
      n := m + 1;
      assert forall i | 0 < i < n :: epochs[i] == epochs[1..][i - 1];
    }
  }

  /** How far the sum has come: the last sample's time and rate. */
  datatype Carry = Carry(lastTs: int, lastHs: real, total: real)

  const START := Carry(0, 0.0, 0.0)

  /** The blocks expected between a sample and the next. */
  function Interval(ts: int, hs: real, next: int, epochs: seq<Epoch>, fallback: real): real {
    var dt := next - ts;
    var need := HashesPerBlock(DifficultyAt(epochs, ts, fallback));
    if ts != 0 && 0 < dt < 3600 && need > 0.0 then hs * dt as real / need else 0.0
  }

  /**
    Between two samples less than an hour apart the pool is charged what it hashed, at the first one's
    rate in billions a second, against the hashes a block takes at the difficulty of that time; a longer
    gap counts for nothing, nor does one without a difficulty.
   */
  lemma IntervalIs(r: Sample, next: Sample, epochs: seq<Epoch>, fallback: real)
    requires r.ts > 0
    ensures var d := DifficultyAt(epochs, r.ts, fallback);
      Interval(r.ts, r.hrGhs * GIGA, next.ts, epochs, fallback) ==
        if r.ts < next.ts && next.ts - r.ts < 3600 && d > 0.0
        then r.hrGhs * 1000000000.0 * (next.ts - r.ts) as real / (d * 4294967296.0)
        else 0.0
  {
    hide DifficultyAt;
    var d := DifficultyAt(epochs, r.ts, fallback);
    assert d > 0.0 ==> d * POW2_32 > 0.0;
  }

  function AddRow(c: Carry, r: Sample, epochs: seq<Epoch>, fallback: real): Carry {
    Carry(r.ts, r.hrGhs * GIGA, c.total + Interval(c.lastTs, c.lastHs, r.ts, epochs, fallback))
  }

  function AddRows(c: Carry, rows: seq<Sample>, epochs: seq<Epoch>, fallback: real): Carry {
    if rows == [] then c
    else AddRow(AddRows(c, rows[..|rows| - 1], epochs, fallback), rows[|rows| - 1], epochs, fallback)
  }

  method LuckAddRows(rows: seq<Sample>, from: Carry, epochs: seq<Epoch>, fallback: real) returns (c: Carry)
    ensures c == AddRows(from, rows, epochs, fallback)
  {
    var lastTs, lastHs, total := from.lastTs, from.lastHs, from.total;
    for i := 0 to |rows|
      invariant Carry(lastTs, lastHs, total) == AddRows(from, rows[..i], epochs, fallback)
    {
      assert rows[..i + 1][..i] == rows[..i];
      var ts := rows[i].ts;
      if lastTs != 0 {
        var dt := ts - lastTs;
        if 0 < dt < 3600 {
          var d := FindDifficulty(epochs, lastTs, fallback);
          var need := HashesPerBlock(d);
          if need > 0.0 {
            total := total + lastHs * dt as real / need;
          }
        }
      }
      lastTs, lastHs := ts, rows[i].hrGhs * GIGA;
    }
    assert rows[..|rows|] == rows;
    c := Carry(lastTs, lastHs, total);
  }

  lemma {:induction false} PassesJoin(c: Carry, a: seq<Sample>, b: seq<Sample>, epochs: seq<Epoch>, fallback: real)
    ensures AddRows(AddRows(c, a, epochs, fallback), b, epochs, fallback) == AddRows(c, a + b, epochs, fallback)
    decreases |b|
  {
    if b == [] {
      assert a + b == a;
    } else {
      PassesJoin(c, a, b[..|b| - 1], epochs, fallback);
      assert (a + b)[..|a + b| - 1] == a + b[..|b| - 1];
    }
  }

  /** The sum over all pairs of neighbouring samples. */
  ghost function Integral(rows: seq<Sample>, epochs: seq<Epoch>, fallback: real): real {
    if |rows| < 2 then 0.0
    else Interval(rows[0].ts, rows[0].hrGhs * GIGA, rows[1].ts, epochs, fallback) + Integral(rows[1..], epochs, fallback)
  }

  /** A full pass is the sum over neighbouring samples. */
  lemma {:induction false} FullPassIsIntegral(rows: seq<Sample>, epochs: seq<Epoch>, fallback: real)
    requires rows != []
    ensures var c := AddRows(START, rows, epochs, fallback);
      c.total == Integral(rows, epochs, fallback)
      && c.lastTs == rows[|rows| - 1].ts && c.lastHs == rows[|rows| - 1].hrGhs * GIGA
  {
    var n := |rows| - 1;
    if n == 0 {
      assert rows[..0] == [];
    } else {
      FullPassIsIntegral(rows[..n], epochs, fallback);
      OneMoreInterval(rows, epochs, fallback);
    }
  }

  lemma {:induction false} OneMoreInterval(rows: seq<Sample>, epochs: seq<Epoch>, fallback: real)
    requires |rows| >= 2
    ensures var n := |rows| - 1;
      Integral(rows, epochs, fallback)
        == Integral(rows[..n], epochs, fallback) + Interval(rows[n - 1].ts, rows[n - 1].hrGhs * GIGA, rows[n].ts, epochs, fallback)
  {
    var n := |rows| - 1;
    if n > 1 {
      OneMoreInterval(rows[1..], epochs, fallback);
      assert rows[1..][..n - 1] == rows[..n][1..];
    }
  }

  // ---------------------------------------------------------------------------------------
  // Difficulty that is on the list

  ghost predicate InOrder(rows: seq<Sample>) {
    (forall r <- rows :: r.ts > 0) && forall i, j | 0 <= i < j < |rows| :: rows[i].ts < rows[j].ts
  }

  /** The first epoch of the list started before the first sample. */
  ghost predicate Covers(epochs: seq<Epoch>, rows: seq<Sample>) {
    epochs != [] && rows != [] && epochs[0].start <= rows[0].ts
  }

  /** Then the current difficulty, which stands in for an epoch not on the list, is never used. */
  lemma {:induction false} FallbackIsUnused(rows: seq<Sample>, epochs: seq<Epoch>, a: real, b: real)
    requires InOrder(rows) && Covers(epochs, rows)
    ensures AddRows(START, rows, epochs, a) == AddRows(START, rows, epochs, b)
  {
    var n := |rows| - 1;
    if n > 0 {
      assert InOrder(rows[..n]) by {
        assert forall r | r in rows[..n] :: r in rows;
      }
      FallbackIsUnused(rows[..n], epochs, a, b);
      LastSample(rows[..n], epochs, a);
      assert DifficultyAt(epochs, rows[n - 1].ts, a) == DifficultyAt(epochs, rows[n - 1].ts, b);
    } else {
      assert rows[..0] == [];
    }
  }

  lemma LastSample(rows: seq<Sample>, epochs: seq<Epoch>, fallback: real)
    requires rows != []
    ensures var c := AddRows(START, rows, epochs, fallback);
      c.lastTs == rows[|rows| - 1].ts && c.lastHs == rows[|rows| - 1].hrGhs * GIGA
  {
  }

  /** Without epochs it is used, and a sum carried on over two difficulties is the sum for neither. */
  lemma CarriedOverTwoDifficulties(r: Sample, s: Sample, t: Sample)
    requires 0 < r.ts < s.ts < t.ts && s.ts - r.ts < 3600 && t.ts - s.ts < 3600 && r.hrGhs > 0.0 && s.hrGhs > 0.0
    ensures AddRows(AddRows(START, [r, s], [], 1.0), [t], [], 2.0).total
         != AddRows(START, [r, s, t], [], 2.0).total
  {
    TwoRows(r, s, 1.0);
    TwoRows(r, s, 2.0);
    OneByOne([r, s], t, 2.0);
    assert [r, s] + [t] == [r, s, t] && [t][..0] == [];
    assert AddRows(AddRows(START, [r, s], [], 1.0), [t], [], 2.0) == AddRow(AddRows(START, [r, s], [], 1.0), t, [], 2.0);
    hide AddRows;
    assert r.hrGhs * GIGA > 0.0;
    Halves(r.hrGhs * GIGA * (s.ts - r.ts) as real);
  }

  lemma Halves(x: real)
    requires x > 0.0
    ensures x / POW2_32 != x / (2.0 * POW2_32)
  {
  }

  lemma TwoRows(r: Sample, s: Sample, d: real)
    requires 0 < r.ts < s.ts && s.ts - r.ts < 3600 && d > 0.0
    ensures AddRows(START, [r, s], [], d) == Carry(s.ts, s.hrGhs * GIGA, r.hrGhs * GIGA * (s.ts - r.ts) as real / (d * POW2_32))
  {
    OneByOne([], r, d);
    OneByOne([r], s, d);
    assert [] + [r] == [r] && [r] + [s] == [r, s];
    assert AddRows(START, [], [], d) == START;
    hide AddRows;
  }

  lemma OneByOne(rows: seq<Sample>, r: Sample, fallback: real)
    ensures AddRows(START, rows + [r], [], fallback) == AddRow(AddRows(START, rows, [], fallback), r, [], fallback)
  {
    assert (rows + [r])[..|rows|] == rows;
  }
}
