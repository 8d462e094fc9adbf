/** The caches behind the luck figure, and that the sum they carry is never wrong. */
module LuckMeter {
  import opened Prelude
  import opened Luck

  const RETARGET_BLOCKS := 2016

  /** The header at each retarget: number `n` is at height `n * RETARGET_BLOCKS`. */
  type Chain = int -> Epoch

  /** What the node answers at one moment: nothing, or the header of the chain. */
  type Answers = int -> Option<Epoch>

  ghost predicate Truthful(answers: Answers, chain: Chain) {
    forall n :: answers(n).Some? ==> answers(n).value == chain(n)
  }

  ghost function Range(chain: Chain, lo: nat, hi: int): seq<Epoch>
    requires lo <= hi + 1
  {
    seq(hi + 1 - lo, i => chain(lo + i))
  }

  /** The order of `sort`: by start, then by difficulty. */
  predicate Before(a: Epoch, b: Epoch) { a.start < b.start || (a.start == b.start && a.difficulty <= b.difficulty) }

  ghost predicate Ordered(epochs: seq<Epoch>) {
    forall i, j | 0 <= i < j < |epochs| :: Before(epochs[i], epochs[j])
  }

  /** The epochs `lo` to `hi`, sorted. */
  ghost predicate SortedRange(chain: Chain, epochs: seq<Epoch>, lo: nat, hi: nat) {
    lo <= hi && Ordered(epochs) && multiset(epochs) == multiset(Range(chain, lo, hi))
  }

  /** The walk down from `hi` for a first sample at `firstTs` ends at `lo`. */
  ghost predicate EndsAt(chain: Chain, firstTs: int, lo: nat, hi: nat) {
    && lo <= hi && (lo == 0 || chain(lo).start <= firstTs)
    && forall n: nat | lo < n <= hi :: chain(n).start > firstTs
  }

  ghost predicate ListFor(chain: Chain, firstTs: int, hi: nat, epochs: seq<Epoch>) {
    exists lo: nat :: EndsAt(chain, firstTs, lo, hi) && SortedRange(chain, epochs, lo, hi)
  }

  ghost predicate IsList(chain: Chain, epochs: seq<Epoch>) {
    epochs == [] || exists firstTs, hi: nat :: ListFor(chain, firstTs, hi, epochs)
  }

  /** The list goes from the epoch of the first sample, or the first of all, to that of the tip. */
  ghost predicate UpToDate(chain: Chain, epochs: seq<Epoch>, table: seq<Sample>, tip: int) {
    && tip > 0 && epochs != [] && table != []
    && (epochs[0].start <= table[0].ts || chain(0) in epochs)
    && exists first :: first <= table[0].ts && ListFor(chain, first, tip / 2016, epochs)
  }

  type Signature = (int, Option<Epoch>)

  function Sign(epochs: seq<Epoch>): Signature { (|epochs|, if epochs == [] then None else Some(epochs[0])) }

  method InsertEpoch(xs: seq<Epoch>, e: Epoch) returns (ys: seq<Epoch>)
    requires Ordered(xs)
    ensures Ordered(ys) && multiset(ys) == multiset(xs) + multiset{e}
  {
    var i := |xs|;
    while i > 0 && !Before(xs[i - 1], e)
      invariant 0 <= i <= |xs| && forall j | i <= j < |xs| :: Before(e, xs[j])
    {
      i := i - 1;
    }
    ys := xs[..i] + [e] + xs[i..];
    InsertedInOrder(xs, e, i);
  }

  lemma InsertedInOrder(xs: seq<Epoch>, e: Epoch, i: nat)
    requires Ordered(xs) && i <= |xs| && (i > 0 ==> Before(xs[i - 1], e)) && forall j | i <= j < |xs| :: Before(e, xs[j])
    ensures var ys := xs[..i] + [e] + xs[i..]; Ordered(ys) && multiset(ys) == multiset(xs) + multiset{e}
  {
    InsertedOnce(xs, e, i);
    forall j | 0 <= j < i ensures Before(xs[j], e) {
      assert j < i - 1 ==> Before(xs[j], xs[i - 1]);
    }
    Between(xs, e, i);
    hide Ordered, Before;
  }

  lemma InsertedOnce(xs: seq<Epoch>, e: Epoch, i: nat)
    requires i <= |xs|
    ensures multiset(xs[..i] + [e] + xs[i..]) == multiset(xs) + multiset{e}
  {
    assert xs == xs[..i] + xs[i..];
  }

  lemma Between(xs: seq<Epoch>, e: Epoch, i: nat)
    requires Ordered(xs) && i <= |xs| && (forall j | 0 <= j < i :: Before(xs[j], e)) && forall j | i <= j < |xs| :: Before(e, xs[j])
    ensures Ordered(xs[..i] + [e] + xs[i..])
  {
    hide Before;
    var ys := xs[..i] + [e] + xs[i..];
    assert forall j | 0 <= j < |ys| :: ys[j] == if j < i then xs[j] else if j == i then e else xs[j - 1];
  }

  /** `epochs.sort()` */
  method SortEpochs(xs: seq<Epoch>) returns (ys: seq<Epoch>)
    ensures Ordered(ys) && multiset(ys) == multiset(xs)
  {
    ys := [];
    for i := 0 to |xs|
      invariant Ordered(ys) && multiset(ys) == multiset(xs[..i])
    {
      assert xs[..i + 1] == xs[..i] + [xs[i]];
      ys := InsertEpoch(ys, xs[i]);
    }
    assert xs[..|xs|] == xs;
  }

  lemma HeadsAgree(a: seq<Epoch>, b: seq<Epoch>)
    requires Ordered(a) && Ordered(b) && multiset(a) == multiset(b) && a != []
    ensures |a| == |b| && a[0] == b[0]
  {
    assert |a| == |multiset(a)| && |b| == |multiset(b)|;
    assert a[0] in multiset(b) && b[0] in multiset(a);
    assert a[0] in b && b[0] in a;
    assert Before(a[0], b[0]) && Before(b[0], a[0]);
  }

  lemma TailCounts(a: seq<Epoch>)
    requires a != []
    ensures multiset(a[1..]) == multiset(a) - multiset{a[0]}
  {
    assert a == [a[0]] + a[1..];
  }

  /** Sorting leaves no choice. */
  lemma {:induction false} OrderedIsUnique(a: seq<Epoch>, b: seq<Epoch>)
    requires Ordered(a) && Ordered(b) && multiset(a) == multiset(b)
    ensures a == b
  {
    if a == [] {
      assert |multiset(b)| == 0;
    } else {
      HeadsAgree(a, b);
      TailCounts(a);
      TailCounts(b);
      OrderedTail(a);
      OrderedTail(b);
      hide Ordered;
      OrderedIsUnique(a[1..], b[1..]);
      assert a == [a[0]] + a[1..] && b == [b[0]] + b[1..];
    }
  }

  lemma OrderedTail(a: seq<Epoch>)
    requires Ordered(a) && a != []
    ensures Ordered(a[1..])
  {
  }

  lemma InRange(chain: Chain, epochs: seq<Epoch>, lo: nat, hi: nat)
    requires SortedRange(chain, epochs, lo, hi)
    ensures |epochs| == hi + 1 - lo
    ensures forall e :: e in epochs <==> exists n: nat :: lo <= n <= hi && chain(n) == e
  {
    var range := Range(chain, lo, hi);
    assert |multiset(epochs)| == |multiset(range)|;
    forall e ensures e in epochs <==> exists n: nat :: lo <= n <= hi && chain(n) == e {
      assert e in epochs <==> e in multiset(epochs);
      assert e in range <==> e in multiset(range);
      if n: nat :| lo <= n <= hi && chain(n) == e {
        assert range[n - lo] == e;
      }
    }
  }

  /** The first of the list is no later than any epoch on it. */
  lemma FirstIsEarliest(chain: Chain, epochs: seq<Epoch>, lo: nat, hi: nat) returns (m: nat)
    requires SortedRange(chain, epochs, lo, hi)
    ensures lo <= m <= hi && epochs != [] && epochs[0] == chain(m)
    ensures forall n: nat | lo <= n <= hi :: Before(chain(m), chain(n))
  {
    InRange(chain, epochs, lo, hi);
    assert epochs[0] in epochs;
    m :| lo <= m <= hi && chain(m) == epochs[0];
    forall n: nat | lo <= n <= hi ensures Before(chain(m), chain(n)) {
      assert chain(n) in epochs;
    }
  }

  /** No two retargets have one time and one difficulty. */
  ghost predicate NoneRepeats(chain: Chain) {
    forall i: nat, j: nat | i < j :: chain(i) != chain(j)
  }

  /** Of the lists for one first sample, length and first epoch tell which it is. */
  ghost predicate SignaturesTell(chain: Chain) {
    forall firstTs, hi: nat, hi': nat, a, b ::
      ListFor(chain, firstTs, hi, a) && ListFor(chain, firstTs, hi', b) && Sign(a) == Sign(b) ==> hi == hi'
  }

  lemma OneFirstSample(chain: Chain, firstTs: int, hi: nat, hi': nat, a: seq<Epoch>, b: seq<Epoch>)
    requires NoneRepeats(chain) && ListFor(chain, firstTs, hi, a) && ListFor(chain, firstTs, hi', b) && Sign(a) == Sign(b)
    ensures hi >= hi'
  {
    var lo: nat :| EndsAt(chain, firstTs, lo, hi) && SortedRange(chain, a, lo, hi);
    var lo': nat :| EndsAt(chain, firstTs, lo', hi') && SortedRange(chain, b, lo', hi');
    InRange(chain, a, lo, hi);
    InRange(chain, b, lo', hi');
    var m := FirstIsEarliest(chain, a, lo, hi);
    var m' := FirstIsEarliest(chain, b, lo', hi');
    hide SortedRange;
    assert hi < hi' ==> chain(lo').start <= firstTs && hi < lo';
    assert hi < hi' ==> m' == lo' && m == lo;
  }

  lemma ListOfOne(chain: Chain, n: nat)
    ensures ListFor(chain, chain(n).start, n, [chain(n)])
  {
    assert Range(chain, n, n) == [chain(n)];
    assert EndsAt(chain, chain(n).start, n, n);
    assert SortedRange(chain, [chain(n)], n, n);
  }

  /** They tell exactly when no two retargets have one header time and one difficulty. */
  lemma SignaturesTellExactlyWhen(chain: Chain)
    ensures SignaturesTell(chain) <==> NoneRepeats(chain)
  {
    hide ListFor;
    if NoneRepeats(chain) {
      forall firstTs, hi: nat, hi': nat, a, b
        | ListFor(chain, firstTs, hi, a) && ListFor(chain, firstTs, hi', b) && Sign(a) == Sign(b) ensures hi == hi'
      {
        OneFirstSample(chain, firstTs, hi, hi', a, b);
        OneFirstSample(chain, firstTs, hi', hi, b, a);
      }
    } else {
      var i: nat, j: nat :| i < j && chain(i) == chain(j);
      ListOfOne(chain, i);
      ListOfOne(chain, j);
    }
  }

  /** And, as the rules for block times have it, none is as early as the first. */
  ghost predicate Told(chain: Chain) {
    NoneRepeats(chain) && forall n: nat | n > 0 :: chain(0).start < chain(n).start
  }

  lemma FirstIsLowest(chain: Chain, firstTs: int, hi: nat, epochs: seq<Epoch>) returns (lo: nat)
    requires Told(chain) && ListFor(chain, firstTs, hi, epochs)
    ensures SortedRange(chain, epochs, lo, hi) && epochs != [] && epochs[0] == chain(lo) && |epochs| == hi + 1 - lo
  {
    lo :| EndsAt(chain, firstTs, lo, hi) && SortedRange(chain, epochs, lo, hi);
    InRange(chain, epochs, lo, hi);
    var m := FirstIsEarliest(chain, epochs, lo, hi);
    hide SortedRange;
    assert m == lo;
  }

  /** Then a list of one length with one first epoch is one list, whichever samples the two were built for. */
  lemma SignatureTells(chain: Chain, a: seq<Epoch>, b: seq<Epoch>)
    requires Told(chain) && IsList(chain, a) && IsList(chain, b) && Sign(a) == Sign(b)
    ensures a == b
  {
    hide ListFor;
    if a != [] {
      var firstTs, hi: nat :| ListFor(chain, firstTs, hi, a);
      var firstTs', hi': nat :| ListFor(chain, firstTs', hi', b);
      var lo := FirstIsLowest(chain, firstTs, hi, a);
      var lo' := FirstIsLowest(chain, firstTs', hi', b);
      assert lo == lo' && hi == hi';
      hide Range;
      OrderedIsUnique(a, b);
    }
  }

  /** A list that goes back to the first sample, or to a first epoch that is earlier, covers the table. */
  lemma UpToDateCovers(chain: Chain, epochs: seq<Epoch>, table: seq<Sample>, tip: int)
    requires UpToDate(chain, epochs, table, tip) && chain(0).start <= table[0].ts
    ensures Covers(epochs, table)
  {
    var first :| first <= table[0].ts && ListFor(chain, first, tip / 2016, epochs);
    var lo: nat :| EndsAt(chain, first, lo, tip / 2016) && SortedRange(chain, epochs, lo, tip / 2016);
    if chain(0) in epochs {
      var i :| 0 <= i < |epochs| && epochs[i] == chain(0);
      assert i == 0 || Before(epochs[0], epochs[i]);
    }
  }

  ghost predicate Rising(chain: Chain) { forall i: nat, j: nat | i < j :: chain(i).start < chain(j).start }

  /**
    On such a list every time from the first sample on, up to the end of the tip's epoch, has the
    difficulty of the epoch it falls in.
   */
  lemma DifficultyOfTheDay(chain: Chain, epochs: seq<Epoch>, table: seq<Sample>, tip: int, n: nat, ts: int, fallback: real)
    requires Rising(chain) && UpToDate(chain, epochs, table, tip) && chain(0).start <= table[0].ts <= ts
    requires n <= tip / 2016 && chain(n).start <= ts && (n < tip / 2016 ==> ts < chain(n + 1).start)
    ensures DifficultyAt(epochs, ts, fallback) == chain(n).difficulty
  {
    var hi := tip / 2016;
    var lo := ListIsRange(chain, epochs, table, tip);
    hide UpToDate, ListFor;
    var k := DifficultyIs(epochs, ts, fallback);
    LastStarted(chain, epochs, lo, hi, n, ts, k);
  }

  lemma ListIsRange(chain: Chain, epochs: seq<Epoch>, table: seq<Sample>, tip: int) returns (lo: nat)
    requires Rising(chain) && UpToDate(chain, epochs, table, tip) && chain(0).start <= table[0].ts
    ensures lo <= tip / 2016 && epochs == Range(chain, lo, tip / 2016) && chain(lo).start <= table[0].ts
  {
    UpToDateCovers(chain, epochs, table, tip);
    var first :| first <= table[0].ts && ListFor(chain, first, tip / 2016, epochs);
    lo :| EndsAt(chain, first, lo, tip / 2016) && SortedRange(chain, epochs, lo, tip / 2016);
    assert Ordered(Range(chain, lo, tip / 2016));
    OrderedIsUnique(epochs, Range(chain, lo, tip / 2016));
  }

  lemma NotBeyond(epochs: seq<Epoch>, k: nat, j: nat, ts: int)
    requires k <= |epochs| && (forall i | 0 <= i < k :: epochs[i].start <= ts) && j < |epochs| && epochs[j].start > ts
    ensures k <= j
  {
  }

  /** Of epochs that rise, the last one started by `ts` is number `n`. */
  lemma LastStarted(chain: Chain, epochs: seq<Epoch>, lo: nat, hi: nat, n: nat, ts: int, k: nat)
    requires Rising(chain) && lo <= hi && epochs == Range(chain, lo, hi) && chain(lo).start <= ts
    requires n <= hi && chain(n).start <= ts && (n < hi ==> ts < chain(n + 1).start)
    requires k <= |epochs| && (forall i | 0 <= i < k :: epochs[i].start <= ts) && (k < |epochs| ==> epochs[k].start > ts)
    ensures k > 0 && epochs[k - 1] == chain(n)
  {
    assert forall i: nat | i <= hi - lo :: epochs[i] == chain(lo + i);
    assert n >= lo by {
      assert n < lo ==> n + 1 == lo || chain(n + 1).start < chain(lo).start;
    }
    assert epochs[n - lo] == chain(n);
    assert n < hi ==> epochs[n + 1 - lo] == chain(n + 1);
    assert k < n - lo ==> chain(lo + k).start < chain(n).start;
    if n < hi {
      NotBeyond(epochs, k, n + 1 - lo, ts);
    }
  }

  // ---------------------------------------------------------------------------------------
  // The table between calls

  /** Old rows may be gone from the front, new ones are later than all before. */
  ghost predicate Grown(before: seq<Sample>, after: seq<Sample>) {
    exists k: nat :: GrownBy(before, after, k)
  }

  ghost predicate GrownBy(before: seq<Sample>, after: seq<Sample>, k: nat) {
    && k <= |before| && |before| - k <= |after|
    && before[k..] == after[..|before| - k]
    && forall i, j | 0 <= i < |before| && |before| - k <= j < |after| :: before[i].ts < after[j].ts
  }

  /** So it does not matter how many calls went by without computing. */
  lemma GrownJoins(a: seq<Sample>, b: seq<Sample>, c: seq<Sample>)
    requires Grown(a, b) && Grown(b, c) && InOrder(a) && InOrder(b) && (b == [] ==> a == [])
    ensures Grown(a, c)
  {
    var k: nat :| GrownBy(a, b, k);
    var l: nat :| GrownBy(b, c, l);
    var kept := |a| - k;
    var gone := if l <= kept then k + l else |a|;
    forall i | gone <= i < |a| ensures a[i] == c[i - gone] {
      assert a[k..][i - k] == a[i] && b[..kept][i - k] == b[i - k];
      assert b[l..][i - k - l] == b[i - k];
      assert c[..|b| - l][i - k - l] == c[i - k - l];
    }
    assert a[gone..] == c[..|a| - gone];
    forall i, j | 0 <= i < |a| && |a| - gone <= j < |c| ensures a[i].ts < c[j].ts {
      if j < |b| - l {
        assert b[l..][j] == b[l + j] && c[..|b| - l][j] == c[j];
      } else if kept < |b| {
        assert a[i].ts < b[|b| - 1].ts;
      } else {
        LastIsLatest(a, b, k, i);
      }
    }
    assert GrownBy(a, c, gone);
  }

  lemma LastIsLatest(a: seq<Sample>, b: seq<Sample>, k: nat, i: nat)
    requires GrownBy(a, b, k) && InOrder(a) && b != [] && i < |a|
    ensures a[i].ts <= b[|b| - 1].ts
  {
    if |b| == |a| - k {
      assert a[k..][|b| - 1] == a[|a| - 1] && b[..|a| - k][|b| - 1] == b[|b| - 1];
    }
  }

  /** `WHERE ts > ?` */
  function After(rows: seq<Sample>, ts: int): seq<Sample> {
    if rows == [] then []
    else After(rows[..|rows| - 1], ts) + if rows[|rows| - 1].ts > ts then [rows[|rows| - 1]] else []
  }

  lemma {:induction false} AfterLast(before: seq<Sample>, rows: seq<Sample>, ts: int)
    requires (forall r <- before :: r.ts <= ts) && forall r <- rows :: r.ts > ts
    ensures After(before + rows, ts) == rows
    decreases |before| + |rows|
  {
    if rows != [] {
      AfterLast(before, rows[..|rows| - 1], ts);
      assert (before + rows)[..|before + rows| - 1] == before + rows[..|rows| - 1];
    } else if before != [] {
      assert before + rows == before;
      AfterLast(before[..|before| - 1], [], ts);
      assert before[..|before| - 1] + [] == before[..|before| - 1];
    }
  }

  /** A table whose first row has not changed has only grown at the end. */
  lemma SameStart(before: seq<Sample>, after: seq<Sample>)
    requires InOrder(before) && InOrder(after) && before != [] && after != [] && Grown(before, after)
    requires before[0].ts == after[0].ts
    ensures |before| <= |after| && after[..|before|] == before
  {
    var k: nat :| GrownBy(before, after, k);
    assert k < |before| ==> before[k..][0] == before[k];
    assert k < |before| ==> after[..|before| - k][0] == after[0];
    assert k == 0;
    assert before[0..] == before;
  }

  lemma FrontInOrder(rows: seq<Sample>, n: nat)
    requires InOrder(rows) && n <= |rows|
    ensures InOrder(rows[..n])
  {
    forall r | r in rows[..n] ensures r.ts > 0 {
      assert r in rows;
    }
  }

  lemma FrontIsEarlier(rows: seq<Sample>, n: nat)
    requires InOrder(rows) && 0 < n <= |rows|
    ensures forall r <- rows[..n] :: r.ts <= rows[n - 1].ts
  {
    forall r | r in rows[..n] ensures r.ts <= rows[n - 1].ts {
      var i :| 0 <= i < n && rows[i] == r;
    }
  }

  lemma RestIsLater(rows: seq<Sample>, n: nat)
    requires InOrder(rows) && 0 < n <= |rows|
    ensures forall r <- rows[n..] :: r.ts > rows[n - 1].ts
  {
    forall r | r in rows[n..] ensures r.ts > rows[n - 1].ts {
      var i :| 0 <= i < |rows[n..]| && rows[n..][i] == r;
      assert r == rows[n + i];
    }
  }

  lemma AfterFront(rows: seq<Sample>, n: nat)
    requires InOrder(rows) && 0 < n <= |rows|
    ensures After(rows, rows[n - 1].ts) == rows[n..]
  {
    FrontIsEarlier(rows, n);
    RestIsLater(rows, n);
    hide InOrder, After;
    AfterLast(rows[..n], rows[n..], rows[n - 1].ts);
    assert rows[..n] + rows[n..] == rows;
  }

  /** On a list that covers the table the integral does not depend on the current difficulty. */
  lemma IntegralIsOne(rows: seq<Sample>, epochs: seq<Epoch>, a: real, b: real)
    requires InOrder(rows) && Covers(epochs, rows)
    ensures Integral(rows, epochs, a) == Integral(rows, epochs, b)
  {
    FallbackIsUnused(rows, epochs, a, b);
    FullPassIsIntegral(rows, epochs, a);
    FullPassIsIntegral(rows, epochs, b);
  }

  /** A sum carried on from a covered table is the integral of the longer one. */
  lemma CarriedOn(rows: seq<Sample>, n: nat, c: Carry, epochs: seq<Epoch>, was: real, fallback: real)
    requires InOrder(rows) && 0 < n <= |rows| && Covers(epochs, rows)
    requires c == Carry(rows[n - 1].ts, rows[n - 1].hrGhs * GIGA, Integral(rows[..n], epochs, was))
    ensures AddRows(c, rows[n..], epochs, fallback).total == Integral(rows, epochs, fallback)
  {
    var front := rows[..n];
    FrontInOrder(rows, n);
    assert Covers(epochs, front);
    hide InOrder, Covers, Integral, AddRows;
    IntegralIsOne(front, epochs, was, fallback);
    FullPassIsIntegral(front, epochs, fallback);
    PassesJoin(START, front, rows[n..], epochs, fallback);
    assert front + rows[n..] == rows;
    FullPassIsIntegral(rows, epochs, fallback);
    assert c == AddRows(START, front, epochs, fallback);
  }

  // ---------------------------------------------------------------------------------------
  // The caches

  class Meter {
    // _epoch_cache
    var byHeight: map<int, Epoch>
    var list: seq<Epoch>
    var listTs: real
    var listFirst: Option<int>
    var listTip: Option<int>

    // _luck_cache
    var ts: real
    var expected: Option<real>
    var fullTs: real
    var carry: Carry
    var sinceTs: int
    var sig: Option<Signature>

    /** The table of the last call that computed, and the list it used. */
    ghost var integrated: seq<Sample>
    ghost var used: seq<Epoch>

    ghost predicate EpochsOk(chain: Chain)
      reads this`byHeight, this`list, this`listFirst, this`listTip
    {
      && IsList(chain, list)
      && (forall n | n in byHeight :: byHeight[n] == chain(n))
      && (list != [] ==>
            && listFirst.Some? && listTip.Some? && listTip.value >= 0 && ListFor(chain, listFirst.value, listTip.value, list)
            && (list[0].start <= listFirst.value || chain(0) in list))
    }

    /** Nothing computed yet, or the sum of the table then. */
    ghost predicate SumOk(chain: Chain)
      reads this
    {
      || (carry.lastTs == 0 && integrated == [] && expected == None)
      || (&& integrated != [] && InOrder(integrated) && IsList(chain, used)
          && carry.lastTs == integrated[|integrated| - 1].ts && carry.lastHs == integrated[|integrated| - 1].hrGhs * GIGA
          && expected == Some(carry.total) && sinceTs == integrated[0].ts && sig == Some(Sign(used))
          && (Covers(used, integrated) && Told(chain) ==> carry.total == Integral(integrated, used, 0.0)))
    }

    constructor ()
      ensures forall chain: Chain :: EpochsOk(chain) && SumOk(chain)
      ensures integrated == []
    {
      byHeight, list, listTs, listFirst, listTip := map[], [], 0.0, None, None;
      ts, expected, fullTs, carry, sinceTs, sig := 0.0, None, 0.0, START, 0, None;
      integrated, used := [], [];
    }

    method EpochHeader(n: int, answers: Answers, ghost chain: Chain) returns (h: Option<Epoch>)
      requires EpochsOk(chain) && Truthful(answers, chain)
      modifies this`byHeight
      ensures EpochsOk(chain) && (h.Some? ==> h.value == chain(n)) && (answers(n).Some? ==> h.Some?)
    {
      if n in byHeight {
        return Some(byHeight[n]);
      }
      h := answers(n);
      if h.Some? {
        byHeight := byHeight[n := h.value];
      }
    }

    /** The headers from the tip's epoch down to one that started by `firstTs`, or to the first. */
    method WalkDown(firstTs: int, tipEpoch: nat, answers: Answers, ghost chain: Chain)
      returns (built: seq<Epoch>, ok: bool, ghost lo: nat)
      requires EpochsOk(chain) && Truthful(answers, chain)
      modifies this`byHeight
      ensures EpochsOk(chain)
      ensures ok ==> EndsAt(chain, firstTs, lo, tipEpoch) && multiset(built) == multiset(Range(chain, lo, tipEpoch))
      ensures (forall k: nat | k <= tipEpoch :: answers(k).Some?) ==> ok
    {
      hide EpochsOk, Truthful, Range;
      NoEpochs(chain, tipEpoch);
      built, lo := [], 0;
      var n: int := tipEpoch;
      while n >= 0
        invariant 0 <= n <= tipEpoch && EpochsOk(chain)
        invariant multiset(built) == multiset(Range(chain, n + 1, tipEpoch))
        invariant forall k: nat | n < k <= tipEpoch :: chain(k).start > firstTs
        decreases n
      {
        var h := EpochHeader(n, answers, chain);
        if h == None {
          return built, false, 0;
        }
        OneMoreEpoch(chain, built, n, tipEpoch);
        built := built + [h.value];
        lo := n;
        if h.value.start <= firstTs || n == 0 {
          break;
        }
        n := n - 1;
      }
      ok := true;
    }

    /**
      The epochs from the one that holds the first sample to the tip, in order; when the node does not
      answer, the list there was.
     */
    method DifficultyEpochs(firstTs: int, tip: int, now: real, answers: Answers, ghost chain: Chain)
      returns (epochs: seq<Epoch>, ghost answered: bool)
      requires EpochsOk(chain) && Truthful(answers, chain)
      modifies this`byHeight, this`list, this`listTs, this`listFirst, this`listTip
      ensures EpochsOk(chain) && epochs == list
      ensures !answered ==> list == old(list)
      ensures answered ==> list != [] && (list[0].start <= firstTs || chain(0) in list)
      ensures answered ==> tip > 0 && exists first :: first <= firstTs && ListFor(chain, first, tip / 2016, list)
      ensures tip > 0 && (forall n: nat | n <= tip / 2016 :: answers(n).Some?) ==> answered
    {
      hide IsList, Truthful, ListFor, EndsAt, SortedRange, Ordered, Range;
      if tip <= 0 {
        return list, false;
      }
      var tipEpoch := tip / RETARGET_BLOCKS;
      if list != [] && listTip == Some(tipEpoch) && listFirst.Some? && listFirst.value <= firstTs && now - listTs < 300.0 {
        return list, true;
      }
      var built, ok;
      ghost var lo;
      built, ok, lo := WalkDown(firstTs, tipEpoch, answers, chain);
      if !ok {
        return list, false;
      }
      var sorted := SortEpochs(built);
      BuiltIsList(chain, firstTs, lo, tipEpoch, sorted);
      list, listTs, listFirst, listTip := sorted, now, Some(firstTs), Some(tipEpoch);
      return list, true;
    }

    /** The rows later than the last one counted are added to the sum. */
    method CarryOn(table: seq<Sample>, epochs: seq<Epoch>, difficulty: real, ghost chain: Chain) returns (c: Carry)
      requires SumOk(chain) && integrated != [] && InOrder(table) && table != [] && Grown(integrated, table)
      requires IsList(chain, epochs) && sig == Some(Sign(epochs)) && sinceTs == table[0].ts
      ensures c.lastTs == table[|table| - 1].ts && c.lastHs == table[|table| - 1].hrGhs * GIGA
      ensures Covers(epochs, table) && Told(chain) ==> c.total == Integral(table, epochs, difficulty)
    {
      SameStart(integrated, table);
      ghost var n := |integrated|;
      assert integrated[n - 1] == table[n - 1];
      AfterFront(table, n);
      hide After, InOrder, IsList, Sign, Grown, Integral, AddRows;
      c := LuckAddRows(After(table, carry.lastTs), carry, epochs, difficulty);
      LastOfAll(carry, table[n..], table[n - 1], epochs, difficulty);
      if Covers(epochs, table) && Told(chain) {
        SignatureTells(chain, used, epochs);
        CarriedOn(table, n, carry, epochs, 0.0, difficulty);
      }
    }

    /** The sum for the table as it stands, from the start or carried on. */
    method Compute(difficulty: real, tip: int, now: real, table: seq<Sample>, answers: Answers, ghost chain: Chain)
      returns (c: Carry, s: Signature)
      requires EpochsOk(chain) && SumOk(chain) && Truthful(answers, chain)
      requires InOrder(table) && Grown(integrated, table)
      requires table != []
      modifies this`byHeight, this`list, this`listTs, this`listFirst, this`listTip, this`fullTs
      ensures EpochsOk(chain) && s == Sign(list)
      ensures tip > 0 && (forall n: nat | n <= tip / 2016 :: answers(n).Some?) ==> UpToDate(chain, list, table, tip)
      ensures c.lastTs == table[|table| - 1].ts && c.lastHs == table[|table| - 1].hrGhs * GIGA
      ensures Covers(list, table) && Told(chain) ==> c.total == Integral(table, list, difficulty)
    {
      hide Integral, AddRows, Covers, InOrder, Grown, Truthful, Sign;
      var since := table[0].ts;
      var epochs, answered := DifficultyEpochs(since, tip, now, answers, chain);
      s := Sign(epochs);
      if carry.lastTs <= 0 || now - fullTs > 3600.0 || sig != Some(s) || sinceTs != since {
        c := LuckAddRows(table, START, epochs, difficulty);
        FullPassIsIntegral(table, epochs, difficulty);
        fullTs := now;
      } else {
        c := CarryOn(table, epochs, difficulty, chain);
      }
    }

    /** `_luck_cache.update(...)` */
    method Remember(now: real, table: seq<Sample>, c: Carry, s: Signature, ghost difficulty: real, ghost chain: Chain)
      requires EpochsOk(chain) && table != [] && InOrder(table) && s == Sign(list)
      requires c.lastTs == table[|table| - 1].ts && c.lastHs == table[|table| - 1].hrGhs * GIGA
      requires Covers(list, table) && Told(chain) ==> c.total == Integral(table, list, difficulty)
      modifies this`ts, this`expected, this`carry, this`sinceTs, this`sig, this`integrated, this`used
      ensures EpochsOk(chain) && SumOk(chain) && integrated == table && used == list && ts == now
      ensures expected == Some(c.total) && sinceTs == table[0].ts
    {
      hide Integral, Covers, InOrder, IsList, Told, Sign;
      ts, expected, carry, sinceTs, sig := now, Some(c.total), c, table[0].ts, Some(s);
      integrated, used := table, list;
      if Covers(list, table) && Told(chain) {
        IntegralIsOne(table, list, difficulty, 0.0);
      }
    }

    /**
      A call either gives the last figure again, or none, or computes one: and then it is the
      integral over the table as it stands, with the epochs used, whatever was carried over.
     */
    method ExpectedBlocksFromSamples(
        difficulty: real, tip: int, now: real, table: seq<Sample>, answers: Answers, ghost chain: Chain)
      returns (r: Option<real>, since: int, ghost computed: bool)
      requires EpochsOk(chain) && SumOk(chain) && Truthful(answers, chain)
      requires InOrder(table) && Grown(integrated, table)
      modifies this
      ensures EpochsOk(chain) && SumOk(chain)
      ensures !computed ==> integrated == old(integrated) && expected == old(expected)
                            && (r.Some? ==> r == old(expected) && since == old(sinceTs))
      ensures computed ==> table != [] && integrated == table && used == list && r.Some? && since == table[0].ts
      ensures computed && Covers(used, table) && Told(chain) ==> r.value == Integral(table, used, difficulty)
      ensures computed <==> difficulty > 0.0 && table != [] && !(now - old(ts) < 30.0 && old(expected).Some?)
      ensures r.Some? <==> computed || (difficulty > 0.0 && now - old(ts) < 30.0 && old(expected).Some?)
      ensures ts == if computed then now else old(ts)
      ensures computed && tip > 0 && (forall n: nat | n <= tip / 2016 :: answers(n).Some?) ==> UpToDate(chain, used, table, tip)
    {
      hide Integral, AddRows, Covers, InOrder, Grown, Truthful, Sign, IsList, Told, UpToDate;
      computed := false;
      assert HashesPerBlock(difficulty) > 0.0 <==> difficulty > 0.0;
      hide HashesPerBlock;
      if HashesPerBlock(difficulty) <= 0.0 {
        return None, 0, false;
      }
      if now - ts < 30.0 && expected.Some? {
        return expected, sinceTs, false;
      }
      if table == [] {
        return None, 0, false;
      }
      var c, s := Compute(difficulty, tip, now, table, answers, chain);
      since := table[0].ts;
      Remember(now, table, c, s, difficulty, chain);
      return expected, since, true;
    }
  }

  lemma NoEpochs(chain: Chain, hi: nat)
    ensures Range(chain, hi + 1, hi) == []
  {
  }

  lemma OneMoreEpoch(chain: Chain, built: seq<Epoch>, n: nat, hi: nat)
    requires n <= hi && multiset(built) == multiset(Range(chain, n + 1, hi))
    ensures multiset(built + [chain(n)]) == multiset(Range(chain, n, hi))
  {
    assert Range(chain, n, hi) == [chain(n)] + Range(chain, n + 1, hi);
  }

  lemma BuiltIsList(chain: Chain, firstTs: int, lo: nat, hi: nat, epochs: seq<Epoch>)
    requires EndsAt(chain, firstTs, lo, hi) && Ordered(epochs) && multiset(epochs) == multiset(Range(chain, lo, hi))
    ensures epochs != [] && IsList(chain, epochs) && (epochs[0].start <= firstTs || chain(0) in epochs) && ListFor(chain, firstTs, hi, epochs)
  {
    assert SortedRange(chain, epochs, lo, hi);
    assert ListFor(chain, firstTs, hi, epochs);
    InRange(chain, epochs, lo, hi);
    var m := FirstIsEarliest(chain, epochs, lo, hi);
    hide SortedRange;
    assert chain(lo) in epochs;
  }

  /** Carrying on leaves the last sample's time and rate. */
  lemma LastOfAll(c: Carry, rows: seq<Sample>, before: Sample, epochs: seq<Epoch>, fallback: real)
    requires c.lastTs == before.ts && c.lastHs == before.hrGhs * GIGA
    ensures var d, last := AddRows(c, rows, epochs, fallback), if rows == [] then before else rows[|rows| - 1];
      d.lastTs == last.ts && d.lastHs == last.hrGhs * GIGA
  {
  }
}
