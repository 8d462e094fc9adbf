/**
  Share counts of pool/server.py: a worker's counter restarts with its session, and the site keeps
  its lifetime. The counts are kept as samples come in, and were once computed from all samples at
  a time; the two agree.
 */
module ShareAccounting {
  import opened Prelude

  /** A row of `samples`; the worker column may be NULL. */
  datatype Sample = Sample(address: string, worker: Option<string>, ts: int, acc: int, rej: int)

  type Key = (string, string)

  function KeyOf(r: Sample): Key { (r.address, match r.worker case Some(w) => w case None => "") }

  /** A row of `worker_shares`. */
  datatype Count = Count(lastAcc: int, lastRej: int, lifeAcc: int, lifeRej: int)

  type Counts = map<Key, Count>

  const NOTHING := Count(0, 0, 0, 0)

  /** What a session's counter has gained; one that went back has started again. */
  function Delta(cur: int, prev: int): int { if cur >= prev then cur - prev else cur }

  function Add(c: Count, r: Sample): Count {
    Count(r.acc, r.rej, c.lifeAcc + Delta(r.acc, c.lastAcc), c.lifeRej + Delta(r.rej, c.lastRej))
  }

  function At(m: Counts, k: Key): Count { if k in m then m[k] else NOTHING }

  /** Every sample counted, as `backfill_share_lifetimes` does. */
  function Batch(rows: seq<Sample>): Counts {
    if rows == [] then map[]
    else
      var m, r := Batch(rows[..|rows| - 1]), rows[|rows| - 1];
      m[KeyOf(r) := Add(At(m, KeyOf(r)), r)]
  }

  /** A sample as it comes in: `credit_session_shares` passes over one without an address. */
  function Credit(m: Counts, r: Sample): Counts {
    if r.address == "" then m
    else if KeyOf(r) in m then m[KeyOf(r) := Add(m[KeyOf(r)], r)]
    else m[KeyOf(r) := Count(r.acc, r.rej, r.acc, r.rej)]
  }

  function Online(rows: seq<Sample>): Counts {
    if rows == [] then map[] else Credit(Online(rows[..|rows| - 1]), rows[|rows| - 1])
  }

  // ---------------------------------------------------------------------------------------
  // One worker at a time

  function Sub(rows: seq<Sample>, k: Key): seq<Sample> {
    if rows == [] then []
    else Sub(rows[..|rows| - 1], k) + if KeyOf(rows[|rows| - 1]) == k then [rows[|rows| - 1]] else []
  }

  function Counted(rows: seq<Sample>): Count {
    if rows == [] then NOTHING else Add(Counted(rows[..|rows| - 1]), rows[|rows| - 1])
  }

  lemma {:induction false} BatchIsPerWorker(rows: seq<Sample>, k: Key)
    ensures k in Batch(rows) <==> Sub(rows, k) != []
    ensures At(Batch(rows), k) == Counted(Sub(rows, k))
  {
    if rows != [] {
      var before, last := rows[..|rows| - 1], rows[|rows| - 1];
      BatchIsPerWorker(before, k);
      if KeyOf(last) == k {
        assert Sub(rows, k)[..|Sub(rows, k)| - 1] == Sub(before, k);
      } else {
        assert Sub(rows, k) == Sub(before, k);
      }
    }
  }

  lemma {:induction false} OnlineIsPerWorker(rows: seq<Sample>, k: Key)
    ensures k in Online(rows) <==> Sub(rows, k) != [] && k.0 != ""
    ensures k in Online(rows) ==> Online(rows)[k] == Counted(Sub(rows, k))
  {
    if rows != [] {
      var before, last := rows[..|rows| - 1], rows[|rows| - 1];
      OnlineIsPerWorker(before, k);
      if KeyOf(last) == k {
        assert Sub(rows, k)[..|Sub(rows, k)| - 1] == Sub(before, k);
        assert Counted([]) == NOTHING;
      } else {
        assert Sub(rows, k) == Sub(before, k);
      }
    }
  }

  // ---------------------------------------------------------------------------------------
  // The two orders

  /** No worker has two samples of one time. */
  ghost predicate DistinctTimes(rows: seq<Sample>) {
    forall i, j | 0 <= i < j < |rows| && KeyOf(rows[i]) == KeyOf(rows[j]) :: rows[i].ts != rows[j].ts
  }

  ghost predicate InTimeOrder(rows: seq<Sample>) {
    forall i, j | 0 <= i < j < |rows| :: rows[i].ts <= rows[j].ts
  }

  /**
    `ORDER BY address, worker, ts`: what matters of it is that rows of one address and worker are in
    time order, and that those without a worker come before those with an empty one.
   */
  ghost predicate InColumnOrder(rows: seq<Sample>) {
    forall i, j | 0 <= i < j < |rows| && rows[i].address == rows[j].address ::
      && (rows[i].worker == rows[j].worker ==> rows[i].ts <= rows[j].ts)
      && !(rows[i].worker.Some? && rows[j].worker.None?)
  }

  ghost predicate Rising(rows: seq<Sample>) {
    forall i, j | 0 <= i < j < |rows| :: rows[i].ts < rows[j].ts
  }

  /** The samples of a worker are in it once for each time they are in the table. */
  lemma {:induction false} SubIs(rows: seq<Sample>, k: Key)
    ensures forall r :: r in Sub(rows, k) <==> r in rows && KeyOf(r) == k
  {
    if rows != [] {
      SubIs(rows[..|rows| - 1], k);
      assert rows == rows[..|rows| - 1] + [rows[|rows| - 1]];
    }
  }

  /** The worker's rows are in time order, and never two at once. */
  ghost predicate RisingFor(rows: seq<Sample>, k: Key) {
    forall i, j | 0 <= i < j < |rows| && KeyOf(rows[i]) == k == KeyOf(rows[j]) :: rows[i].ts < rows[j].ts
  }

  lemma {:induction false} SubRises(rows: seq<Sample>, k: Key)
    requires RisingFor(rows, k)
    ensures Rising(Sub(rows, k))
  {
    if rows != [] {
      var n := |rows| - 1;
      SubRises(rows[..n], k);
      SubIs(rows[..n], k);
      forall r | r in Sub(rows[..n], k) && KeyOf(rows[n]) == k ensures r.ts < rows[n].ts {
        var i :| 0 <= i < n && rows[..n][i] == r;
        assert rows[i] == r;
      }
    }
  }

  /** Rising rows are determined by which they are. */
  lemma {:induction false} RisingIsUnique(a: seq<Sample>, b: seq<Sample>)
    requires Rising(a) && Rising(b) && forall r :: r in a <==> r in b
    ensures a == b
  {
    if a != [] {
      assert a[0] in a;
    }
    if b != [] {
      assert b[0] in b;
    }
    if a != [] {
      assert a[0] in a && a[0] in b;
      assert b[0] in b && b[0] in a;
      assert a[0] == b[0];
      forall r ensures r in a[1..] <==> r in b[1..] {
        assert r in a <==> r == a[0] || r in a[1..];
        assert r in b <==> r == b[0] || r in b[1..];
      }
      RisingIsUnique(a[1..], b[1..]);
    }
  }

  lemma TimesRise(rows: seq<Sample>, k: Key)
    requires DistinctTimes(rows) && InTimeOrder(rows)
    ensures RisingFor(rows, k)
  {
  }

  /** A worker's samples stand in the order they have in the table. */
  lemma {:induction false} SubKeepsOrder(rows: seq<Sample>, k: Key, i: nat, j: nat)
    requires i < j < |rows| && KeyOf(rows[i]) == k == KeyOf(rows[j])
    ensures exists p, q :: 0 <= p < q < |Sub(rows, k)| && Sub(rows, k)[p] == rows[i] && Sub(rows, k)[q] == rows[j]
  {
    var n := |rows| - 1;
    var front := Sub(rows[..n], k);
    if j < n {
      SubKeepsOrder(rows[..n], k, i, j);
      var p, q :| 0 <= p < q < |front| && front[p] == rows[i] && front[q] == rows[j];
      assert Sub(rows, k)[p] == rows[i] && Sub(rows, k)[q] == rows[j];
    } else {
      SubIs(rows[..n], k);
      assert rows[..n][i] == rows[i];
      var p :| 0 <= p < |front| && front[p] == rows[i];
      assert Sub(rows, k)[p] == rows[i] && Sub(rows, k)[|front|] == rows[n];
    }
  }

  /** The worker's samples without a worker name are all before those with an empty one. */
  ghost predicate InPlace(rows: seq<Sample>, k: Key) {
    forall r, s | r in rows && s in rows && KeyOf(r) == k == KeyOf(s) && r.worker.None? && s.worker.Some? :: r.ts < s.ts
  }

  /** A worker's samples are counted in one order both ways exactly when they are in place. */
  lemma SameOrderExactlyWhen(batch: seq<Sample>, online: seq<Sample>, k: Key)
    requires multiset(batch) == multiset(online) && DistinctTimes(batch) && DistinctTimes(online)
    requires InColumnOrder(batch) && InTimeOrder(online)
    ensures Sub(batch, k) == Sub(online, k) <==> InPlace(batch, k)
  {
    SubIs(batch, k);
    SubIs(online, k);
    assert forall r :: r in batch <==> r in multiset(batch);
    assert forall r :: r in online <==> r in multiset(online);
    TimesRise(online, k);
    SubRises(online, k);
    hide Sub, KeyOf, RisingFor, InColumnOrder, InTimeOrder, DistinctTimes, InPlace;
    if InPlace(batch, k) {
      InPlaceRises(batch, k);
      SubRises(batch, k);
      RisingIsUnique(Sub(batch, k), Sub(online, k));
    } else {
      OutOfPlaceFalls(batch, k);
    }
  }

  lemma OutOfPlaceFalls(batch: seq<Sample>, k: Key)
    requires InColumnOrder(batch) && !InPlace(batch, k)
    ensures !Rising(Sub(batch, k))
  {
    var r, s :| r in batch && s in batch && KeyOf(r) == k == KeyOf(s) && r.worker.None? && s.worker.Some? && r.ts >= s.ts;
    var i :| 0 <= i < |batch| && batch[i] == r;
    var j :| 0 <= j < |batch| && batch[j] == s;
    assert i < j;
    SubKeepsOrder(batch, k, i, j);
  }

  lemma InPlaceRises(rows: seq<Sample>, k: Key)
    requires DistinctTimes(rows) && InColumnOrder(rows) && InPlace(rows, k)
    ensures RisingFor(rows, k)
  {
    forall i, j | 0 <= i < j < |rows| && KeyOf(rows[i]) == k == KeyOf(rows[j]) ensures rows[i].ts < rows[j].ts {
      assert rows[i] in rows && rows[j] in rows;
    }
  }

  /** Counted in either order, the worker's samples come to the same. */
  ghost predicate CountsAlike(batch: seq<Sample>, online: seq<Sample>, k: Key) {
    Counted(Sub(batch, k)) == Counted(Sub(online, k))
  }

  /**
    The counts computed from all samples at once are those kept as the samples came in: for every
    worker with an address whose samples are counted in one order; and in all, exactly when no sample
    is without an address and no worker whose samples are not comes out differently.
   */
  lemma BatchIsOnlineExactlyWhen(batch: seq<Sample>, online: seq<Sample>)
    requires multiset(batch) == multiset(online) && DistinctTimes(batch) && DistinctTimes(online)
    requires InColumnOrder(batch) && InTimeOrder(online)
    ensures Batch(batch) == Online(online)
      <==> (forall r | r in batch :: r.address != "" && (InPlace(batch, KeyOf(r)) || CountsAlike(batch, online, KeyOf(r))))
    ensures forall k | k in Batch(batch) && k.0 != "" && InPlace(batch, k) :: k in Online(online) && Online(online)[k] == Batch(batch)[k]
  {
    forall k ensures k in Online(online) <==> k in Batch(batch) && k.0 != ""
      ensures k in Online(online) ==> (Online(online)[k] == Batch(batch)[k] <==> InPlace(batch, k) || CountsAlike(batch, online, k))
    {
      OneWorker(batch, online, k);
    }
    forall r | r in batch ensures KeyOf(r) in Batch(batch) && KeyOf(r).0 == r.address {
      SubIs(batch, KeyOf(r));
      BatchIsPerWorker(batch, KeyOf(r));
    }
    hide Batch, Online, InPlace, CountsAlike, InColumnOrder, InTimeOrder, DistinctTimes, Sub;
    if forall r | r in batch :: r.address != "" && (InPlace(batch, KeyOf(r)) || CountsAlike(batch, online, KeyOf(r))) {
      forall k ensures (k in Batch(batch) <==> k in Online(online)) && (k in Batch(batch) ==> Batch(batch)[k] == Online(online)[k]) {
        if k in Batch(batch) {
          SomeSample(batch, k);
        }
      }
      SameMap(Batch(batch), Online(online));
    }
    hide KeyOf;
  }

  lemma SomeSample(batch: seq<Sample>, k: Key)
    requires k in Batch(batch)
    ensures exists r :: r in batch && KeyOf(r) == k
  {
    BatchIsPerWorker(batch, k);
    SubIs(batch, k);
    assert Sub(batch, k)[0] in Sub(batch, k);
  }

  lemma OneWorker(batch: seq<Sample>, online: seq<Sample>, k: Key)
    requires multiset(batch) == multiset(online) && DistinctTimes(batch) && DistinctTimes(online)
    requires InColumnOrder(batch) && InTimeOrder(online)
    ensures k in Online(online) <==> k in Batch(batch) && k.0 != ""
    ensures k in Online(online) ==> (Online(online)[k] == Batch(batch)[k] <==> InPlace(batch, k) || CountsAlike(batch, online, k))
  {
    hide Batch, Online, InPlace, InColumnOrder, InTimeOrder, DistinctTimes, Sub, Counted;
    SameWorkers(batch, online, k);
    SameOrderExactlyWhen(batch, online, k);
    BatchIsPerWorker(batch, k);
    OnlineIsPerWorker(online, k);
  }

  lemma SameWorkers(batch: seq<Sample>, online: seq<Sample>, k: Key)
    requires multiset(batch) == multiset(online)
    ensures Sub(batch, k) == [] <==> Sub(online, k) == []
  {
    SubIs(batch, k);
    SubIs(online, k);
    assert forall r :: r in batch <==> r in multiset(batch);
    assert forall r :: r in online <==> r in multiset(online);
    hide Sub;
    assert Sub(batch, k) != [] ==> Sub(batch, k)[0] in Sub(online, k);
    assert Sub(online, k) != [] ==> Sub(online, k)[0] in Sub(batch, k);
  }

  lemma CountsOfTwo(r: Sample, s: Sample)
    requires KeyOf(r) == KeyOf(s)
    ensures KeyOf(r) in Batch([r, s]) && Batch([r, s])[KeyOf(r)] == Add(Add(NOTHING, r), s)
    ensures r.address != "" ==> KeyOf(r) in Online([r, s]) && Online([r, s])[KeyOf(r)] == Add(Add(NOTHING, r), s)
  {
    assert [r, s][..1] == [r] && [r][..0] == [];
    assert Batch([]) == map[] && Online([]) == map[];
    assert Batch([r]) == map[KeyOf(r) := Add(NOTHING, r)];
    assert Online([r]) == Credit(map[], r);
  }

  /** With both kinds of nameless worker the orders can differ, and then so do the counts. */
  lemma MixedColumnsDisagree(early: Sample, late: Sample)
    requires early.worker == Some("") && late.worker == None && early.address == late.address != ""
    requires 0 < early.acc < late.acc && early.ts < late.ts
    ensures InColumnOrder([late, early]) && InTimeOrder([early, late])
    ensures Batch([late, early]) != Online([early, late])
  {
    CountsOfTwo(late, early);
    CountsOfTwo(early, late);
    hide Batch, Online;
    assert Batch([late, early])[KeyOf(early)].lifeAcc == late.acc + early.acc;
    assert Online([early, late])[KeyOf(early)].lifeAcc == late.acc;
  }

  // ---------------------------------------------------------------------------------------
  // What a lifetime is

  /** The last counter of each session: one that the next sample does not carry on. */
  function SessionTotals(xs: seq<int>): int {
    if xs == [] then 0
    else (if |xs| == 1 || xs[1] < xs[0] then xs[0] else 0) + SessionTotals(xs[1..])
  }

  function Accepted(rows: seq<Sample>): seq<int> { seq(|rows|, i requires 0 <= i < |rows| => rows[i].acc) }

  function Rejected(rows: seq<Sample>): seq<int> { seq(|rows|, i requires 0 <= i < |rows| => rows[i].rej) }

  lemma {:induction false} OneMoreCounter(xs: seq<int>)
    requires xs != []
    ensures var n := |xs| - 1;
      SessionTotals(xs) == SessionTotals(xs[..n]) + Delta(xs[n], if n > 0 then xs[n - 1] else 0)
  {
    var n := |xs| - 1;
    if n == 0 {
      assert xs[..n] == [] && xs[1..] == [];
    } else {
      OneMoreCounter(xs[1..]);
      assert xs[1..][..n - 1] == xs[..n][1..];
      if n == 1 {
        assert xs[..n] == [xs[0]] && xs[1..] == [xs[1]];
      }
    }
  }

  /** A lifetime is the sum of what each session came to. */
  lemma {:induction false} LifetimeIsSessionTotals(rows: seq<Sample>)
    ensures Counted(rows).lifeAcc == SessionTotals(Accepted(rows)) && Counted(rows).lifeRej == SessionTotals(Rejected(rows))
    ensures rows != [] ==> Counted(rows).lastAcc == rows[|rows| - 1].acc && Counted(rows).lastRej == rows[|rows| - 1].rej
  {
    if rows != [] {
      var before := rows[..|rows| - 1];
      LifetimeIsSessionTotals(before);
      OneMoreCounter(Accepted(rows));
      OneMoreCounter(Rejected(rows));
      assert Accepted(rows)[..|rows| - 1] == Accepted(before);
      assert Rejected(rows)[..|rows| - 1] == Rejected(before);
    }
  }

  /** A sample with a counter that is not negative takes nothing away from any lifetime. */
  lemma CreditNeverTakesAway(m: Counts, r: Sample, k: Key)
    requires r.acc >= 0 && r.rej >= 0 && k in m
    ensures k in Credit(m, r) && Credit(m, r)[k].lifeAcc >= m[k].lifeAcc && Credit(m, r)[k].lifeRej >= m[k].lifeRej
  {
  }
}
