/** The tables of the share counts, updated in place, and the miners' totals over their workers. */
module ShareTables {
  import opened Prelude
  import opened ShareAccounting

  /** The totals a row of `miners` repeats. */
  datatype Totals = Totals(lifeAcc: int, lifeRej: int, session: int)

  function Plus(t: Totals, c: Count): Totals {
    Totals(t.lifeAcc + c.lifeAcc, t.lifeRej + c.lifeRej, t.session + c.lastAcc)
  }

  /** The sums over an address's rows of `worker_shares`. */
  ghost function SumFor(m: Counts, a: string): Totals
    decreases |m|
  {
    if m == map[] then Totals(0, 0, 0)
    else
      var k :| k in m;
      if k.0 == a then Plus(SumFor(m - {k}, a), m[k]) else SumFor(m - {k}, a)
  }

  lemma {:induction false} SumWithout(m: Counts, a: string, k: Key)
    requires k in m
    ensures SumFor(m, a) == if k.0 == a then Plus(SumFor(m - {k}, a), m[k]) else SumFor(m - {k}, a)
    decreases |m|
  {
    var j :| j in m && SumFor(m, a) == if j.0 == a then Plus(SumFor(m - {j}, a), m[j]) else SumFor(m - {j}, a);
    if j != k {
      SumWithout(m - {j}, a, k);
      SumWithout(m - {k}, a, j);
      assert m - {j} - {k} == m - {k} - {j};
      assert (m - {j})[k] == m[k] && (m - {k})[j] == m[j];
      var x := SumFor(m - {j} - {k}, a);
      assert SumFor(m - {j}, a) == if k.0 == a then Plus(x, m[k]) else x;
      assert SumFor(m - {k}, a) == if j.0 == a then Plus(x, m[j]) else x;
      assert SumFor(m, a) == if j.0 == a then Plus(SumFor(m - {j}, a), m[j]) else SumFor(m - {j}, a);
    }
  }

  /** An address without workers has no shares; and when a worker's counts change, its miner's totals change by as much. */
  lemma TotalsFollow(m: Counts, k: Key, c: Count)
    ensures SumFor(map[], k.0) == Totals(0, 0, 0)
    ensures var was, now, before := SumFor(m, k.0), SumFor(m[k := c], k.0), At(m, k);
      && now.lifeAcc - was.lifeAcc == c.lifeAcc - before.lifeAcc
      && now.lifeRej - was.lifeRej == c.lifeRej - before.lifeRej
      && now.session - was.session == c.lastAcc - before.lastAcc
  {
    SumWithout(m[k := c], k.0, k);
    assert m[k := c] - {k} == m - {k};
    if k in m {
      SumWithout(m, k.0, k);
    } else {
      assert m - {k} == m;
    }
  }

  lemma OthersKeepTheirSum(m: Counts, a: string, k: Key, c: Count)
    requires k.0 != a
    ensures SumFor(m[k := c], a) == SumFor(m, a)
  {
    SumWithout(m[k := c], a, k);
    assert m[k := c] - {k} == m - {k};
    if k in m {
      SumWithout(m, a, k);
    } else {
      assert m - {k} == m;
    }
  }

  /** Each miner's totals are those of its workers. */
  ghost predicate RolledUp(miners: map<string, Totals>, counts: Counts) {
    forall a | a in miners :: miners[a] == SumFor(counts, a)
  }

  class ShareDb {
    var counts: Counts
    var miners: map<string, Totals>
    var backfilled: bool

    constructor ()
      ensures counts == map[] && miners == map[] && !backfilled
    {
      counts, miners, backfilled := map[], map[], false;
    }

    /** The `SELECT SUM(...)` of the rollup. */
    method SumRows(a: string) returns (t: Totals)
      ensures t == SumFor(counts, a)
    {
      t := Totals(0, 0, 0);
      var rest := counts.Keys;
      ghost var seen: Counts := map[];
      while rest != {}
        invariant rest <= counts.Keys && seen.Keys == counts.Keys - rest
        invariant forall k | k in seen :: seen[k] == counts[k]
        invariant t == SumFor(seen, a)
        decreases rest
      {
        var k :| k in rest;
        ghost var more := seen[k := counts[k]];
        SumWithout(more, a, k);
        assert more - {k} == seen;
        seen := more;
        if k.0 == a {
          t := Plus(t, counts[k]);
        }
        rest := rest - {k};
      }
      assert seen == counts;
    }

    method RollupMinerShares(a: string)
      modifies this`miners
      ensures miners == if a in old(miners) then old(miners)[a := SumFor(counts, a)] else old(miners)
    {
      var t := SumRows(a);
      if a in miners {
        miners := miners[a := t];
      }
    }

    /** A sample comes in: its worker's counts, its miner's totals, and no others. */
    method CreditSessionShares(r: Sample) returns (life: int, session: int)
      modifies this`counts, this`miners
      ensures counts == Credit(old(counts), r) && miners.Keys == old(miners).Keys
      ensures RolledUp(old(miners), old(counts)) ==> RolledUp(miners, counts)
      ensures r.address != "" ==> KeyOf(r) in counts && life == counts[KeyOf(r)].lifeAcc && session == r.acc
    {
      if r.address == "" {
        return 0, 0;
      }
      var key := KeyOf(r);
      if key in counts {
        var c := counts[key];
        var gained := if r.acc >= c.lastAcc then r.acc - c.lastAcc else r.acc;
        var rejected := if r.rej >= c.lastRej then r.rej - c.lastRej else r.rej;
        counts := counts[key := Count(r.acc, r.rej, c.lifeAcc + gained, c.lifeRej + rejected)];
      } else {
        counts := counts[key := Count(r.acc, r.rej, r.acc, r.rej)];
      }
      life, session := counts[key].lifeAcc, r.acc;
      RollupMinerShares(r.address);
      forall a | a in miners && a != r.address ensures SumFor(counts, a) == SumFor(old(counts), a) {
        OthersKeepTheirSum(old(counts), a, key, counts[key]);
      }
    }

    /** All samples counted at once, the first time only; then every miner is rolled up. */
    method BackfillShareLifetimes(rows: seq<Sample>)
      modifies this
      ensures backfilled && miners.Keys == old(miners).Keys
      ensures old(backfilled) ==> counts == old(counts) && miners == old(miners)
      ensures !old(backfilled) ==> counts == old(counts) + Batch(rows) && RolledUp(miners, counts)
    {
      if backfilled {
        return;
      }
      var acc: Counts := map[];
      for i := 0 to |rows|
        invariant acc == Batch(rows[..i])
      {
        assert rows[..i + 1][..i] == rows[..i];
        var r := rows[i];
        var c := if KeyOf(r) in acc then acc[KeyOf(r)] else NOTHING;
        acc := acc[KeyOf(r) := Count(r.acc, r.rej, c.lifeAcc + Delta(r.acc, c.lastAcc), c.lifeRej + Delta(r.rej, c.lastRej))];
      }
      assert rows[..|rows|] == rows;
      counts := counts + acc;
      var rest := miners.Keys;
      while rest != {}
        invariant rest <= miners.Keys == old(miners).Keys && counts == old(counts) + Batch(rows)
        invariant forall a | a in miners && a !in rest :: miners[a] == SumFor(counts, a)
        decreases rest
      {
        var a :| a in rest;
        RollupMinerShares(a);
        rest := rest - {a};
      }
      backfilled := true;
    }
  }
}
