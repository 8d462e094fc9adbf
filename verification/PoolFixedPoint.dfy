/**
  A second run on the same list. `upsert_pools` finds nothing to write; `renumber_pools` moves
  nothing either, except where the table holds a second row of the Unknown pool.
 */
module PoolFixedPoint {
  import opened Prelude
  import opened PoolTable
  import opened PoolRenumber
  import opened PoolSync
  import opened Rekey

  /** The lowest id of each slug is the row the slug's pool goes by. */
  lemma OwnRowsAreCanonical(t: Table, merged: seq<Item>, ids: map<string, Ref>, canon: map<string, int>, s: string)
    requires Tidy(t, merged, ids) && LowestOwn(t, ids) && Canonical(t, canon) && s in ids
    ensures s in canon && canon[s] == ids[s].id
  {
    assert t[ids[s].id].slug == s;
  }

  lemma CanonicalIsOwn(t: Table, merged: seq<Item>, ids: map<string, Ref>, canon: map<string, int>)
    requires Tidy(t, merged, ids) && LowestOwn(t, ids) && Canonical(t, canon)
    ensures forall s | s in ids :: s in canon && canon[s] == ids[s].id
  {
    forall s | s in ids ensures s in canon && canon[s] == ids[s].id {
      OwnRowsAreCanonical(t, merged, ids, canon, s);
    }
  }

  /** How far an idle pass has come: nothing written, and each pool seen has the reference it had. */
  ghost predicate Untouched(t: Table, merged: seq<Item>, n: nat, ids: map<string, Ref>, u: Up)
    requires n <= |merged|
  {
    && u.table == t && u.changed == 0 && u.inserted == 0
    && (forall s | s in u.ids :: s in ids && u.ids[s] == ids[s] && s in BySlug(merged))
    && (forall i | 0 <= i < n :: merged[i].slug in u.ids)
  }

  /** A listed pool's row is as the list has it. */
  lemma ListedPoolIsSame(t: Table, merged: seq<Item>, i: nat, ids: map<string, Ref>)
    requires Tidy(t, merged, ids) && DistinctSlugs(merged) && i < |merged|
    ensures var it := merged[i];
      && it.slug in BySlug(merged) && it.slug in ids
      && t[ids[it.slug].id] == Filled(it, ids[it.slug].uid)
  {
    SeenOnce(merged);
  }

  lemma IdleStep(t: Table, merged: seq<Item>, n: nat, ids: map<string, Ref>, canon: map<string, int>, u: Up, auto: int)
    requires Tidy(t, merged, ids) && DistinctSlugs(merged) && n < |merged| && Untouched(t, merged, n, ids, u)
    requires forall s | s in canon :: canon[s] in t
    requires forall s | s in ids :: s in canon && canon[s] == ids[s].id
    ensures Untouched(t, merged, n + 1, ids, UpsertOne(t, canon, u, merged[n], auto))
  {
    ListedPoolIsSame(t, merged, n, ids);
    hide Tidy, BySlug, DistinctSlugs;
  }

  /** The pass over the list writes no row, and gives each pool the reference it had. */
  lemma {:induction false} PassChangesNothing(
      t: Table, merged: seq<Item>, n: nat, ids: map<string, Ref>, canon: map<string, int>, firstUid: int, auto: Table -> int)
    requires Tidy(t, merged, ids) && DistinctSlugs(merged) && n <= |merged|
    requires forall s | s in canon :: canon[s] in t
    requires forall s | s in ids :: s in canon && canon[s] == ids[s].id
    ensures Untouched(t, merged, n, ids, UpsertAll(t, canon, merged[..n], firstUid, auto))
  {
    if n > 0 {
      hide Tidy, DistinctSlugs, Untouched;
      PassChangesNothing(t, merged, n - 1, ids, canon, firstUid, auto);
      assert merged[..n][..n - 1] == merged[..n - 1];
      var u := UpsertAll(t, canon, merged[..n - 1], firstUid, auto);
      IdleStep(t, merged, n - 1, ids, canon, u, auto(u.table));
    }
  }

  lemma StaleIsBlank(t: Table, merged: seq<Item>, ids: map<string, Ref>, canon: map<string, int>, id: int)
    requires Tidy(t, merged, ids) && Canonical(t, canon)
    requires forall s | s in ids :: s in canon && canon[s] == ids[s].id
    requires id in StaleRows(t, canon, ids)
    ensures id in t && Blank(t[id])
  {
  }

  /** Everything stale is blank already. */
  lemma BlankingChangesNothing(t: Table, merged: seq<Item>, ids: map<string, Ref>, canon: map<string, int>)
    requires Tidy(t, merged, ids) && Canonical(t, canon)
    requires forall s | s in ids :: s in canon && canon[s] == ids[s].id
    ensures var stale := StaleRows(t, canon, ids);
      BlankOut(t, stale) == t && |set id | id in stale && !Blank(t[id])| == 0
  {
    hide BySlug;
    var stale := StaleRows(t, canon, ids);
    var dirty := set id | id in stale && !Blank(t[id]);
    forall id ensures id !in dirty {
      if id in stale {
        StaleIsBlank(t, merged, ids, canon, id);
      }
    }
    NoElements(dirty);
    forall id | id in t ensures BlankOut(t, stale)[id] == t[id] {
      assert id !in dirty;
    }
    SameMap(BlankOut(t, stale), t);
  }

  /** What a second `upsert_pools` does on a table it left tidy: nothing. */
  ghost predicate UpsertIdle(t: Table, ids: map<string, Ref>, u: Up) {
    u.changed == 0 && u.inserted == 0 && u.table == t && u.ids == ids
  }

  lemma SecondUpsertIsIdle(
      t: Table, merged: seq<Item>, ids: map<string, Ref>, canon: map<string, int>, firstUid: int, auto: Table -> int)
    requires Tidy(t, merged, ids) && DistinctSlugs(merged) && LowestOwn(t, ids) && Canonical(t, canon)
    ensures UpsertIdle(t, ids, Upsert(t, canon, merged, firstUid, auto))
  {
    CanonicalIsOwn(t, merged, ids, canon);
    hide Tidy, DistinctSlugs, LowestOwn, UpsertAll, StaleRows, BlankOut, Untouched, WithUnknown;
    PassChangesNothing(t, merged, |merged|, ids, canon, firstUid, auto);
    assert merged[..|merged|] == merged;
    SameIds(t, merged, ids, canon, UpsertAll(t, canon, merged, firstUid, auto));
    BlankingChangesNothing(t, merged, ids, canon);
  }

  lemma SameIds(t: Table, merged: seq<Item>, ids: map<string, Ref>, canon: map<string, int>, u: Up)
    requires Tidy(t, merged, ids) && DistinctSlugs(merged) && Canonical(t, canon) && Untouched(t, merged, |merged|, ids, u)
    requires forall s | s in ids :: s in canon && canon[s] == ids[s].id
    ensures WithUnknown(t, canon, u.ids) == ids && u.table == t && u.changed == 0 && u.inserted == 0
  {
    SeenOnce(merged);
    SameMap(WithUnknown(t, canon, u.ids), ids);
  }

  /** A second row of the Unknown pool. */
  ghost predicate SpareUnknown(t: Table, ids: map<string, Ref>) {
    exists id :: id in t && Parked(t, ids, id) && t[id].slug == UNKNOWN
  }

  /** After a renumbering a parked row keeps its slug, above every listed pool's id and below the Unknown pool's. */
  lemma ParkedLandsBetween(t0: Table, merged: seq<Item>, ids0: map<string, Ref>, m: map<int, int>, t: Table, k: int)
    requires Fits(t0, merged, ids0) && IsMapping(t0, merged, ids0, m) && Renamed(t0, Moves(m), t)
    requires k in t0 && Parked(t0, ids0, k)
    ensures k in m && m[k] in t && t[m[k]] == t0[k] && ParkingFrom(merged) <= m[k] < UNKNOWN_ID
  {
    NewKeysAreTargets(t0, merged, ids0, m);
    ParkedFit(t0, merged, ids0, k);
    hide ParkingFrom, ParkedBelow, BySlug, Overflows, ByBand, DistinctSlugs, Moves;
  }

  /** The row a pool goes by is still the lowest of its slug, unless the Unknown pool has a second row. */
  lemma LowestAfterMove(t0: Table, merged: seq<Item>, ids0: map<string, Ref>, m: map<int, int>, t: Table)
    requires Fits(t0, merged, ids0) && IsMapping(t0, merged, ids0, m) && Renamed(t0, Moves(m), t)
    ensures LowestOwn(t, IdsAfter(ids0, Moves(m))) <==> !SpareUnknown(t0, ids0)
    ensures SpareUnknown(t0, ids0) ==> exists id :: id in t && t[id].slug == UNKNOWN && id < UNKNOWN_ID
  {
    var ids := IdsAfter(ids0, Moves(m));
    RenumberedUnknown(t0, merged, ids0, m);
    if SpareUnknown(t0, ids0) {
      var k :| k in t0 && Parked(t0, ids0, k) && t0[k].slug == UNKNOWN;
      ParkedLandsBetween(t0, merged, ids0, m, t, k);
      assert ids[t[m[k]].slug].id > m[k];
    } else {
      forall l | l in t && t[l].slug in ids ensures ids[t[l].slug].id <= l {
        var k := OldKey(t0, Moves(m), t, l);
        LowestRow(t0, merged, ids0, m, t, k);
      }
    }
  }

  lemma LowestRow(t0: Table, merged: seq<Item>, ids0: map<string, Ref>, m: map<int, int>, t: Table, k: int)
    requires Fits(t0, merged, ids0) && IsMapping(t0, merged, ids0, m) && Renamed(t0, Moves(m), t)
    requires k in t0 && t0[k].slug in ids0 && !(Parked(t0, ids0, k) && t0[k].slug == UNKNOWN)
    ensures IdsAfter(ids0, Moves(m))[t0[k].slug].id <= NewKey(Moves(m), k)
  {
    hide Fits, IsMapping, Renamed, Moves, ParkingFrom, BySlug;
    if Parked(t0, ids0, k) {
      ParkedLandsBetween(t0, merged, ids0, m, t, k);
      NewKeysAreTargets(t0, merged, ids0, m);
      ListedBelowParked(t0, merged, ids0, m, t0[k].slug);
    }
  }

  lemma ListedBelowParked(t0: Table, merged: seq<Item>, ids0: map<string, Ref>, m: map<int, int>, s: string)
    requires Fits(t0, merged, ids0) && IsMapping(t0, merged, ids0, m) && s in ids0 && s != UNKNOWN
    ensures IdsAfter(ids0, Moves(m))[s].id < ParkingFrom(merged)
  {
    var i := SlugIsListed(t0, merged, ids0, s);
    RenumberedIds(t0, merged, ids0, m, i);
    BandIdBounds(merged, i);
    hide Tidy, IsMapping, ParkingFrom, BySlug, Overflows, ByBand, DistinctSlugs, Moves, BandId;
  }

  /**
    A second run on the same list: its `upsert_pools` writes nothing and its `renumber_pools`
    moves nothing, unless the first run renumbered a table with a second Unknown row. In that one
    case the two rows have changed places; `PoolRuns` carries this on over any number of runs.
   */
  lemma SecondRunIsIdleExactlyWhen(
      t0: Table, merged: seq<Item>, ids0: map<string, Ref>, t: Table, ids: map<string, Ref>, moved: bool,
      canon: map<string, int>, firstUid: int, auto: Table -> int)
    requires Fits(t0, merged, ids0) && LowestOwn(t0, ids0) && Renumbered(t0, merged, ids0, t, ids, moved)
    requires Canonical(t, canon) && AutoIds(auto)
    ensures var u := Upsert(t, canon, merged, firstUid, auto);
      && Tidy(u.table, merged, u.ids)
      && (Stray(u.table, merged, u.ids) <==> moved && SpareUnknown(t0, ids0))
      && (!Stray(u.table, merged, u.ids) ==> UpsertIdle(t, ids, u))
  {
    RunPutsPoolsInTheirBands(t0, merged, ids0, t, ids, moved);
    LowestAfterRun(t0, merged, ids0, t, ids, moved);
    TidyIsUpsertable(t, merged, ids, canon);
    UpsertTidies(t, canon, merged, firstUid, auto);
    hide Fits, Renumbered, Tidy, Upsert, AutoIds, IdsRise;
    if LowestOwn(t, ids) {
      assert DistinctSlugs(merged);
      SecondUpsertIsIdle(t, merged, ids, canon, firstUid, auto);
    } else {
      UnknownMoves(t, merged, ids, canon);
    }
  }

  lemma LowestAfterRun(t0: Table, merged: seq<Item>, ids0: map<string, Ref>, t: Table, ids: map<string, Ref>, moved: bool)
    requires Fits(t0, merged, ids0) && LowestOwn(t0, ids0) && Renumbered(t0, merged, ids0, t, ids, moved)
    ensures LowestOwn(t, ids) <==> !(moved && SpareUnknown(t0, ids0))
    ensures LowestOwn(t, ids) || exists id :: id in t && t[id].slug == UNKNOWN && id < UNKNOWN_ID
  {
    hide LowestOwn, SpareUnknown, Stray, Tidy, DistinctSlugs, ByBand, Overflows, IsMapping, Renamed, Moves;
    if moved {
      var m :| IsMapping(t0, merged, ids0, m) && Renamed(t0, Moves(m), t) && ids == IdsAfter(ids0, Moves(m));
      LowestAfterMove(t0, merged, ids0, m, t);
    }
  }

  lemma TidyIsUpsertable(t: Table, merged: seq<Item>, ids: map<string, Ref>, canon: map<string, int>)
    requires Tidy(t, merged, ids) && DistinctSlugs(merged) && Canonical(t, canon)
    ensures Upsertable(t, canon, merged)
  {
    assert t[ids[UNKNOWN].id].slug == UNKNOWN;
  }

  lemma UnknownMoves(t: Table, merged: seq<Item>, ids: map<string, Ref>, canon: map<string, int>)
    requires Tidy(t, merged, ids) && Canonical(t, canon)
    requires exists id :: id in t && t[id].slug == UNKNOWN && id < UNKNOWN_ID
    ensures UNKNOWN in canon && canon[UNKNOWN] != UNKNOWN_ID
  {
  }
}
