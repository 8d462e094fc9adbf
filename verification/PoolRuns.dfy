/**
  Whole runs of pools-sync.py, one after another on one list: `upsert_pools`, `renumber_pools` and
  `retag`, and what a further run changes.
 */
module PoolRuns {
  import opened Prelude
  import opened PoolTable
  import opened PoolRenumber
  import opened PoolSync
  import opened PoolFixedPoint
  import opened PoolRetag
  import opened Rekey

  /** The tables a run leaves, and the ids it went by. */
  datatype Site = Site(pools: Table, blocks: Blocks, ids: map<string, Ref>)

  /** How a run goes: what it knows of the table, and the mapping if it renumbers. */
  datatype Course = Course(canon: map<string, int>, firstUid: int, moved: bool, m: map<int, int>)

  ghost predicate ListOk(merged: seq<Item>) { DistinctSlugs(merged) && ByBand(merged) }

  /** `renumber_pools` comes to its end: nothing to do, or all rows moved, and the blocks with them. */
  ghost predicate Renumbers(t0: Table, blocks0: Blocks, ids0: map<string, Ref>, merged: seq<Item>, c: Course, s: Site, blocks: Blocks)
    requires Tidy(t0, merged, ids0)
  {
    && c.moved == Stray(t0, merged, ids0)
    && if c.moved then
         && !Overflows(merged) && |t0| <= SCRATCH_SIZE && IsMapping(t0, merged, ids0, c.m)
         && Renamed(t0, Moves(c.m), s.pools) && s.ids == IdsAfter(ids0, Moves(c.m)) && blocks == BlocksAfter(blocks0, Moves(c.m))
       else
         s.pools == t0 && s.ids == ids0 && blocks == blocks0
  }

  /** A run that comes to its end, from `s` to `s'`. */
  ghost predicate Runs(s: Site, merged: seq<Item>, search: Search, auto: Table -> int, c: Course, s': Site) {
    && Upsertable(s.pools, c.canon, merged)
    && var u := Upsert(s.pools, c.canon, merged, c.firstUid, auto);
      && Tidy(u.table, merged, u.ids)
      && HaveIds(merged, s'.ids)
      && exists blocks :: Renumbers(u.table, s.blocks, u.ids, merged, c, s', blocks) && s'.blocks == Retagged(merged, s'.ids, search, blocks)
  }

  /** The table has two rows of the Unknown pool. */
  ghost predicate TwoUnknown(t: Table) {
    exists a, b :: a in t && b in t && a != b && t[a].slug == UNKNOWN && t[b].slug == UNKNOWN
  }

  // ---------------------------------------------------------------------------------------
  // Rows of the Unknown pool come and go with no run

  lemma {:induction false} BlankingKeepsSlugs(t: Table, stale: set<int>)
    ensures BlankOut(t, stale).Keys == t.Keys && forall id | id in t :: BlankOut(t, stale)[id].slug == t[id].slug
  {
  }

  lemma PassKeepsUnknowns(start: Table, canon: map<string, int>, merged: seq<Item>, u: Up)
    requires Upsertable(start, canon, merged) && UpOk(start, canon, BySlug(merged), u)
    requires forall s | s in BySlug(merged) :: BySlug(merged)[s].slug == s
    ensures TwoUnknown(u.table) <==> TwoUnknown(start)
  {
    hide BySlug;
    forall id | id in u.table ensures u.table[id].slug == UNKNOWN && UNKNOWN in canon ==> id in start {
      if id !in start && u.table[id].slug == UNKNOWN {
        assert RefOk(start, canon, u, BySlug(merged)[UNKNOWN]);
      }
    }
    forall id | id in start ensures u.table[id].slug == start[id].slug {
      if u.table[id] != start[id] {
        assert RefOk(start, canon, u, BySlug(merged)[start[id].slug]);
      }
    }
    if TwoUnknown(start) {
      var a, b :| a in start && b in start && a != b && start[a].slug == UNKNOWN && start[b].slug == UNKNOWN;
      assert a in u.table && b in u.table;
    }
  }

  lemma UpsertKeepsUnknowns(start: Table, canon: map<string, int>, merged: seq<Item>, firstUid: int, auto: Table -> int)
    requires Upsertable(start, canon, merged) && AutoIds(auto)
    ensures TwoUnknown(Upsert(start, canon, merged, firstUid, auto).table) <==> TwoUnknown(start)
  {
    UpsertAllIs(start, canon, merged, firstUid, auto);
    SeenOnce(merged);
    var u := UpsertAll(start, canon, merged, firstUid, auto);
    hide UpsertAll, BySlug, UpOk, TwoUnknown, Upsertable, StaleRows, DistinctSlugs;
    PassKeepsUnknowns(start, canon, merged, u);
    var stale := StaleRows(start, canon, WithUnknown(start, canon, u.ids));
    BlankingKeepsSlugs(u.table, stale);
    SameSlugsSameUnknowns(u.table, BlankOut(u.table, stale));
  }

  lemma SameSlugsSameUnknowns(t: Table, t': Table)
    requires t'.Keys == t.Keys && forall id | id in t :: t'[id].slug == t[id].slug
    ensures TwoUnknown(t') <==> TwoUnknown(t)
  {
    forall id ensures id in t' <==> id in t { assert id in t'.Keys <==> id in t.Keys; }
  }

  lemma RenamingKeepsUnknowns(t: Table, to: map<int, int>, t': Table)
    requires Renamed(t, to, t')
    ensures TwoUnknown(t') <==> TwoUnknown(t)
  {
    if TwoUnknown(t) {
      var a, b :| a in t && b in t && a != b && t[a].slug == UNKNOWN && t[b].slug == UNKNOWN;
      assert NewKey(to, a) in t' && NewKey(to, b) in t' && NewKey(to, a) != NewKey(to, b);
    }
    if TwoUnknown(t') {
      var a, b :| a in t' && b in t' && a != b && t'[a].slug == UNKNOWN && t'[b].slug == UNKNOWN;
      var k := OldKey(t, to, t', a);
      var l := OldKey(t, to, t', b);
      assert k in t && l in t && k != l;
    }
  }

  lemma SpareIsSecond(t: Table, merged: seq<Item>, ids: map<string, Ref>)
    requires Tidy(t, merged, ids)
    ensures TwoUnknown(t) <==> SpareUnknown(t, ids)
  {
    hide BySlug;
    var own := ids[UNKNOWN].id;
    if TwoUnknown(t) {
      var a, b :| a in t && b in t && a != b && t[a].slug == UNKNOWN && t[b].slug == UNKNOWN;
      var other := if a == own then b else a;
      assert other in t && Parked(t, ids, other);
    }
    if SpareUnknown(t, ids) {
      var id :| id in t && Parked(t, ids, id) && t[id].slug == UNKNOWN;
      assert id != own;
    }
  }

  // ---------------------------------------------------------------------------------------
  // One run

  /** How a run leaves things: the table in line with the list, every pool in its band, every block by the list. */
  ghost predicate InLine(s: Site, merged: seq<Item>, search: Search) {
    && Tidy(s.pools, merged, s.ids) && HaveIds(merged, s.ids) && !Stray(s.pools, merged, s.ids)
    && Retagged(merged, s.ids, search, s.blocks) == s.blocks
  }

  lemma RenumberingEnds(t0: Table, blocks0: Blocks, ids0: map<string, Ref>, merged: seq<Item>, c: Course, s: Site, blocks: Blocks)
    requires Tidy(t0, merged, ids0) && LowestOwn(t0, ids0) && ListOk(merged)
    requires Renumbers(t0, blocks0, ids0, merged, c, s, blocks)
    ensures Tidy(s.pools, merged, s.ids) && !Stray(s.pools, merged, s.ids)
    ensures LowestOwn(s.pools, s.ids) <==> !(c.moved && SpareUnknown(t0, ids0))
    ensures TwoUnknown(s.pools) <==> TwoUnknown(t0)
    ensures !LowestOwn(s.pools, s.ids) ==> exists id :: id in s.pools && s.pools[id].slug == UNKNOWN && id < UNKNOWN_ID
  {
    hide Tidy, Stray, LowestOwn, SpareUnknown, IsMapping, Renamed, Moves, IdsAfter, DistinctSlugs, ByBand, Overflows, TwoUnknown, BlocksAfter, IdsRise;
    if c.moved {
      MovedPoolsAreInTheirBands(t0, merged, ids0, c.m, s.pools);
      LowestAfterMove(t0, merged, ids0, c.m, s.pools);
      RenamingKeepsUnknowns(t0, Moves(c.m), s.pools);
    }
  }

  /** A run leaves everything in line, and the Unknown pool as many rows as it had. */
  lemma RunEnds(s: Site, merged: seq<Item>, search: Search, auto: Table -> int, c: Course, s': Site)
    requires ListOk(merged) && AutoIds(auto) && Runs(s, merged, search, auto, c, s')
    ensures InLine(s', merged, search)
    ensures TwoUnknown(s'.pools) <==> TwoUnknown(s.pools)
    ensures LowestOwn(s'.pools, s'.ids) <==> !(c.moved && TwoUnknown(s.pools))
    ensures !LowestOwn(s'.pools, s'.ids) ==> exists id :: id in s'.pools && s'.pools[id].slug == UNKNOWN && id < UNKNOWN_ID
  {
    var u := Upsert(s.pools, c.canon, merged, c.firstUid, auto);
    UpsertTidies(s.pools, c.canon, merged, c.firstUid, auto);
    UpsertKeepsUnknowns(s.pools, c.canon, merged, c.firstUid, auto);
    hide Tidy, Stray, LowestOwn, SpareUnknown, Renumbers, Retagged, Upsert, Upsertable, ListOk, TwoUnknown, HaveIds, AutoIds;
    SpareIsSecond(u.table, merged, u.ids);
    var blocks :| Renumbers(u.table, s.blocks, u.ids, merged, c, s', blocks) && s'.blocks == Retagged(merged, s'.ids, search, blocks);
    RenumberingEnds(u.table, s.blocks, u.ids, merged, c, s', blocks);
    SecondRetagIsIdle(merged, s'.ids, search, blocks);
  }

  /** What a run that finds everything in line does: nothing, or it renumbers again. */
  lemma RunOnInLine(s: Site, merged: seq<Item>, search: Search, auto: Table -> int, c: Course, s': Site)
    requires ListOk(merged) && AutoIds(auto) && Runs(s, merged, search, auto, c, s') && InLine(s, merged, search)
    requires !LowestOwn(s.pools, s.ids) ==> exists id :: id in s.pools && s.pools[id].slug == UNKNOWN && id < UNKNOWN_ID
    ensures c.moved <==> !LowestOwn(s.pools, s.ids)
    ensures !c.moved ==> s' == s && UpsertIdle(s.pools, s.ids, Upsert(s.pools, c.canon, merged, c.firstUid, auto))
  {
    var u := Upsert(s.pools, c.canon, merged, c.firstUid, auto);
    UpsertTidies(s.pools, c.canon, merged, c.firstUid, auto);
    assert Canonical(s.pools, c.canon);
    hide Tidy, Stray, LowestOwn, Retagged, Upsert, TwoUnknown, HaveIds, AutoIds, Canonical, DistinctSlugs, ByBand;
    if LowestOwn(s.pools, s.ids) {
      SecondUpsertIsIdle(s.pools, merged, s.ids, c.canon, c.firstUid, auto);
    } else {
      UnknownMoves(s.pools, merged, s.ids, c.canon);
      UnknownIsStray(s, merged, auto, c);
    }
    hide *;
    Idle(s, merged, search, auto, c, s');
  }

  lemma UnknownIsStray(s: Site, merged: seq<Item>, auto: Table -> int, c: Course)
    requires ListOk(merged) && AutoIds(auto) && Upsertable(s.pools, c.canon, merged)
    requires UNKNOWN in c.canon && c.canon[UNKNOWN] != UNKNOWN_ID
    ensures var u := Upsert(s.pools, c.canon, merged, c.firstUid, auto); Tidy(u.table, merged, u.ids) && Stray(u.table, merged, u.ids)
  {
    UpsertTidies(s.pools, c.canon, merged, c.firstUid, auto);
    hide Upsert, InBand, BySlug, Upsertable;
  }

  lemma Idle(s: Site, merged: seq<Item>, search: Search, auto: Table -> int, c: Course, s': Site)
    requires Runs(s, merged, search, auto, c, s') && InLine(s, merged, search)
    requires var u := Upsert(s.pools, c.canon, merged, c.firstUid, auto);
      if LowestOwn(s.pools, s.ids) then UpsertIdle(s.pools, s.ids, u) else Stray(u.table, merged, u.ids)
    ensures c.moved <==> !LowestOwn(s.pools, s.ids)
    ensures !c.moved ==> s' == s && UpsertIdle(s.pools, s.ids, Upsert(s.pools, c.canon, merged, c.firstUid, auto))
  {
    hide Tidy, Stray, LowestOwn, Retagged, Upsert, HaveIds, Upsertable, IsMapping, Renamed, Overflows;
  }

  // ---------------------------------------------------------------------------------------
  // Run after run

  /** Each run starts where the one before ended. */
  ghost predicate Chain(sites: seq<Site>, merged: seq<Item>, search: Search, auto: Table -> int, courses: seq<Course>) {
    && |sites| == |courses| + 1
    && forall k | 0 <= k < |courses| :: Runs(sites[k], merged, search, auto, courses[k], sites[k + 1])
  }

  /**
    The fixed point of whole runs, on one list: pools, blocks and ids are the same after any further
    run, and nothing is written, unless the first run renumbered a table with two rows of the Unknown
    pool. In that one case the rows change places and every further run renumbers again, for ever.
   */
  lemma {:induction false} FurtherRuns(
      sites: seq<Site>, merged: seq<Item>, search: Search, auto: Table -> int, courses: seq<Course>, k: nat)
    requires ListOk(merged) && AutoIds(auto) && Chain(sites, merged, search, auto, courses) && 1 <= k < |courses|
    ensures courses[k].moved <==> courses[0].moved && TwoUnknown(sites[0].pools)
    ensures !courses[k].moved ==> sites[k + 1] == sites[k] == sites[1]
    ensures !courses[k].moved ==> UpsertIdle(sites[k].pools, sites[k].ids, Upsert(sites[k].pools, courses[k].canon, merged, courses[k].firstUid, auto))
    ensures TwoUnknown(sites[k].pools) <==> TwoUnknown(sites[0].pools)
  {
    hide ListOk, AutoIds, Runs, InLine, LowestOwn, TwoUnknown, UpsertIdle;
    RunEnds(sites[k - 1], merged, search, auto, courses[k - 1], sites[k]);
    RunOnInLine(sites[k], merged, search, auto, courses[k], sites[k + 1]);
    if k > 1 {
      FurtherRuns(sites, merged, search, auto, courses, k - 1);
    }
  }
}
