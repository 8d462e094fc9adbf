/**
  What a run of pools-sync.py achieves: the backend, which scans the pools in id order, names the
  same pool as the priority list; and a second run changes nothing.
 */
module PoolSync {
  import opened Prelude
  import opened PoolTable
  import opened PoolRenumber
  import opened Rekey

  // ---------------------------------------------------------------------------------------
  // A run

  /** Some pool's own row is outside its band, or the Unknown pool's is not at its id. */
  ghost predicate Stray(t: Table, merged: seq<Item>, ids: map<string, Ref>)
    requires Tidy(t, merged, ids)
  {
    || ids[UNKNOWN].id != UNKNOWN_ID
    || exists s :: s in BySlug(merged) && s != UNKNOWN && !InBand(ids[s].id, BySlug(merged)[s].prio)
  }

  function IdsAfter(ids: map<string, Ref>, moves: map<int, int>): map<string, Ref> {
    map s | s in ids :: Ref(NewKey(moves, ids[s].id), ids[s].uid)
  }

  /** `t` and `ids` are what `renumber_pools` makes of a tidy table; `moved` says that it did anything. */
  ghost predicate Renumbered(t0: Table, merged: seq<Item>, ids0: map<string, Ref>, t: Table, ids: map<string, Ref>, moved: bool)
    requires Tidy(t0, merged, ids0)
  {
    && moved == Stray(t0, merged, ids0)
    && (if !moved then t == t0 && ids == ids0
        else exists m :: IsMapping(t0, merged, ids0, m) && Renamed(t0, Moves(m), t) && ids == IdsAfter(ids0, Moves(m)))
  }

  ghost predicate ByBand(merged: seq<Item>) {
    forall i, j | 0 <= i < j < |merged| :: Band(merged[i].prio) <= Band(merged[j].prio)
  }

  /** What the merged list and the table must be for the numbering to come out. */
  ghost predicate Fits(t: Table, merged: seq<Item>, ids: map<string, Ref>) {
    Tidy(t, merged, ids) && DistinctSlugs(merged) && ByBand(merged) && !Overflows(merged) && |t| <= SCRATCH_SIZE
  }

  lemma FitsHaveIds(t: Table, merged: seq<Item>, ids: map<string, Ref>)
    requires Fits(t, merged, ids)
    ensures Tidy(t, merged, ids) && HaveIds(merged, ids)
  {
    ListedHaveIds(t, merged, ids);
  }

  /** Ids rise with the merged list, Unknown aside. */
  ghost predicate IdsRise(merged: seq<Item>, ids: map<string, Ref>)
    requires HaveIds(merged, ids)
  {
    forall i, j | 0 <= i < j < |merged| && merged[i].slug != UNKNOWN && merged[j].slug != UNKNOWN ::
      ids[merged[i].slug].id < ids[merged[j].slug].id
  }

  lemma BandsRise(a: nat, b: nat)
    requires Band(a) < Band(b)
    ensures Hi(Band(a)) < Lo(Band(b))
  {
  }

  lemma BandIdsRise(merged: seq<Item>, i: nat, j: nat)
    requires i < j < |merged| && ByBand(merged) && !Overflows(merged)
    ensures BandId(merged, i) < BandId(merged, j)
  {
    BandIdsAreDistinct(merged, i, j);
    BandIdBounds(merged, i);
    BandIdBounds(merged, j);
    hide BandId, Lo, Hi, Overflows;
    if Band(merged[i].prio) < Band(merged[j].prio) {
      BandsRise(merged[i].prio, merged[j].prio);
    }
  }

  /** Renaming the rows of a tidy table leaves it tidy. */
  lemma RenamedIsTidy(t0: Table, merged: seq<Item>, ids0: map<string, Ref>, to: map<int, int>, t: Table)
    requires Tidy(t0, merged, ids0) && Renamed(t0, to, t) && forall id | id in t0 :: NewKey(to, id) > 0
    ensures Tidy(t, merged, IdsAfter(ids0, to))
  {
    var ids := IdsAfter(ids0, to);
    hide BySlug;
    forall l | l in t ensures l > 0 && (Owns(t, ids, l) || Blank(t[l])) {
      var k := OldKey(t0, to, t, l);
    }
  }

  lemma NewKeysAreTargets(t: Table, merged: seq<Item>, ids: map<string, Ref>, m: map<int, int>)
    requires Fits(t, merged, ids) && IsMapping(t, merged, ids, m)
    ensures forall id | id in t :: NewKey(Moves(m), id) == m[id] && m[id] > 0
  {
    forall id | id in t ensures NewKey(Moves(m), id) == m[id] && m[id] > 0 {
      var k := KindOf(t, merged, ids, m, id);
      TargetBounds(t, merged, ids, m, id, k);
      hide Tidy, IsMapping, Overflows, DistinctSlugs, HaveIds, BandId, ParkedBelow, ByBand;
    }
  }

  /** A renumbering gives each listed pool its band's next id. */
  lemma RenumberedIds(t: Table, merged: seq<Item>, ids: map<string, Ref>, m: map<int, int>, i: nat)
    requires Fits(t, merged, ids) && IsMapping(t, merged, ids, m) && i < |merged| && merged[i].slug != UNKNOWN
    ensures var ids' := IdsAfter(ids, Moves(m));
      && merged[i].slug in ids' && ids'[merged[i].slug].id == BandId(merged, i) && InBand(BandId(merged, i), merged[i].prio)
      && UNKNOWN in ids' && ids'[UNKNOWN].id == UNKNOWN_ID
  {
    ListedHaveIds(t, merged, ids);
    NewKeysAreTargets(t, merged, ids, m);
    BandIdBounds(merged, i);
    hide BySlug, BandId, ParkedBelow, Overflows, DistinctSlugs, ByBand;
  }

  lemma RenumberedUnknown(t: Table, merged: seq<Item>, ids: map<string, Ref>, m: map<int, int>)
    requires Fits(t, merged, ids) && IsMapping(t, merged, ids, m)
    ensures UNKNOWN in ids && IdsAfter(ids, Moves(m))[UNKNOWN].id == UNKNOWN_ID
  {
    NewKeysAreTargets(t, merged, ids, m);
    hide BySlug, BandId, ParkedBelow, Overflows, DistinctSlugs, ByBand;
  }

  /** After a run every pool's own row is in its band, the Unknown pool's at its id. */
  lemma RunPutsPoolsInTheirBands(t0: Table, merged: seq<Item>, ids0: map<string, Ref>, t: Table, ids: map<string, Ref>, moved: bool)
    requires Fits(t0, merged, ids0) && Renumbered(t0, merged, ids0, t, ids, moved)
    ensures Tidy(t, merged, ids) && !Stray(t, merged, ids) && HaveIds(merged, ids)
    ensures moved ==> IdsRise(merged, ids)
  {
    hide Tidy, Fits, Stray, DistinctSlugs, ByBand, Overflows, IsMapping, Renamed, IdsAfter, Moves, IdsRise, HaveIds;
    FitsHaveIds(t0, merged, ids0);
    if moved {
      var m :| IsMapping(t0, merged, ids0, m) && Renamed(t0, Moves(m), t) && ids == IdsAfter(ids0, Moves(m));
      MovedPoolsAreInTheirBands(t0, merged, ids0, m, t);
    }
  }

  lemma MovedPoolsAreInTheirBands(t0: Table, merged: seq<Item>, ids0: map<string, Ref>, m: map<int, int>, t: Table)
    requires Fits(t0, merged, ids0) && IsMapping(t0, merged, ids0, m) && Renamed(t0, Moves(m), t)
    ensures var ids := IdsAfter(ids0, Moves(m));
      Tidy(t, merged, ids) && !Stray(t, merged, ids) && HaveIds(merged, ids) && IdsRise(merged, ids)
  {
    var ids := IdsAfter(ids0, Moves(m));
    NewKeysAreTargets(t0, merged, ids0, m);
    RenamedIsTidy(t0, merged, ids0, Moves(m), t);
    RenumberedUnknown(t0, merged, ids0, m);
    hide Tidy, IsMapping, Renamed, Stray, HaveIds, InBand, BandId, IdsAfter, Moves, NewKey;
    forall i | 0 <= i < |merged| && merged[i].slug != UNKNOWN
      ensures merged[i].slug in ids && ids[merged[i].slug].id == BandId(merged, i) && InBand(BandId(merged, i), merged[i].prio)
    {
      RenumberedIds(t0, merged, ids0, m, i);
    }
    InBandsIsNotStray(t, merged, ids);
    ListedHaveIds(t, merged, ids);
    forall i, j | 0 <= i < j < |merged| && merged[i].slug != UNKNOWN && merged[j].slug != UNKNOWN
      ensures ids[merged[i].slug].id < ids[merged[j].slug].id {
      BandIdsRise(merged, i, j);
    }
  }

  lemma InBandsIsNotStray(t: Table, merged: seq<Item>, ids: map<string, Ref>)
    requires Tidy(t, merged, ids) && DistinctSlugs(merged) && ids[UNKNOWN].id == UNKNOWN_ID
    requires forall i | 0 <= i < |merged| && merged[i].slug != UNKNOWN :: merged[i].slug in ids && InBand(ids[merged[i].slug].id, merged[i].prio)
    ensures !Stray(t, merged, ids)
  {
    SeenOnce(merged);
  }

  // ---------------------------------------------------------------------------------------
  // Two ways to name a block's pool

  /** Whether a pool's addresses or tags match one given block. Nothing matches without any. */
  type Matcher = (seq<string>, seq<string>) -> bool

  ghost predicate Proper(hit: Matcher) { !hit([], []) }

  function ListOf(column: Option<seq<string>>): seq<string> {
    match column case Some(xs) => xs case None => []
  }

  predicate RowHits(r: Row, hit: Matcher) { hit(ListOf(r.addresses), ListOf(r.regexes)) }

  /** The backend: the matching row with the lowest id. */
  ghost predicate FirstById(t: Table, hit: Matcher, id: int) {
    id in t && RowHits(t[id], hit) && forall j | j in t && RowHits(t[j], hit) :: id <= j
  }

  predicate ItemHits(it: Item, hit: Matcher) { hit(it.entry.addresses, it.entry.tags) }

  /** The script: the first match in merged order. */
  ghost predicate FirstMerged(merged: seq<Item>, hit: Matcher, i: nat) {
    i < |merged| && ItemHits(merged[i], hit) && forall j | 0 <= j < i :: !ItemHits(merged[j], hit)
  }

  lemma BlankRowsHitNothing(r: Row, hit: Matcher)
    requires Proper(hit) && Blank(r)
    ensures !RowHits(r, hit)
  {
    assert ListOf(r.addresses) == [] && ListOf(r.regexes) == [];
  }

  /** Dropped pools and duplicate rows name no block. */
  lemma OnlyOwnRowsHit(t: Table, merged: seq<Item>, ids: map<string, Ref>, hit: Matcher, id: int)
    requires Tidy(t, merged, ids) && Proper(hit) && id in t && RowHits(t[id], hit)
    ensures Owns(t, ids, id)
  {
    if Blank(t[id]) {
      BlankRowsHitNothing(t[id], hit);
    }
  }

  lemma OwnRowHits(t: Table, merged: seq<Item>, ids: map<string, Ref>, hit: Matcher, i: nat)
    requires Tidy(t, merged, ids) && DistinctSlugs(merged) && HaveIds(merged, ids) && i < |merged|
    ensures ids[merged[i].slug].id in t
    ensures RowHits(t[ids[merged[i].slug].id], hit) <==> ItemHits(merged[i], hit)
  {
    SeenOnce(merged);
  }

  /** The list's pool number `i` is the only one that matches. */
  ghost predicate OnlyHit(merged: seq<Item>, hit: Matcher, i: nat) {
    forall j | 0 <= j < |merged| && j != i :: !ItemHits(merged[j], hit)
  }

  /**
    The backend's first match and the list's first match are of one priority band, for every
    block; and after a renumbering they are the same pool. The one exception is a list that names
    the Unknown pool and gives it a matcher: where that is the list's first match, the backend, which
    has Unknown at the highest id, names it exactly when no other pool matches.
   */
  lemma IdOrderAgreesWithPriority(t: Table, merged: seq<Item>, ids: map<string, Ref>, hit: Matcher, i: nat, id: int)
    requires Tidy(t, merged, ids) && DistinctSlugs(merged) && ByBand(merged) && HaveIds(merged, ids)
    requires !Stray(t, merged, ids) && Proper(hit)
    requires FirstMerged(merged, hit, i) && FirstById(t, hit, id)
    ensures merged[i].slug != UNKNOWN ==>
      exists j :: 0 <= j < |merged| && ids[merged[j].slug].id == id && Band(merged[j].prio) == Band(merged[i].prio)
                  && (IdsRise(merged, ids) ==> j == i)
    ensures merged[i].slug == UNKNOWN ==> (id == ids[UNKNOWN].id <==> OnlyHit(merged, hit, i))
    ensures IdsRise(merged, ids) ==> (id == ids[merged[i].slug].id <==> merged[i].slug != UNKNOWN || OnlyHit(merged, hit, i))
  {
    hide IdsRise, OnlyHit;
    if merged[i].slug == UNKNOWN {
      UnknownFirst(t, merged, ids, hit, i, id);
    } else {
      NamedFirst(t, merged, ids, hit, i, id);
    }
    hide *;
  }

  lemma NamedFirst(t: Table, merged: seq<Item>, ids: map<string, Ref>, hit: Matcher, i: nat, id: int)
    requires Tidy(t, merged, ids) && DistinctSlugs(merged) && ByBand(merged) && HaveIds(merged, ids)
    requires !Stray(t, merged, ids) && Proper(hit)
    requires FirstMerged(merged, hit, i) && FirstById(t, hit, id) && merged[i].slug != UNKNOWN
    ensures exists j :: 0 <= j < |merged| && ids[merged[j].slug].id == id && Band(merged[j].prio) == Band(merged[i].prio)
                        && (IdsRise(merged, ids) ==> j == i)
  {
    OnlyOwnRowsHit(t, merged, ids, hit, id);
    OwnRowHits(t, merged, ids, hit, i);
    SeenOnce(merged);
    var own := ids[merged[i].slug].id;
    assert InBand(own, merged[i].prio);
    assert t[id].slug != UNKNOWN;
    var j := SlugIsListed(t, merged, ids, t[id].slug);
    OwnRowHits(t, merged, ids, hit, j);
    assert InBand(id, merged[j].prio);
    hide Tidy, Stray, BySlug, FirstMerged, FirstById, DistinctSlugs;
    FirstsAgree(merged, i, j, own, id);
  }

  lemma UnknownFirst(t: Table, merged: seq<Item>, ids: map<string, Ref>, hit: Matcher, i: nat, id: int)
    requires Tidy(t, merged, ids) && DistinctSlugs(merged) && HaveIds(merged, ids)
    requires !Stray(t, merged, ids) && Proper(hit)
    requires FirstMerged(merged, hit, i) && FirstById(t, hit, id) && merged[i].slug == UNKNOWN
    ensures id == ids[UNKNOWN].id <==> OnlyHit(merged, hit, i)
  {
    hide Tidy, Stray, BySlug, DistinctSlugs, ItemHits, RowHits;
    OnlyOwnRowsHit(t, merged, ids, hit, id);
    if j :| 0 <= j < |merged| && j != i && ItemHits(merged[j], hit) {
      OtherHitIsLower(t, merged, ids, hit, i, j);
    } else {
      NoOtherHit(t, merged, ids, hit, i, id);
    }
  }

  lemma OtherHitIsLower(t: Table, merged: seq<Item>, ids: map<string, Ref>, hit: Matcher, i: nat, j: nat)
    requires Tidy(t, merged, ids) && DistinctSlugs(merged) && HaveIds(merged, ids) && !Stray(t, merged, ids)
    requires i < |merged| && j < |merged| && j != i && merged[i].slug == UNKNOWN && ItemHits(merged[j], hit)
    ensures ids[merged[j].slug].id in t && RowHits(t[ids[merged[j].slug].id], hit) && ids[merged[j].slug].id < ids[UNKNOWN].id
  {
    OwnRowHits(t, merged, ids, hit, j);
    SeenOnce(merged);
    assert InBand(ids[merged[j].slug].id, merged[j].prio);
    hide Tidy, BySlug, RowHits, ItemHits;
  }

  lemma NoOtherHit(t: Table, merged: seq<Item>, ids: map<string, Ref>, hit: Matcher, i: nat, id: int)
    requires Tidy(t, merged, ids) && DistinctSlugs(merged) && HaveIds(merged, ids)
    requires i < |merged| && merged[i].slug == UNKNOWN && OnlyHit(merged, hit, i)
    requires id in t && Owns(t, ids, id) && RowHits(t[id], hit)
    ensures id == ids[UNKNOWN].id
  {
    hide BySlug;
    if t[id].slug != UNKNOWN {
      var j := SlugIsListed(t, merged, ids, t[id].slug);
      OwnRowHits(t, merged, ids, hit, j);
    }
    hide Tidy, ItemHits, RowHits;
  }

  lemma FirstsAgree(merged: seq<Item>, i: nat, j: nat, own: int, id: int)
    requires i <= j < |merged| && ByBand(merged)
    requires InBand(own, merged[i].prio) && InBand(id, merged[j].prio) && id <= own
    ensures Band(merged[j].prio) == Band(merged[i].prio)
  {
    if Band(merged[i].prio) < Band(merged[j].prio) {
      BandsRise(merged[i].prio, merged[j].prio);
    }
  }

  /** A block the list names no pool for is the Unknown pool's to the backend, or nobody's. */
  lemma NoMatchIsUnknown(t: Table, merged: seq<Item>, ids: map<string, Ref>, hit: Matcher, id: int)
    requires Tidy(t, merged, ids) && DistinctSlugs(merged) && HaveIds(merged, ids) && Proper(hit)
    requires (forall i | 0 <= i < |merged| :: !ItemHits(merged[i], hit)) && FirstById(t, hit, id)
    ensures id == ids[UNKNOWN].id
  {
    OnlyOwnRowsHit(t, merged, ids, hit, id);
    if t[id].slug != UNKNOWN {
      var j := SlugIsListed(t, merged, ids, t[id].slug);
      OwnRowHits(t, merged, ids, hit, j);
    }
  }
}
