/**
  Where a run of pools-sync.py leaves each pool and each block, in figures: the ids a pool may have for
  what it is, that no id in between is left out, and which pool a block is given to.
 */
module PoolPlaces {
  import opened Prelude
  import opened PoolTable
  import opened PoolRenumber
  import opened PoolSync
  import opened PoolMerge
  import opened PoolRetag
  import opened Rekey

  // ---------------------------------------------------------------------------------------
  // The ids of a pool

  /** The ids for a pool like this one. */
  ghost predicate IdFits(ov: Overrides, slug: string, e: Entry, id: int) {
    if IsLazarus(slug) then 1 <= id <= 99
    else if FlaggedPool(ov, slug) then 100 <= id <= 999
    else if slug in ov.generic then 60000 <= id <= 61999
    else if e.tags != [] then 1000 <= id <= 9999
    else if CalledSolo(e) then 30000 <= id <= 59999
    else 10000 <= id <= 29999
  }

  lemma BandIsFitting(ov: Overrides, slug: string, e: Entry, id: int)
    ensures InBand(id, Prio(slug, e, PoolMerge.Shared(ov.pools), ov.generic)) <==> IdFits(ov, slug, e, id)
  {
    SharedAreFlagged(ov, slug);
    hide FlaggedPool, PoolMerge.Shared, Lower;
  }

  /** After a run every pool of the merged list has an id for what it is, and the Unknown pool has 65500. */
  lemma IdsFit(g: Gathered, ov: Overrides, merged: seq<Item>, t: Table, ids: map<string, Ref>, i: nat)
    requires IsMerged(g, ov, merged) && Tidy(t, merged, ids) && !Stray(t, merged, ids) && i < |merged|
    ensures ids["unknown"].id == 65500
    ensures var s := merged[i].slug;
      s in ids && s in g.pools && (s != "unknown" ==> IdFits(ov, s, g.pools[s], ids[s].id))
  {
    SeenOnce(merged);
    BandIsFitting(ov, merged[i].slug, merged[i].entry, ids[merged[i].slug].id);
    hide InBand, Prio, IdFits, BySlug, Owns, PoolMerge.Shared;
  }

  // ---------------------------------------------------------------------------------------
  // A renumbering leaves no gap

  lemma {:induction false} CountIsReached(merged: seq<Item>, n: nat, band: nat, c: nat) returns (j: nat)
    requires n <= |merged| && c < BandCount(merged, n, band)
    ensures j < n && Band(merged[j].prio) == band && BandCount(merged, j, band) == c
    decreases n
  {
    if BandCount(merged, n - 1, band) > c {
      j := CountIsReached(merged, n - 1, band, c);
    } else {
      j := n - 1;
    }
  }

  /** The ids of a band are given in the order of the list, beginning with the band's first and leaving none out. */
  lemma BandHasNoGap(merged: seq<Item>, i: nat, x: int) returns (j: nat)
    requires i < |merged| && Lo(Band(merged[i].prio)) <= x < BandId(merged, i)
    ensures j < i && Band(merged[j].prio) == Band(merged[i].prio) && BandId(merged, j) == x
  {
    j := CountIsReached(merged, i, Band(merged[i].prio), x - Lo(Band(merged[i].prio)));
  }

  lemma {:induction false} HighestOf(xs: set<int>) returns (x: int)
    requires |xs| > 0
    ensures x in xs && forall y | y in xs :: y <= x
    decreases |xs|
  {
    x := SomeOf(xs);
    var rest := xs - {x};
    if |rest| > 0 {
      var y := HighestOf(rest);
      assert forall z | z in xs :: z in rest || z == x;
      if y > x {
        x := y;
      }
    } else {
      forall z | z in xs ensures z <= x {
        if z != x {
          SubsetIsSmaller({z}, rest);
        }
      }
    }
  }

  lemma SomeOf<T>(xs: set<T>) returns (x: T)
    requires |xs| > 0
    ensures x in xs
  {
    assert xs != {};
    x :| x in xs;
  }

  /** The parked row before this one, by old id. */
  lemma ParkedBefore(t: Table, ids: map<string, Ref>, id: int) returns (j: int)
    requires Parked(t, ids, id) && |ParkedBelow(t, ids, id)| > 0
    ensures Parked(t, ids, j) && j < id && |ParkedBelow(t, ids, j)| == |ParkedBelow(t, ids, id)| - 1
  {
    j := HighestOf(ParkedBelow(t, ids, id));
    forall k ensures k in ParkedBelow(t, ids, j) <==> k in ParkedBelow(t, ids, id) - {j} {}
    SameSet(ParkedBelow(t, ids, j), ParkedBelow(t, ids, id) - {j});
  }

  /** Rows parked at the end of the generic band follow its pools and one another, in the order of their old ids. */
  lemma ParkedHaveNoGap(t: Table, merged: seq<Item>, ids: map<string, Ref>, m: map<int, int>, id: int)
    requires Tidy(t, merged, ids) && IsMapping(t, merged, ids, m) && Parked(t, ids, id)
    ensures id in m && m[id] >= 60000
    ensures m[id] > 60000 ==>
      || (exists j :: Parked(t, ids, j) && j < id && j in m && m[j] == m[id] - 1)
      || (exists i: nat :: i < |merged| && Band(merged[i].prio) == 5 && BandId(merged, i) == m[id] - 1)
  {
    hide Tidy;
    if |ParkedBelow(t, ids, id)| > 0 {
      var j := ParkedBefore(t, ids, id);
      assert Parked(t, ids, j) && j in m && m[j] == m[id] - 1;
    } else if m[id] > 60000 {
      var i := CountIsReached(merged, |merged|, 5, BandCount(merged, |merged|, 5) - 1);
      assert BandId(merged, i) == m[id] - 1;
    }
  }

  // ---------------------------------------------------------------------------------------
  // The pool of a block

  /** The coinbase pays one of the pool's addresses, or one of its tags is found in it. */
  ghost predicate IsOf(b: Block, search: Search, e: Entry) {
    || (exists a :: a in b.addresses && a in e.addresses)
    || (exists tag :: tag in e.tags && search(tag, b.text))
  }

  lemma HitsAreThose(b: Block, search: Search, it: Item)
    ensures ItemHits(it, MatcherOf(b, search)) <==> IsOf(b, search, it.entry)
  {
  }

  /**
    `retag` gives each block from height 961640 on to the first pool of the list it is of, or to the
    Unknown pool, and changes nothing else.
   */
  lemma RetagGives(merged: seq<Item>, ids: map<string, Ref>, search: Search, blocks: Blocks, key: BlockKey)
    requires HaveIds(merged, ids) && key in blocks
    ensures var b, r := blocks[key], Retagged(merged, ids, search, blocks);
      && r.Keys == blocks.Keys
      && r[key] == b.(poolId := r[key].poolId)
      && (key.0 < 961640 ==> r[key] == b)
      && (key.0 >= 961640 ==>
            if forall i | 0 <= i < |merged| :: !IsOf(b, search, merged[i].entry) then r[key].poolId == ids["unknown"].id
            else exists i :: 0 <= i < |merged| && IsOf(b, search, merged[i].entry) && r[key].poolId == ids[merged[i].slug].id
                   && forall j | 0 <= j < i :: !IsOf(b, search, merged[j].entry))
  {
    var b, r := blocks[key], Retagged(merged, ids, search, blocks);
    assert r.Keys == blocks.Keys;
    FirstHitIs(merged, MatcherOf(b, search), 0);
    forall i | 0 <= i < |merged| ensures ItemHits(merged[i], MatcherOf(b, search)) <==> IsOf(b, search, merged[i].entry) {
      HitsAreThose(b, search, merged[i]);
    }
    hide IsOf, ItemHits, MatcherOf, FirstHit;
    if FirstHit(merged, MatcherOf(b, search), 0).Some? {
      var i := FirstHit(merged, MatcherOf(b, search), 0).value;
      assert 0 <= i < |merged| && IsOf(b, search, merged[i].entry);
    }
  }
}
