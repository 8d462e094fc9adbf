/** Lists and tables that show where the promises about pools-sync.py end. */
module PoolExamples {
  import opened Prelude
  import opened PoolTable
  import opened PoolRenumber
  import opened PoolSync
  import opened PoolFixedPoint
  import opened PoolRuns
  import opened Rekey

  function Plain(slug: string, uid: int): Row { Row(slug, "", Some([]), Some([]), slug, uid) }

  // ---------------------------------------------------------------------------------------
  // A listed Unknown pool with a matcher

  const LISTED_UNKNOWN := Item(UNKNOWN, Entry("Unknown", "", ["a"], ["t"]), 2)
  const LISTED_X := Item("x", Entry("X", "", ["a"], []), 3)

  function WantsA(): Matcher { (addresses, tags) => "a" in addresses }

  /**
    The list's first match is the Unknown pool, which stands in an earlier band; the backend, in id
    order, comes to pool X first.
   */
  lemma ListedUnknownIsShadowed()
    ensures var merged := [LISTED_UNKNOWN, LISTED_X];
      var t := map[10000 := Filled(LISTED_X, 2), UNKNOWN_ID := Filled(LISTED_UNKNOWN, 1)];
      var ids := map[UNKNOWN := Ref(UNKNOWN_ID, 1), "x" := Ref(10000, 2)];
      && Tidy(t, merged, ids) && DistinctSlugs(merged) && ByBand(merged) && HaveIds(merged, ids) && !Stray(t, merged, ids)
      && IdsRise(merged, ids) && Proper(WantsA()) && FirstMerged(merged, WantsA(), 0) && FirstById(t, WantsA(), 10000)
      && ids[merged[0].slug].id != 10000
  {
    var merged := [LISTED_UNKNOWN, LISTED_X];
    var t := map[10000 := Filled(LISTED_X, 2), UNKNOWN_ID := Filled(LISTED_UNKNOWN, 1)];
    var ids := map[UNKNOWN := Ref(UNKNOWN_ID, 1), "x" := Ref(10000, 2)];
    assert "x" != UNKNOWN by { assert |"x"| != |UNKNOWN|; }
    assert merged[..1] == [LISTED_UNKNOWN] && [LISTED_UNKNOWN][..0] == [];
    assert BySlug([]) == map[];
    assert BySlug([LISTED_UNKNOWN]) == map[UNKNOWN := LISTED_UNKNOWN];
    assert BySlug(merged) == map[UNKNOWN := LISTED_UNKNOWN, "x" := LISTED_X];
    assert t[10000].slug == "x" && t[UNKNOWN_ID].slug == UNKNOWN;
    assert "a" in LISTED_X.entry.addresses && "a" in LISTED_UNKNOWN.entry.addresses;
  }

  // ---------------------------------------------------------------------------------------
  // Two rows of the Unknown pool

  /** Rows 5 and UNKNOWN_ID both are the Unknown pool's; the lower one is the pool, and is moved. */
  const PAIR: Table := map[5 := Plain(UNKNOWN, 1), UNKNOWN_ID := Plain(UNKNOWN, 2)]
  const PAIR_IDS: map<string, Ref> := map[UNKNOWN := Ref(5, 1)]
  const PAIR_MOVES: map<int, int> := map[5 := UNKNOWN_ID, UNKNOWN_ID := 60000]
  const TRADED: Table := map[UNKNOWN_ID := Plain(UNKNOWN, 1), 60000 := Plain(UNKNOWN, 2)]
  const TRADED_IDS: map<string, Ref> := map[UNKNOWN := Ref(UNKNOWN_ID, 1)]

  lemma PairIsTidy()
    ensures Fits(PAIR, [], PAIR_IDS) && LowestOwn(PAIR, PAIR_IDS) && Parked(PAIR, PAIR_IDS, UNKNOWN_ID) && !Parked(PAIR, PAIR_IDS, 5)
    ensures Stray(PAIR, [], PAIR_IDS)
  {
    assert PAIR[5] == Plain(UNKNOWN, 1) && PAIR[UNKNOWN_ID] == Plain(UNKNOWN, 2);
    assert PAIR_IDS[UNKNOWN] == Ref(5, 1);
  }

  lemma PairIsMapped()
    ensures Tidy(PAIR, [], PAIR_IDS) && IsMapping(PAIR, [], PAIR_IDS, PAIR_MOVES)
  {
    PairIsTidy();
    NoElements(ParkedBelow(PAIR, PAIR_IDS, UNKNOWN_ID));
    hide Tidy, Fits, Parked, ParkedBelow;
  }

  lemma PairIsRenamed()
    ensures Moves(PAIR_MOVES) == PAIR_MOVES && Renamed(PAIR, PAIR_MOVES, TRADED)
    ensures IdsAfter(PAIR_IDS, PAIR_MOVES) == TRADED_IDS
  {
    SameMap(Moves(PAIR_MOVES), PAIR_MOVES);
    forall l | l in TRADED ensures exists k :: k in PAIR && NewKey(PAIR_MOVES, k) == l {
      assert NewKey(PAIR_MOVES, if l == 60000 then UNKNOWN_ID else 5) == l;
    }
  }

  /** A renumbering makes the pool's row the higher of the two, so that the next run finds the other. */
  lemma TwoUnknownRowsTrade()
    ensures Fits(PAIR, [], PAIR_IDS) && LowestOwn(PAIR, PAIR_IDS) && SpareUnknown(PAIR, PAIR_IDS) && TwoUnknown(PAIR)
    ensures Renumbered(PAIR, [], PAIR_IDS, TRADED, TRADED_IDS, true)
  {
    PairIsTidy();
    PairIsMapped();
    PairIsRenamed();
    assert PAIR[5].slug == UNKNOWN && PAIR[UNKNOWN_ID].slug == UNKNOWN;
    hide Fits, Tidy, LowestOwn, Parked, Stray, IsMapping, Renamed, IdsAfter, Moves, PAIR_MOVES, TRADED, TRADED_IDS;
  }

  // ---------------------------------------------------------------------------------------
  // More dropped pools than there is room for below the scratch range

  const DROPPED := 2001

  /** Rows 1 to 2001 are dropped pools', row 3000 is the Unknown pool's. */
  function Crowd(): Table {
    map id: int | 1 <= id <= 3000 && (id <= DROPPED || id == 3000) :: if id == 3000 then Plain(UNKNOWN, 0) else Plain("gone", id)
  }

  function CrowdIds(): map<string, Ref> { map[UNKNOWN := Ref(3000, 0)] }

  /** Dropped pools go to 60000 and up, in id order; the last one to 62000. */
  function CrowdMoves(): map<int, int> {
    map id | id in Crowd() :: if id == 3000 then UNKNOWN_ID else 59999 + id
  }

  /** The scratch ids, in the order of the rows. */
  function CrowdScratch(): map<int, int> {
    map id | id in Crowd() :: if id == 3000 then SCRATCH_BASE + DROPPED else SCRATCH_BASE + id - 1
  }

  function UpTo(n: nat): (all: set<int>)
    ensures forall k :: k in all <==> 1 <= k <= n
    ensures |all| == n
  {
    if n == 0 then {} else UpTo(n - 1) + {n}
  }

  lemma CountOf(keys: set<int>, n: nat, other: int)
    requires other > n && forall k :: k in keys <==> 1 <= k <= n || k == other
    ensures |keys| == n + 1
  {
    SameSet(keys, UpTo(n) + {other});
  }

  lemma CrowdCount()
    ensures |Crowd()| <= SCRATCH_SIZE
  {
    CountOf(Crowd().Keys, DROPPED, 3000);
    assert |Crowd().Keys| == |Crowd()|;
  }

  lemma CrowdRow(id: int)
    requires id in Crowd()
    ensures 1 <= id <= 3000 && Crowd()[id] == if id == 3000 then Plain(UNKNOWN, 0) else Plain("gone", id)
  {
  }

  lemma CrowdIsTidy()
    ensures Tidy(Crowd(), [], CrowdIds()) && |Crowd()| <= SCRATCH_SIZE && ScratchIsFree(Crowd())
    ensures forall id | id in Crowd() :: Parked(Crowd(), CrowdIds(), id) <==> id != 3000
  {
    assert "gone" != UNKNOWN by { assert |"gone"| != |UNKNOWN|; }
    CrowdCount();
    assert 3000 in Crowd();
    hide Crowd;
    forall id | id in Crowd()
      ensures 1 <= id <= 3000 && Crowd()[id] == if id == 3000 then Plain(UNKNOWN, 0) else Plain("gone", id)
    {
      CrowdRow(id);
    }
  }

  lemma CrowdParks(id: int)
    requires 1 <= id <= DROPPED
    ensures id in Crowd() && |ParkedBelow(Crowd(), CrowdIds(), id)| == id - 1
  {
    CrowdIsTidy();
    var below := ParkedBelow(Crowd(), CrowdIds(), id);
    hide Parked, Tidy, UpTo;
    SameSet(below, UpTo(id - 1));
  }

  /**
    With 2001 dropped pools the last of them is to end at 62000, the scratch id of the first: there
    is an order of rows in which the second statement meets a taken id.
   */
  lemma RenumberCanFail()
    ensures Tidy(Crowd(), [], CrowdIds()) && !Overflows([]) && |Crowd()| <= SCRATCH_SIZE && ScratchIsFree(Crowd())
    ensures IsMapping(Crowd(), [], CrowdIds(), CrowdMoves()) && IsScratch(Moves(CrowdMoves()), CrowdScratch())
    ensures !ApartFromScratch(Moves(CrowdMoves()), CrowdScratch())
  {
    CrowdIsTidy();
    var t, m, scratch := Crowd(), CrowdMoves(), CrowdScratch();
    hide Tidy, ParkedBelow, Parked;
    forall id | id in t && id != 3000 ensures m[id] == ParkingFrom([]) + |ParkedBelow(t, CrowdIds(), id)| {
      CrowdParks(id);
    }
    SameMap(Moves(m), m);
    SameSet(scratch.Keys, Moves(m).Keys);
    assert Moves(m)[DROPPED] == scratch[1];
  }
}
