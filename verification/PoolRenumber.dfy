/** `renumber_pools`: where each pool's row goes, and that nothing is mixed up on the way. */
module PoolRenumber {
  import opened Prelude
  import opened PoolTable
  import opened Rekey

  const SCRATCH_SIZE := UNKNOWN_ID - SCRATCH_BASE

  // ---------------------------------------------------------------------------------------
  // Where each row goes

  /** How many of the first `n` pools belong to a band. */
  function BandCount(merged: seq<Item>, n: nat, band: nat): nat
    requires n <= |merged|
  {
    if n == 0 then 0 else BandCount(merged, n - 1, band) + if Band(merged[n - 1].prio) == band then 1 else 0
  }

  /** The id of pool number `i`: the next one of its band, in merged order. */
  function BandId(merged: seq<Item>, i: nat): int
    requires i < |merged|
  {
    Lo(Band(merged[i].prio)) + BandCount(merged, i, Band(merged[i].prio))
  }

  /** More pools than ids in some band: the source raises an error. */
  ghost predicate Overflows(merged: seq<Item>) {
    exists i :: 0 <= i < |merged| && BandId(merged, i) > Hi(Band(merged[i].prio))
  }

  /** A row that no listed pool, nor Unknown, goes by: dropped pools and duplicates. */
  predicate Parked(t: Table, ids: map<string, Ref>, id: int) {
    id in t && !Owns(t, ids, id)
  }

  ghost function ParkedBelow(t: Table, ids: map<string, Ref>, id: int): set<int> {
    set j | j in t && Parked(t, ids, j) && j < id
  }

  /** Parked rows follow the generic pools, in the order of their old ids. */
  function ParkingFrom(merged: seq<Item>): int { Lo(5) + BandCount(merged, |merged|, 5) }

  /**
    `m` sends each row where `renumber_pools` wants it. A list that names the Unknown pool counts it
    in its band like any other, but its row goes to UNKNOWN_ID all the same.
   */
  ghost predicate IsMapping(t: Table, merged: seq<Item>, ids: map<string, Ref>, m: map<int, int>)
    requires Tidy(t, merged, ids)
  {
    && m.Keys == t.Keys
    && m[ids[UNKNOWN].id] == UNKNOWN_ID
    && (forall i | 0 <= i < |merged| && merged[i].slug in ids && merged[i].slug != UNKNOWN :: m[ids[merged[i].slug].id] == BandId(merged, i))
    && (forall id | id in t && Parked(t, ids, id) :: m[id] == ParkingFrom(merged) + |ParkedBelow(t, ids, id)|)
  }

  lemma {:induction false} CountsRise(merged: seq<Item>, i: nat, n: nat, band: nat)
    requires i <= n <= |merged|
    ensures BandCount(merged, i, band) <= BandCount(merged, n, band)
    ensures i < n && Band(merged[i].prio) == band ==> BandCount(merged, i, band) < BandCount(merged, n, band)
    decreases n
  {
    if i < n {
      CountsRise(merged, i, n - 1, band);
    }
  }

  /** Pools of one band get rising ids, and bands do not overlap: listed pools never share an id. */
  lemma BandIdsAreDistinct(merged: seq<Item>, i: nat, j: nat)
    requires i < j < |merged| && !Overflows(merged)
    ensures BandId(merged, i) != BandId(merged, j)
    ensures Band(merged[i].prio) == Band(merged[j].prio) ==> BandId(merged, i) < BandId(merged, j)
  {
    CountsRise(merged, i, j, Band(merged[j].prio));
    assert BandId(merged, i) <= Hi(Band(merged[i].prio)) && BandId(merged, j) <= Hi(Band(merged[j].prio));
  }

  lemma ParkedIdsRise(t: Table, ids: map<string, Ref>, a: int, b: int)
    requires Parked(t, ids, a) && Parked(t, ids, b) && a < b
    ensures |ParkedBelow(t, ids, a)| < |ParkedBelow(t, ids, b)|
  {
    assert ParkedBelow(t, ids, a) + {a} <= ParkedBelow(t, ids, b);
    SubsetIsSmaller(ParkedBelow(t, ids, a) + {a}, ParkedBelow(t, ids, b));
  }

  lemma {:induction false} SubsetIsSmaller<T>(a: set<T>, b: set<T>)
    requires a <= b
    ensures |a| <= |b|
    decreases |a|
  {
    if a != {} {
      var x :| x in a;
      SubsetIsSmaller(a - {x}, b - {x});
    }
  }

  /** Every listed pool has its id. */
  ghost predicate HaveIds(merged: seq<Item>, ids: map<string, Ref>) {
    UNKNOWN in ids && forall i | 0 <= i < |merged| :: merged[i].slug in ids
  }

  /** The ids of the first `n` listed pools' own rows. */
  ghost function OwnIds(merged: seq<Item>, n: nat, ids: map<string, Ref>): set<int>
    requires n <= |merged| && HaveIds(merged, ids)
  {
    if n == 0 then {} else OwnIds(merged, n - 1, ids) + {ids[merged[n - 1].slug].id}
  }

  lemma {:induction false} OwnIdIsListed(merged: seq<Item>, n: nat, ids: map<string, Ref>, x: int) returns (i: nat)
    requires n <= |merged| && HaveIds(merged, ids) && x in OwnIds(merged, n, ids)
    ensures i < n && x == ids[merged[i].slug].id
  {
    if x == ids[merged[n - 1].slug].id {
      i := n - 1;
    } else {
      i := OwnIdIsListed(merged, n - 1, ids, x);
    }
  }

  lemma ListedHaveIds(t: Table, merged: seq<Item>, ids: map<string, Ref>)
    requires Tidy(t, merged, ids) && DistinctSlugs(merged)
    ensures HaveIds(merged, ids)
    ensures forall i | 0 <= i < |merged| :: merged[i].slug in BySlug(merged)
  {
    SeenOnce(merged);
  }

  lemma SlugIsListed(t: Table, merged: seq<Item>, ids: map<string, Ref>, s: string) returns (i: nat)
    requires Tidy(t, merged, ids) && DistinctSlugs(merged) && s in ids && s != UNKNOWN
    ensures i < |merged| && merged[i].slug == s
  {
    SeenOnce(merged);
    i :| 0 <= i < |merged| && merged[i].slug == s;
  }

  /** Listed pools' own rows are rows of the table and none of them is parked. */
  lemma {:induction false} OwnIdsAreOwn(t: Table, merged: seq<Item>, n: nat, ids: map<string, Ref>, parked: set<int>)
    requires Tidy(t, merged, ids) && n <= |merged| && HaveIds(merged, ids)
    requires forall x | x in parked :: Parked(t, ids, x)
    ensures OwnIds(merged, n, ids) <= t.Keys && OwnIds(merged, n, ids) !! parked
  {
    if n > 0 {
      OwnIdsAreOwn(t, merged, n - 1, ids, parked);
      var x := ids[merged[n - 1].slug].id;
      assert x in t && Owns(t, ids, x);
    }
  }

  /** No two listed pools have one row. */
  lemma OwnIdIsNew(t: Table, merged: seq<Item>, n: nat, ids: map<string, Ref>)
    requires Tidy(t, merged, ids) && DistinctSlugs(merged) && n < |merged| && HaveIds(merged, ids)
    ensures ids[merged[n].slug].id !in OwnIds(merged, n, ids)
  {
    var x := ids[merged[n].slug].id;
    if x in OwnIds(merged, n, ids) {
      hide BySlug;
      var i := OwnIdIsListed(merged, n, ids, x);
    }
  }

  lemma OneMoreCounted(merged: seq<Item>, n: nat, band: nat)
    requires n < |merged|
    ensures BandCount(merged, n + 1, band) <= BandCount(merged, n, band) + 1
  {
  }

  lemma OneMoreOwnId(merged: seq<Item>, n: nat, ids: map<string, Ref>)
    requires n < |merged| && HaveIds(merged, ids) && ids[merged[n].slug].id !in OwnIds(merged, n, ids)
    ensures |OwnIds(merged, n + 1, ids)| == |OwnIds(merged, n, ids)| + 1
  {
  }

  lemma {:induction false} OwnIdsCount(t: Table, merged: seq<Item>, n: nat, ids: map<string, Ref>)
    requires Tidy(t, merged, ids) && DistinctSlugs(merged) && n <= |merged| && HaveIds(merged, ids)
    ensures BandCount(merged, n, 5) <= |OwnIds(merged, n, ids)|
  {
    hide Tidy, DistinctSlugs, BySlug, Band;
    if n > 0 {
      hide OwnIds, BandCount;
      OwnIdsCount(t, merged, n - 1, ids);
      OwnIdIsNew(t, merged, n - 1, ids);
      OneMoreOwnId(merged, n - 1, ids);
      OneMoreCounted(merged, n - 1, 5);
    }
  }

  lemma DisjointFit<T>(xs: set<T>, ys: set<T>, z: T, all: set<T>)
    requires xs <= all && ys <= all && z in all && xs !! ys && z !in xs && z !in ys
    ensures |xs| + |ys| < |all|
  {
    assert |xs + ys| == |xs| + |ys|;
    SubsetIsSmaller(xs + ys + {z}, all);
  }

  /** The generic pools and the parked rows together are no more than the rows. */
  lemma ParkedFit(t: Table, merged: seq<Item>, ids: map<string, Ref>, id: int)
    requires Tidy(t, merged, ids) && DistinctSlugs(merged) && Parked(t, ids, id)
    ensures BandCount(merged, |merged|, 5) + |ParkedBelow(t, ids, id)| < |t|
  {
    ListedHaveIds(t, merged, ids);
    OwnIdsCount(t, merged, |merged|, ids);
    OwnIdsAreOwn(t, merged, |merged|, ids, ParkedBelow(t, ids, id) + {id});
    hide Tidy, BySlug, DistinctSlugs, OwnIds, BandCount, HaveIds, Owns;
    DisjointFit(OwnIds(merged, |merged|, ids), ParkedBelow(t, ids, id), id, t.Keys);
    assert |t.Keys| == |t|;
  }

  /** A listed pool's id stays in its band, and so below every parked row and the Unknown pool's. */
  lemma BandIdBounds(merged: seq<Item>, i: nat)
    requires i < |merged| && !Overflows(merged)
    ensures InBand(BandId(merged, i), merged[i].prio)
    ensures 0 < BandId(merged, i) < ParkingFrom(merged) && BandId(merged, i) <= Hi(5) < UNKNOWN_ID
  {
    assert BandId(merged, i) <= Hi(Band(merged[i].prio));
    CountsRise(merged, i, |merged|, Band(merged[i].prio));
  }

  /** The three kinds of rows: the Unknown pool's, listed pool number `i`'s, and parked ones. */
  datatype Kind = IsUnknown | IsListed(i: nat) | IsParked

  ghost predicate OfKind(t: Table, merged: seq<Item>, ids: map<string, Ref>, m: map<int, int>, id: int, k: Kind)
    requires id in m && HaveIds(merged, ids)
  {
    match k
    case IsUnknown => id == ids[UNKNOWN].id && m[id] == UNKNOWN_ID
    case IsListed(i) => i < |merged| && id == ids[merged[i].slug].id && m[id] == BandId(merged, i)
    case IsParked => Parked(t, ids, id) && m[id] == ParkingFrom(merged) + |ParkedBelow(t, ids, id)|
  }

  lemma KindOf(t: Table, merged: seq<Item>, ids: map<string, Ref>, m: map<int, int>, id: int) returns (k: Kind)
    requires Tidy(t, merged, ids) && DistinctSlugs(merged) && IsMapping(t, merged, ids, m) && id in t
    ensures HaveIds(merged, ids) && id in m && OfKind(t, merged, ids, m, id, k)
  {
    ListedHaveIds(t, merged, ids);
    hide BySlug, BandId, ParkedBelow, ParkingFrom, DistinctSlugs;
    if !Owns(t, ids, id) {
      k := IsParked;
    } else if t[id].slug == UNKNOWN {
      k := IsUnknown;
    } else {
      var i := SlugIsListed(t, merged, ids, t[id].slug);
      k := IsListed(i);
    }
  }

  /** No two rows are sent to one id, however many are parked. */
  lemma TargetsAreDistinct(t: Table, merged: seq<Item>, ids: map<string, Ref>, m: map<int, int>)
    requires Tidy(t, merged, ids) && DistinctSlugs(merged) && !Overflows(merged) && |t| <= SCRATCH_SIZE
    requires IsMapping(t, merged, ids, m)
    ensures Injective(m)
  {
    forall a, b | a in m && b in m && a != b ensures m[a] != m[b] {
      TwoTargets(t, merged, ids, m, a, b);
    }
  }

  /** How the target of a row is bounded by the row's kind. */
  lemma TargetBounds(t: Table, merged: seq<Item>, ids: map<string, Ref>, m: map<int, int>, id: int, k: Kind)
    requires Tidy(t, merged, ids) && DistinctSlugs(merged) && !Overflows(merged) && |t| <= SCRATCH_SIZE
    requires HaveIds(merged, ids) && id in m && OfKind(t, merged, ids, m, id, k)
    ensures match k
      case IsUnknown => m[id] == UNKNOWN_ID
      case IsListed(i) => m[id] < ParkingFrom(merged) && m[id] <= Hi(5)
      case IsParked => ParkingFrom(merged) <= m[id] < UNKNOWN_ID
    ensures m[id] > 0
  {
    match k
    case IsUnknown =>
    case IsListed(i) =>
      BandIdBounds(merged, i);
      hide Tidy, BandId, HaveIds, Overflows, DistinctSlugs, ParkingFrom;
    case IsParked =>
      ParkedFit(t, merged, ids, id);
      hide Tidy, BandId, HaveIds, Overflows, DistinctSlugs, ParkedBelow;
  }

  lemma TwoTargets(t: Table, merged: seq<Item>, ids: map<string, Ref>, m: map<int, int>, a: int, b: int)
    requires Tidy(t, merged, ids) && DistinctSlugs(merged) && !Overflows(merged) && |t| <= SCRATCH_SIZE
    requires IsMapping(t, merged, ids, m) && a in t && b in t && a != b
    ensures m[a] != m[b]
  {
    hide Tidy, IsMapping, DistinctSlugs, BandId, BandCount, ParkedBelow, Parked, Overflows, HaveIds, BySlug, ParkingFrom;
    var j := KindOf(t, merged, ids, m, a);
    var k := KindOf(t, merged, ids, m, b);
    if j.IsListed? && k.IsListed? {
      TwoListed(merged, j.i, k.i);
    } else if j.IsParked? && k.IsParked? {
      TwoParked(t, ids, a, b);
    } else {
      TargetBounds(t, merged, ids, m, a, j);
      TargetBounds(t, merged, ids, m, b, k);
      hide OfKind;
    }
  }

  lemma TwoListed(merged: seq<Item>, i: nat, j: nat)
    requires i < |merged| && j < |merged| && i != j && !Overflows(merged)
    ensures BandId(merged, i) != BandId(merged, j)
  {
    hide BandId, Overflows;
    if i < j {
      BandIdsAreDistinct(merged, i, j);
    } else {
      BandIdsAreDistinct(merged, j, i);
    }
  }

  lemma TwoParked(t: Table, ids: map<string, Ref>, a: int, b: int)
    requires Parked(t, ids, a) && Parked(t, ids, b) && a != b
    ensures |ParkedBelow(t, ids, a)| != |ParkedBelow(t, ids, b)|
  {
    hide ParkedBelow, Parked;
    if a < b {
      ParkedIdsRise(t, ids, a, b);
    } else {
      ParkedIdsRise(t, ids, b, a);
    }
  }

  // ---------------------------------------------------------------------------------------
  // The two statements

  /** The rows that move. */
  function Moves(m: map<int, int>): map<int, int> {
    map o | o in m && o != m[o] :: m[o]
  }

  /** Scratch ids, one to a moving row, from SCRATCH_BASE up. */
  ghost predicate IsScratch(moves: map<int, int>, scratch: map<int, int>) {
    && scratch.Keys == moves.Keys && Injective(scratch)
    && forall o | o in scratch :: SCRATCH_BASE <= scratch[o] < SCRATCH_BASE + SCRATCH_SIZE
  }

  /** No row sits in the scratch range. */
  ghost predicate ScratchIsFree(t: Table) {
    forall id | id in t :: !(SCRATCH_BASE <= id < UNKNOWN_ID)
  }

  /** Parked rows stay below the scratch range, which the source does not check. */
  ghost predicate ParkingHasRoom(t: Table, merged: seq<Item>, ids: map<string, Ref>) {
    forall id | id in t && Parked(t, ids, id) :: ParkingFrom(merged) + |ParkedBelow(t, ids, id)| < SCRATCH_BASE
  }

  lemma MovesAreADetour(t: Table, m: map<int, int>, scratch: map<int, int>, second: map<int, int>)
    requires m.Keys == t.Keys && Injective(m) && ScratchIsFree(t)
    requires IsScratch(Moves(m), scratch) && SecondLeg(Moves(m), scratch, second)
    ensures Detour(t, Moves(m), scratch, second)
  {
    var moves := Moves(m);
    forall o | o in moves && moves[o] in t ensures moves[o] in moves {
      assert o in m && m[o] in m && m[o] != o;
    }
    forall a, b | a in moves && b in moves && a != b ensures moves[a] != moves[b] {
      assert a in m && b in m;
    }
    MovingRowsAreRows(t, m);
  }

  lemma MovingRowsAreRows(t: Table, m: map<int, int>)
    requires m.Keys == t.Keys
    ensures Moves(m).Keys <= t.Keys
  {
    assert Moves(m).Keys <= m.Keys;
  }

  lemma TargetIsNotScratch(t: Table, merged: seq<Item>, ids: map<string, Ref>, m: map<int, int>, o: int)
    requires Tidy(t, merged, ids) && DistinctSlugs(merged) && !Overflows(merged) && |t| <= SCRATCH_SIZE
    requires IsMapping(t, merged, ids, m) && ParkingHasRoom(t, merged, ids) && o in t
    ensures m[o] < SCRATCH_BASE || m[o] == UNKNOWN_ID
  {
    hide Tidy, IsMapping, Overflows, DistinctSlugs, HaveIds, BandId, BySlug, ParkedBelow;
    var k := KindOf(t, merged, ids, m, o);
    TargetBounds(t, merged, ids, m, o, k);
  }

  lemma TargetsAvoidScratch(t: Table, merged: seq<Item>, ids: map<string, Ref>, m: map<int, int>, scratch: map<int, int>)
    requires Tidy(t, merged, ids) && DistinctSlugs(merged) && !Overflows(merged) && |t| <= SCRATCH_SIZE
    requires IsMapping(t, merged, ids, m) && IsScratch(Moves(m), scratch) && ParkingHasRoom(t, merged, ids)
    ensures ApartFromScratch(Moves(m), scratch)
  {
    forall o | o in Moves(m) ensures Moves(m)[o] < SCRATCH_BASE || Moves(m)[o] == UNKNOWN_ID {
      TargetIsNotScratch(t, merged, ids, m, o);
    }
    hide Tidy, IsMapping, ParkingHasRoom, Overflows, DistinctSlugs;
  }

  /** Who mined a block, through its pool id. */
  ghost predicate JoinsSame<B, V>(refs: map<B, int>, pools: map<int, V>, refs': map<B, int>, pools': map<int, V>) {
    refs'.Keys == refs.Keys
    && forall b | b in refs && refs[b] in pools :: refs'[b] in pools' && pools'[refs'[b]] == pools[refs[b]]
  }

  /** `UPDATE blocks SET pool_id = CASE ...` */
  function Repointed<B(==)>(blocks: map<B, int>, moves: map<int, int>): map<B, int> {
    map b | b in blocks :: NewKey(moves, blocks[b])
  }

  /** The moves of the hashrate rows, which are unique by time and pool. */
  function Lifted<V>(rates: map<(int, int), V>, to: map<int, int>): map<(int, int), (int, int)> {
    map k | k in rates && k.1 in to :: (k.0, to[k.1])
  }

  lemma RepointingKeepsJoins<B>(t: Table, moves: map<int, int>, t': Table, blocks: map<B, int>)
    requires Renamed(t, moves, t')
    ensures JoinsSame(blocks, t, Repointed(blocks, moves), t')
  {
    assert Repointed(blocks, moves).Keys == blocks.Keys;
  }

  /**
    The two statements on `pools`: no row update ever meets a taken id, in whatever order the rows
    are visited, and at the end every block is joined to the pool row it was joined to before.
   */
  lemma RenumberKeepsPools<B>(
      t: Table, merged: seq<Item>, ids: map<string, Ref>, m: map<int, int>, scratch: map<int, int>, second: map<int, int>,
      first: seq<int>, later: seq<int>, blocks: map<B, int>)
    requires Tidy(t, merged, ids) && DistinctSlugs(merged) && !Overflows(merged) && |t| <= SCRATCH_SIZE
    requires IsMapping(t, merged, ids, m) && ScratchIsFree(t) && ParkingHasRoom(t, merged, ids)
    requires IsScratch(Moves(m), scratch) && SecondLeg(Moves(m), scratch, second)
    requires Visits(first, Moves(m).Keys) && Visits(later, second.Keys)
    ensures Passes(t, first, scratch) && Passes(Result(t, first, scratch), later, second)
    ensures var t' := Result(Result(t, first, scratch), later, second);
      Renamed(t, Moves(m), t') && JoinsSame(blocks, t, Repointed(blocks, Moves(m)), t')
  {
    hide Tidy, DistinctSlugs, Overflows, ParkingHasRoom, ScratchIsFree, Injective, SecondLeg, Detour, Passes, Result, Renamed, JoinsSame, Repointed;
    TargetsAreDistinct(t, merged, ids, m);
    MovesAreADetour(t, m, scratch, second);
    TargetsAvoidScratch(t, merged, ids, m, scratch);
    TwoStatementsPass(t, Moves(m), scratch, second, first, later);
    MovingRowsAreRows(t, m);
    TwoStatementsRename(t, Moves(m), scratch, second, first, later);
    RepointingKeepsJoins(t, Moves(m), Result(Result(t, first, scratch), later, second), blocks);
  }

  /**
    Without room for the parked rows the second statement can fail: it passes in every order of
    rows exactly when no row is to end on the scratch id of another.
   */
  lemma RenumberFailsExactlyWhen(
      t: Table, merged: seq<Item>, ids: map<string, Ref>, m: map<int, int>, scratch: map<int, int>, second: map<int, int>,
      first: seq<int>)
    requires Tidy(t, merged, ids) && DistinctSlugs(merged) && !Overflows(merged) && |t| <= SCRATCH_SIZE
    requires IsMapping(t, merged, ids, m) && ScratchIsFree(t)
    requires IsScratch(Moves(m), scratch) && SecondLeg(Moves(m), scratch, second) && Visits(first, Moves(m).Keys)
    ensures Passes(t, first, scratch)
    ensures (forall order | Visits(order, second.Keys) :: Passes(Result(t, first, scratch), order, second))
              <==> ApartFromScratch(Moves(m), scratch)
  {
    hide Tidy, DistinctSlugs, Overflows, ScratchIsFree, Injective, SecondLeg, Detour, Passes, Result;
    TargetsAreDistinct(t, merged, ids, m);
    MovesAreADetour(t, m, scratch, second);
    SecondStatementSafeExactlyWhen(t, Moves(m), scratch, second, first);
  }

  /** The hashrate rows go the same two steps, and end at their own pools' new ids. */
  lemma RenumberKeepsRates<V>(
      rates: map<(int, int), V>, t: Table, merged: seq<Item>, ids: map<string, Ref>, m: map<int, int>, scratch: map<int, int>,
      second: map<(int, int), (int, int)>, first: seq<(int, int)>, later: seq<(int, int)>)
    requires Tidy(t, merged, ids) && DistinctSlugs(merged) && !Overflows(merged) && |t| <= SCRATCH_SIZE
    requires IsMapping(t, merged, ids, m) && ScratchIsFree(t) && ParkingHasRoom(t, merged, ids)
    requires IsScratch(Moves(m), scratch)
    requires forall k | k in rates :: k.1 in t
    requires var moves, away := Lifted(rates, Moves(m)), Lifted(rates, scratch);
      SecondLeg(moves, away, second) && Visits(first, moves.Keys) && Visits(later, second.Keys)
    ensures var moves, away := Lifted(rates, Moves(m)), Lifted(rates, scratch);
      && Passes(rates, first, away) && Passes(Result(rates, first, away), later, second)
      && Renamed(rates, moves, Result(Result(rates, first, away), later, second))
  {
    TargetsAreDistinct(t, merged, ids, m);
    TargetsAvoidScratch(t, merged, ids, m, scratch);
    hide Tidy, DistinctSlugs, Overflows, ParkingHasRoom, Lifted, SecondLeg, Visits, Passes, Result, Renamed, Detour, Injective, IsScratch, ScratchIsFree, ApartFromScratch, Moves;
    var moves, away := Lifted(rates, Moves(m)), Lifted(rates, scratch);
    LiftedDetour(rates, t, m, scratch, second);
    TwoStatementsPass(rates, moves, away, second, first, later);
    TwoStatementsRename(rates, moves, away, second, first, later);
  }

  lemma LiftedDetour<V>(
      rates: map<(int, int), V>, t: Table, m: map<int, int>, scratch: map<int, int>, second: map<(int, int), (int, int)>)
    requires m.Keys == t.Keys && Injective(m) && ScratchIsFree(t) && IsScratch(Moves(m), scratch)
    requires ApartFromScratch(Moves(m), scratch)
    requires forall k | k in rates :: k.1 in t
    requires SecondLeg(Lifted(rates, Moves(m)), Lifted(rates, scratch), second)
    ensures Detour(rates, Lifted(rates, Moves(m)), Lifted(rates, scratch), second)
    ensures ApartFromScratch(Lifted(rates, Moves(m)), Lifted(rates, scratch))
  {
    LiftedMoves(rates, t, m);
    LiftedAway(rates, t, m, scratch);
    hide Moves, Injective, ScratchIsFree, IsScratch, SecondLeg, ApartFromScratch;
  }

  lemma LiftedMoves<V>(rates: map<(int, int), V>, t: Table, m: map<int, int>)
    requires m.Keys == t.Keys && Injective(m) && forall k | k in rates :: k.1 in t
    ensures var moves := Lifted(rates, Moves(m));
      && moves.Keys <= rates.Keys && Injective(moves) && (forall k | k in moves && moves[k] in rates :: moves[k] in moves)
      && forall k | k in moves :: moves[k] != k
  {
    var moves := Lifted(rates, Moves(m));
    forall k | k in moves && moves[k] in rates ensures moves[k] in moves {
      var o := k.1;
      assert m[o] in t;
      assert o in m && m[o] in m && m[o] != o;
    }
    forall a, b | a in moves && b in moves && a != b ensures moves[a] != moves[b] {
      assert a.1 in m && b.1 in m;
    }
  }

  lemma LiftedAway<V>(rates: map<(int, int), V>, t: Table, m: map<int, int>, scratch: map<int, int>)
    requires ScratchIsFree(t) && IsScratch(Moves(m), scratch) && ApartFromScratch(Moves(m), scratch) && forall k | k in rates :: k.1 in t
    ensures var moves, away := Lifted(rates, Moves(m)), Lifted(rates, scratch);
      && away.Keys == moves.Keys && Injective(away) && (forall k | k in away :: away[k] !in rates) && ApartFromScratch(moves, away)
  {
    var moves, away := Lifted(rates, Moves(m)), Lifted(rates, scratch);
    assert away.Keys == moves.Keys;
    forall k | k in away ensures away[k] !in rates {
      assert SCRATCH_BASE <= away[k].1 < UNKNOWN_ID;
    }
    forall a, b | a in away && b in away && a != b ensures away[a] != away[b] && moves[a] != away[b] {
      assert a.1 in scratch && b.1 in scratch;
    }
  }
}
