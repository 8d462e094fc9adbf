/**
  The script's database, changed in place: `upsert_pools`, `renumber_pools` and `retag`, each
  proved against the functions of `PoolTable`, `PoolRenumber` and `PoolRetag`.
 */
module PoolsDb {
  import opened Prelude
  import opened PoolTable
  import opened PoolRenumber
  import opened PoolSync
  import opened PoolRetag
  import opened PoolRuns
  import opened Rekey

  /** A row of `hashrates`; these are unique by time and pool. */
  type RateKey = (int, int)

  /** How `renumber_pools` ends. A taken key raises an error, and the transaction is rolled back. */
  datatype Outcome = Idle | Moved(count: nat, ids: map<string, Ref>) | BandOverflow | TooManyPools | DuplicateKey

  /** Row `id` is that of one of the first `n` listed pools. */
  ghost predicate IsOneOf(merged: seq<Item>, ids: map<string, Ref>, n: nat, id: int)
    requires HaveIds(merged, ids) && n <= |merged|
  {
    exists j :: 0 <= j < n && ids[merged[j].slug].id == id
  }

  /** The first `n` listed pools' rows have their targets, and no other row has one. */
  ghost predicate TargetsSoFar(merged: seq<Item>, ids: map<string, Ref>, n: nat, m: map<int, int>)
    requires HaveIds(merged, ids) && n <= |merged|
  {
    && (forall j | 0 <= j < n :: ids[merged[j].slug].id in m && m[ids[merged[j].slug].id] == BandId(merged, j))
    && (forall id | id in m :: IsOneOf(merged, ids, n, id))
  }

  lemma NotOneOfTheFirst(t: Table, merged: seq<Item>, ids: map<string, Ref>, i: nat)
    requires Tidy(t, merged, ids) && DistinctSlugs(merged) && HaveIds(merged, ids) && i < |merged|
    ensures forall j | 0 <= j < i :: ids[merged[j].slug].id != ids[merged[i].slug].id
  {
    hide BySlug;
    forall j | 0 <= j < i ensures ids[merged[j].slug].id != ids[merged[i].slug].id {
      assert t[ids[merged[j].slug].id].slug == merged[j].slug;
    }
  }

  lemma OneMoreTarget(merged: seq<Item>, ids: map<string, Ref>, i: nat, m: map<int, int>)
    requires HaveIds(merged, ids) && i < |merged| && TargetsSoFar(merged, ids, i, m)
    requires forall j | 0 <= j < i :: ids[merged[j].slug].id != ids[merged[i].slug].id
    ensures TargetsSoFar(merged, ids, i + 1, m[ids[merged[i].slug].id := BandId(merged, i)])
  {
    hide BandId;
    var id := ids[merged[i].slug].id;
    assert IsOneOf(merged, ids, i + 1, id);
    forall x | IsOneOf(merged, ids, i, x) ensures IsOneOf(merged, ids, i + 1, x) {}
    hide IsOneOf;
  }

  /** The next id of each band once the first `n` pools have theirs. */
  ghost predicate Counters(merged: seq<Item>, n: nat, next: map<nat, int>)
    requires n <= |merged|
  {
    forall band: nat | band <= 5 :: band in next && next[band] == Lo(band) + BandCount(merged, n, band)
  }

  lemma CounterMoves(merged: seq<Item>, n: nat, next: map<nat, int>)
    requires n < |merged| && Counters(merged, n, next)
    ensures var band := Band(merged[n].prio);
      band in next && next[band] == BandId(merged, n) && Counters(merged, n + 1, next[band := next[band] + 1])
  {
    hide Lo;
  }

  method FirstIds(ghost merged: seq<Item>) returns (next: map<nat, int>)
    ensures Counters(merged, 0, next)
  {
    next := map band: nat | 0 <= band <= 5 :: Lo(band);
  }

  lemma NoTargets(merged: seq<Item>, ids: map<string, Ref>)
    requires HaveIds(merged, ids)
    ensures TargetsSoFar(merged, ids, 0, map[]) && InBandsSoFar(merged, 0)
  {
  }

  /** The first `n` pools' ids are no higher than their bands go. */
  ghost predicate InBandsSoFar(merged: seq<Item>, n: nat)
    requires n <= |merged|
  {
    forall j | 0 <= j < n :: BandId(merged, j) <= Hi(Band(merged[j].prio))
  }

  lemma OneMoreInBand(merged: seq<Item>, i: nat)
    requires i < |merged| && InBandsSoFar(merged, i) && BandId(merged, i) <= Hi(Band(merged[i].prio))
    ensures InBandsSoFar(merged, i + 1)
  {
  }

  lemma AllInBands(merged: seq<Item>)
    requires InBandsSoFar(merged, |merged|)
    ensures !Overflows(merged)
  {
  }

  lemma IdOverflows(merged: seq<Item>, i: nat)
    requires i < |merged| && BandId(merged, i) > Hi(Band(merged[i].prio))
    ensures Overflows(merged)
  {
  }

  lemma SlugHasId(merged: seq<Item>, ids: map<string, Ref>, i: nat)
    requires HaveIds(merged, ids) && i < |merged|
    ensures merged[i].slug in ids
  {
  }

  method ParkCounter(ghost merged: seq<Item>, next: map<nat, int>) returns (from: int)
    requires Counters(merged, |merged|, next)
    ensures from == ParkingFrom(merged)
  {
    from := next[5];
  }

  /** A row is a listed pool's, the Unknown pool's, or parked. */
  lemma RowKinds(t: Table, merged: seq<Item>, ids: map<string, Ref>, id: int)
    requires Tidy(t, merged, ids) && DistinctSlugs(merged) && HaveIds(merged, ids) && id in t
    ensures Parked(t, ids, id) <==> !IsOneOf(merged, ids, |merged|, id) && id != ids[UNKNOWN].id
  {
    if Owns(t, ids, id) && t[id].slug != UNKNOWN {
      var i := SlugIsListed(t, merged, ids, t[id].slug);
    }
    if IsOneOf(merged, ids, |merged|, id) {
      var j :| 0 <= j < |merged| && ids[merged[j].slug].id == id;
      ListedHaveIds(t, merged, ids);
    }
  }

  /** The parked rows among the first `i`. */
  ghost predicate ParkedAmong(t: Table, ids: map<string, Ref>, order: seq<int>, i: nat, parked: set<int>)
    requires i <= |order|
  {
    forall id :: id in parked <==> id in order[..i] && Parked(t, ids, id)
  }

  lemma ParkedBelowIs(t: Table, ids: map<string, Ref>, order: seq<int>, i: nat, parked: set<int>)
    requires i < |order| && Ascending(order) && (forall k :: k in order <==> k in t) && ParkedAmong(t, ids, order, i, parked)
    ensures ParkedBelow(t, ids, order[i]) == parked && order[i] !in parked
  {
    forall j ensures j in ParkedBelow(t, ids, order[i]) <==> j in parked {
      if j in order {
        var k :| 0 <= k < |order| && order[k] == j;
        assert j in order[..i] <==> k < i by {
          assert k < i ==> order[..i][k] == j;
        }
      }
    }
    SameSet(ParkedBelow(t, ids, order[i]), parked);
  }

  lemma NoneParked(t: Table, ids: map<string, Ref>, order: seq<int>)
    ensures ParkedAmong(t, ids, order, 0, {})
  {
    hide Parked;
  }

  lemma ParkedGrows(t: Table, ids: map<string, Ref>, order: seq<int>, i: nat, parked: set<int>)
    requires i < |order| && ParkedAmong(t, ids, order, i, parked)
    ensures ParkedAmong(t, ids, order, i + 1, if Parked(t, ids, order[i]) then parked + {order[i]} else parked)
  {
    hide Parked;
    assert order[..i + 1] == order[..i] + [order[i]];
  }

  /** The mapping once the first `i` rows in id order are seen. */
  ghost predicate MappedSoFar(t: Table, merged: seq<Item>, ids: map<string, Ref>, order: seq<int>, i: nat, m: map<int, int>)
    requires HaveIds(merged, ids) && i <= |order|
  {
    && (forall j | 0 <= j < |merged| :: ids[merged[j].slug].id in m)
    && (forall j | 0 <= j < |merged| && merged[j].slug != UNKNOWN :: m[ids[merged[j].slug].id] == BandId(merged, j))
    && (forall k | 0 <= k < i :: RowMapped(t, merged, ids, order[k], m))
    && (forall id | id in m :: id in t && (IsOneOf(merged, ids, |merged|, id) || id in order[..i]))
  }

  ghost predicate RowMapped(t: Table, merged: seq<Item>, ids: map<string, Ref>, id: int, m: map<int, int>)
    requires HaveIds(merged, ids)
  {
    && id in m
    && (id == ids[UNKNOWN].id ==> m[id] == UNKNOWN_ID)
    && (Parked(t, ids, id) ==> m[id] == ParkingFrom(merged) + |ParkedBelow(t, ids, id)|)
  }

  /** No listed pool but Unknown goes by Unknown's row. */
  ghost predicate OwnUnknown(merged: seq<Item>, ids: map<string, Ref>)
    requires HaveIds(merged, ids)
  {
    forall j | 0 <= j < |merged| && merged[j].slug != UNKNOWN :: ids[merged[j].slug].id != ids[UNKNOWN].id
  }

  lemma UnknownsRowIsItsOwn(t: Table, merged: seq<Item>, ids: map<string, Ref>)
    requires Tidy(t, merged, ids) && HaveIds(merged, ids)
    ensures OwnUnknown(merged, ids)
  {
    hide BySlug;
    forall j | 0 <= j < |merged| && merged[j].slug != UNKNOWN ensures ids[merged[j].slug].id != ids[UNKNOWN].id {
      assert t[ids[merged[j].slug].id].slug == merged[j].slug;
    }
  }

  /** Mapping one more row touches neither the listed pools' rows nor the rows before. */
  lemma OneMoreRow(t: Table, merged: seq<Item>, ids: map<string, Ref>, order: seq<int>, i: nat, m: map<int, int>, m': map<int, int>)
    requires HaveIds(merged, ids) && i < |order| && Ascending(order) && order[i] in t && MappedSoFar(t, merged, ids, order, i, m)
    requires order[i] in m' && RowMapped(t, merged, ids, order[i], m')
    requires OwnUnknown(merged, ids)
    requires m' == m || (m' == m[order[i] := m'[order[i]]] && (order[i] == ids[UNKNOWN].id || !IsOneOf(merged, ids, |merged|, order[i])))
    ensures MappedSoFar(t, merged, ids, order, i + 1, m')
  {
    hide Parked, ParkedBelow, ParkingFrom, BandId;
    assert order[..i + 1] == order[..i] + [order[i]];
    forall j | 0 <= j < |merged| && merged[j].slug != UNKNOWN ensures m'[ids[merged[j].slug].id] == BandId(merged, j) {
      assert IsOneOf(merged, ids, |merged|, ids[merged[j].slug].id);
    }
  }

  lemma AllMapped(t: Table, merged: seq<Item>, ids: map<string, Ref>, order: seq<int>, m: map<int, int>)
    requires Tidy(t, merged, ids) && HaveIds(merged, ids) && (forall k :: k in order <==> k in t)
    requires MappedSoFar(t, merged, ids, order, |order|, m)
    ensures IsMapping(t, merged, ids, m)
  {
    hide BandId, ParkingFrom, ParkedBelow, IsOneOf, BySlug;
    forall id | id in t ensures RowMapped(t, merged, ids, id, m) {
      assert id in order;
    }
    forall id ensures id in m.Keys <==> id in t.Keys {
      if id in t {
        assert RowMapped(t, merged, ids, id, m);
      }
    }
    SameSet(m.Keys, t.Keys);
  }

  lemma ListedRowsAreMapped(t: Table, merged: seq<Item>, ids: map<string, Ref>, order: seq<int>, m: map<int, int>)
    requires Tidy(t, merged, ids) && HaveIds(merged, ids) && TargetsSoFar(merged, ids, |merged|, m)
    ensures MappedSoFar(t, merged, ids, order, 0, m)
  {
    hide BandId, BySlug;
  }

  /** A row not yet seen has a target exactly when it is a listed pool's. */
  lemma FreshRow(t: Table, merged: seq<Item>, ids: map<string, Ref>, order: seq<int>, i: nat, m: map<int, int>)
    requires HaveIds(merged, ids) && i < |order| && Ascending(order) && MappedSoFar(t, merged, ids, order, i, m)
    ensures order[i] in m <==> IsOneOf(merged, ids, |merged|, order[i])
  {
    hide BandId, RowMapped;
    assert order[i] !in order[..i];
  }

  /** From the scratch ids to the new ones. */
  function Back(moves: map<int, int>, scratch: map<int, int>): map<int, int>
    requires IsScratch(moves, scratch)
  {
    map o | o in moves :: scratch[o] := moves[o]
  }

  lemma BackIsSecondLeg(moves: map<int, int>, scratch: map<int, int>)
    requires IsScratch(moves, scratch)
    ensures SecondLeg(moves, scratch, Back(moves, scratch))
  {
  }

  /** All three tables moved together: each block and each rate is joined to the pool it was joined to. */
  ghost predicate Remapped(
      t: Table, blocks: Blocks, rates: map<RateKey, real>, moves: map<int, int>, t': Table, blocks': Blocks, rates': map<RateKey, real>)
  {
    && Renamed(t, moves, t')
    && blocks' == BlocksAfter(blocks, moves)
    && (forall key | key in blocks && blocks[key].poolId in t ::
          blocks'[key].poolId in t' && t'[blocks'[key].poolId] == t[blocks[key].poolId])
    && Renamed(rates, Lifted(rates, moves), rates')
    && forall key | key in rates && key.1 in t ::
          var moved := NewKey(Lifted(rates, moves), key); moved.0 == key.0 && moved.1 in t' && t'[moved.1] == t[key.1]
  }

  lemma RenamedIsRemapped(
      t: Table, blocks: Blocks, rates: map<RateKey, real>, moves: map<int, int>, t': Table, rates': map<RateKey, real>)
    requires Renamed(t, moves, t') && Renamed(rates, Lifted(rates, moves), rates')
    ensures Remapped(t, blocks, rates, moves, t', BlocksAfter(blocks, moves), rates')
  {
  }

  /** The rates' second statement finds just the rows the first one moved. */
  lemma RatesGoBack(
      rates: map<RateKey, real>, t: Table, moves: map<int, int>, scratch: map<int, int>, second: map<int, int>, t1: Table,
      rates1: map<RateKey, real>)
    requires moves.Keys <= t.Keys && SecondLeg(moves, scratch, second) && Renamed(t, scratch, t1)
    requires (forall k | k in rates :: k.1 in t) && Renamed(rates, Lifted(rates, scratch), rates1)
    ensures SecondLeg(Lifted(rates, moves), Lifted(rates, scratch), Lifted(rates1, second))
  {
    var away, back := Lifted(rates, scratch), Lifted(rates1, second);
    SameSet(away.Keys, Lifted(rates, moves).Keys);
    forall k | k in away ensures away[k] in back && back[away[k]] == Lifted(rates, moves)[k] {
      assert NewKey(away, k) == away[k];
    }
    forall s | s in back ensures exists k :: k in away && away[k] == s {
      var k := OldKey(rates, away, rates1, s);
    }
  }

  /** All that `renumber_pools` has decided when it starts to write. */
  ghost predicate Renumbering(
      t: Table, merged: seq<Item>, ids: map<string, Ref>, m: map<int, int>, scratch: map<int, int>, second: map<int, int>)
  {
    && Tidy(t, merged, ids) && DistinctSlugs(merged) && !Overflows(merged) && |t| <= SCRATCH_SIZE
    && IsMapping(t, merged, ids, m) && IsScratch(Moves(m), scratch) && SecondLeg(Moves(m), scratch, second)
  }

  lemma PoolsFirst(
      t: Table, merged: seq<Item>, ids: map<string, Ref>, m: map<int, int>, scratch: map<int, int>, second: map<int, int>, first: seq<int>)
    requires Renumbering(t, merged, ids, m, scratch, second) && Visits(first, scratch.Keys)
    ensures ScratchIsFree(t) ==> Passes(t, first, scratch)
  {
    if ScratchIsFree(t) {
      MovingRowsAreRows(t, m);
      hide Tidy, Overflows, Passes, DistinctSlugs, IsMapping, Moves;
      AnyOrderPasses(t, scratch, first);
    }
  }

  lemma PoolsBoth(
      t: Table, merged: seq<Item>, ids: map<string, Ref>, m: map<int, int>, scratch: map<int, int>, second: map<int, int>,
      first: seq<int>, later: seq<int>)
    requires Renumbering(t, merged, ids, m, scratch, second) && Visits(first, scratch.Keys) && Visits(later, second.Keys)
    requires Passes(t, first, scratch)
    ensures Renamed(t, scratch, Result(t, first, scratch))
    ensures var t1 := Result(t, first, scratch);
      Passes(t1, later, second) ==> Renamed(t, Moves(m), Result(t1, later, second))
    ensures ScratchIsFree(t) && ParkingHasRoom(t, merged, ids) ==> Passes(Result(t, first, scratch), later, second)
  {
    hide Renumbering, Passes, Result, Renamed, ScratchIsFree, ParkingHasRoom;
    if Passes(Result(t, first, scratch), later, second) {
      PoolsRenamed(t, merged, ids, m, scratch, second, first, later);
    }
    if ScratchIsFree(t) && ParkingHasRoom(t, merged, ids) {
      PoolsPass(t, merged, ids, m, scratch, second, first, later);
    }
    PoolsAway(t, merged, ids, m, scratch, second, first);
  }

  lemma PoolsAway(
      t: Table, merged: seq<Item>, ids: map<string, Ref>, m: map<int, int>, scratch: map<int, int>, second: map<int, int>, first: seq<int>)
    requires Renumbering(t, merged, ids, m, scratch, second) && Visits(first, scratch.Keys) && Passes(t, first, scratch)
    ensures Renamed(t, scratch, Result(t, first, scratch))
  {
    MovingRowsAreRows(t, m);
    hide Tidy, Overflows, Passes, DistinctSlugs, IsMapping, Moves, Result, Renamed, SecondLeg, Visits;
    PassesRenames(t, scratch, first);
  }

  lemma PoolsRenamed(
      t: Table, merged: seq<Item>, ids: map<string, Ref>, m: map<int, int>, scratch: map<int, int>, second: map<int, int>,
      first: seq<int>, later: seq<int>)
    requires Renumbering(t, merged, ids, m, scratch, second) && Visits(first, scratch.Keys) && Visits(later, second.Keys)
    requires Passes(t, first, scratch) && Passes(Result(t, first, scratch), later, second)
    ensures Renamed(t, Moves(m), Result(Result(t, first, scratch), later, second))
  {
    MovingRowsAreRows(t, m);
    hide Tidy, Overflows, Passes, DistinctSlugs, IsMapping, Moves, Result, Renamed, SecondLeg, Visits;
    TwoStatementsRename(t, Moves(m), scratch, second, first, later);
  }

  lemma PoolsPass(
      t: Table, merged: seq<Item>, ids: map<string, Ref>, m: map<int, int>, scratch: map<int, int>, second: map<int, int>,
      first: seq<int>, later: seq<int>)
    requires Renumbering(t, merged, ids, m, scratch, second) && Visits(first, scratch.Keys) && Visits(later, second.Keys)
    requires ScratchIsFree(t) && ParkingHasRoom(t, merged, ids) && Passes(t, first, scratch)
    ensures Passes(Result(t, first, scratch), later, second)
  {
    hide Tidy, Overflows, Passes, DistinctSlugs, IsMapping, Moves, Result, Renamed, ScratchIsFree, ParkingHasRoom, SecondLeg, Visits;
    RenumberKeepsPools(t, merged, ids, m, scratch, second, first, later, map[0 := 0]);
  }

  lemma ScratchIsNoRow(t: Table, moves: map<int, int>, scratch: map<int, int>, o: int)
    requires IsScratch(moves, scratch) && ScratchIsFree(t) && o in scratch
    ensures scratch[o] !in t
  {
  }

  lemma LiftedIsFree(rates: map<RateKey, real>, t: Table, moves: map<int, int>, scratch: map<int, int>)
    requires IsScratch(moves, scratch) && ScratchIsFree(t) && forall k | k in rates :: k.1 in t
    ensures Injective(Lifted(rates, scratch)) && FreeTargets(rates, Lifted(rates, scratch))
  {
    var away := Lifted(rates, scratch);
    forall k | k in away ensures away[k] !in rates {
      ScratchIsNoRow(t, moves, scratch, k.1);
    }
    forall a, b | a in away && b in away && a != b ensures away[a] != away[b] {
      assert a.1 in scratch && b.1 in scratch;
    }
  }

  lemma RatesFirst(
      rates: map<RateKey, real>, t: Table, merged: seq<Item>, ids: map<string, Ref>, m: map<int, int>, scratch: map<int, int>,
      second: map<int, int>, first: seq<RateKey>)
    requires Renumbering(t, merged, ids, m, scratch, second) && Visits(first, Lifted(rates, scratch).Keys)
    requires forall k | k in rates :: k.1 in t
    ensures ScratchIsFree(t) ==> Passes(rates, first, Lifted(rates, scratch))
  {
    hide Tidy, Overflows, Passes, DistinctSlugs, IsMapping, Moves, ScratchIsFree, IsScratch, Injective, Lifted;
    if ScratchIsFree(t) {
      LiftedIsFree(rates, t, Moves(m), scratch);
      AnyOrderPasses(rates, Lifted(rates, scratch), first);
    }
  }

  lemma RatesAway(
      rates: map<RateKey, real>, t: Table, merged: seq<Item>, ids: map<string, Ref>, m: map<int, int>, scratch: map<int, int>,
      second: map<int, int>, first: seq<RateKey>, t1: Table)
    requires Renumbering(t, merged, ids, m, scratch, second) && Visits(first, Lifted(rates, scratch).Keys)
    requires (forall k | k in rates :: k.1 in t) && Renamed(t, scratch, t1) && Passes(rates, first, Lifted(rates, scratch))
    ensures var rates1 := Result(rates, first, Lifted(rates, scratch));
      SecondLeg(Lifted(rates, Moves(m)), Lifted(rates, scratch), Lifted(rates1, second))
  {
    MovingRowsAreRows(t, m);
    hide Tidy, Overflows, Passes, DistinctSlugs, IsMapping, Moves, Result, Renamed, SecondLeg, Injective;
    LiftedAreRows(rates, scratch);
    PassesRenames(rates, Lifted(rates, scratch), first);
    hide Lifted;
    RatesGoBack(rates, t, Moves(m), scratch, second, t1, Result(rates, first, Lifted(rates, scratch)));
  }

  lemma LiftedAreRows(rates: map<RateKey, real>, to: map<int, int>)
    ensures Lifted(rates, to).Keys <= rates.Keys
  {
  }

  lemma SameLifted(rates: map<RateKey, real>, a: map<int, int>, b: map<int, int>)
    requires a.Keys == b.Keys
    ensures Lifted(rates, a).Keys == Lifted(rates, b).Keys
  {
    SameSet(Lifted(rates, a).Keys, Lifted(rates, b).Keys);
  }

  lemma RatesRenamed(
      rates: map<RateKey, real>, moves: map<int, int>, scratch: map<int, int>, second: map<int, int>, first: seq<RateKey>,
      later: seq<RateKey>)
    requires moves.Keys == scratch.Keys
    requires Visits(first, Lifted(rates, scratch).Keys) && Passes(rates, first, Lifted(rates, scratch))
    requires var rates1 := Result(rates, first, Lifted(rates, scratch));
      && SecondLeg(Lifted(rates, moves), Lifted(rates, scratch), Lifted(rates1, second))
      && Visits(later, Lifted(rates1, second).Keys) && Passes(rates1, later, Lifted(rates1, second))
    ensures var rates1 := Result(rates, first, Lifted(rates, scratch));
      Renamed(rates, Lifted(rates, moves), Result(rates1, later, Lifted(rates1, second)))
  {
    LiftedAreRows(rates, moves);
    SameLifted(rates, moves, scratch);
    hide Passes, Result, Renamed, SecondLeg, Lifted;
    TwoStatementsRename(rates, Lifted(rates, moves), Lifted(rates, scratch), Lifted(Result(rates, first, Lifted(rates, scratch)), second), first, later);
  }

  lemma RatesPass(
      rates: map<RateKey, real>, t: Table, merged: seq<Item>, ids: map<string, Ref>, m: map<int, int>, scratch: map<int, int>,
      second: map<int, int>, first: seq<RateKey>, later: seq<RateKey>)
    requires Renumbering(t, merged, ids, m, scratch, second) && forall k | k in rates :: k.1 in t
    requires ScratchIsFree(t) && ParkingHasRoom(t, merged, ids)
    requires Visits(first, Lifted(rates, scratch).Keys) && Passes(rates, first, Lifted(rates, scratch))
    requires var rates1 := Result(rates, first, Lifted(rates, scratch));
      && SecondLeg(Lifted(rates, Moves(m)), Lifted(rates, scratch), Lifted(rates1, second))
      && Visits(later, Lifted(rates1, second).Keys)
    ensures var rates1 := Result(rates, first, Lifted(rates, scratch)); Passes(rates1, later, Lifted(rates1, second))
  {
    SameLifted(rates, Moves(m), scratch);
    hide Tidy, Overflows, Passes, DistinctSlugs, IsMapping, Moves, Result, Renamed, ScratchIsFree, ParkingHasRoom, SecondLeg, Lifted, IsScratch;
    RenumberKeepsRates(rates, t, merged, ids, m, scratch, Lifted(Result(rates, first, Lifted(rates, scratch)), second), first, later);
  }

  lemma FitsIds(t: Table, merged: seq<Item>, ids: map<string, Ref>)
    requires Tidy(t, merged, ids) && DistinctSlugs(merged)
    ensures HaveIds(merged, ids)
  {
    ListedHaveIds(t, merged, ids);
  }

  lemma MappingHasAll(t: Table, merged: seq<Item>, ids: map<string, Ref>, m: map<int, int>)
    requires Tidy(t, merged, ids) && IsMapping(t, merged, ids, m)
    ensures |m| == |t|
  {
    assert |m.Keys| == |m| && |t.Keys| == |t|;
  }

  lemma MovesAreFew(m: map<int, int>)
    ensures |Moves(m)| <= |m|
  {
    assert |m.Keys| == |m| && |Moves(m).Keys| == |Moves(m)|;
    SubsetIsSmaller(Moves(m).Keys, m.Keys);
  }

  lemma OneMoreKey(to: map<int, int>, k: int, v: int)
    requires Injective(to) && forall o | o in to :: to[o] != v
    ensures Injective(to[k := v])
  {
    var more := to[k := v];
    forall a, b | a in more && b in more && a != b ensures more[a] != more[b] {
      if a != k && b != k {
        assert a in to && b in to && to[a] != to[b];
      }
    }
  }

  /** The stale rows among the first `i` that matched something are blank now; these are `dirty`. */
  ghost predicate BlankedSoFar(start: Table, was: Table, stale: set<int>, order: seq<int>, i: nat, t: Table, dirty: set<int>)
    requires i <= |order|
  {
    && (forall id :: id in t <==> id in was)
    && (forall id | id in t :: t[id] == if id in dirty then Blanked(was[id]) else was[id])
    && (forall id :: id in dirty <==> id in order[..i] && id in stale && id in start && !Blank(start[id]))
  }

  lemma NoneBlanked(start: Table, was: Table, stale: set<int>, order: seq<int>)
    ensures BlankedSoFar(start, was, stale, order, 0, was, {})
  {
  }

  lemma OneMoreBlanked(start: Table, was: Table, stale: set<int>, order: seq<int>, i: nat, id: int, t: Table, dirty: set<int>)
    requires i < |order| && Ascending(order) && order[i] == id && id in start && BlankedSoFar(start, was, stale, order, i, t, dirty)
    requires id in stale ==> id in was && was[id] == start[id]
    ensures id !in dirty
    ensures if id in stale && !Blank(start[id])
      then id in t && BlankedSoFar(start, was, stale, order, i + 1, t[id := Blanked(t[id])], dirty + {id})
      else BlankedSoFar(start, was, stale, order, i + 1, t, dirty)
  {
    hide Blank, Blanked;
    assert order[..i + 1] == order[..i] + [id];
    assert id !in order[..i];
  }

  lemma AllBlanked(start: Table, was: Table, stale: set<int>, order: seq<int>, t: Table, dirty: set<int>)
    requires BlankedSoFar(start, was, stale, order, |order|, t, dirty)
    requires forall id | id in stale :: id in start && id in order && id in was && was[id] == start[id]
    ensures t == BlankOut(was, stale) && dirty == set id | id in stale && !Blank(start[id])
  {
    hide Blank, Blanked;
    assert order[..|order|] == order;
    forall id ensures id in dirty <==> id in stale && !Blank(start[id]) {
      assert id in stale ==> id in order;
    }
    SameSet(dirty, set id | id in stale && !Blank(start[id]));
    var want := BlankOut(was, stale);
    forall id ensures (id in t <==> id in want) && (id in t ==> t[id] == want[id]) {}
    SameMap(t, want);
  }

  class Store {
    var pools: Table
    var blocks: Blocks
    var rates: map<RateKey, real>

    /** The lowest id of each slug: rows are read in falling id order, so the last one stays. */
    method CanonicalRows() returns (canon: map<string, int>)
      ensures Canonical(pools, canon)
    {
      var order := SortedKeys(pools);
      canon := map[];
      var i := |order|;
      while i > 0
        invariant 0 <= i <= |order|
        invariant forall s | s in canon :: canon[s] in pools && pools[canon[s]].slug == s
        invariant forall k | i <= k < |order| :: order[k] in pools && pools[order[k]].slug in canon && canon[pools[order[k]].slug] <= order[k]
        invariant forall s, k | s in canon && 0 <= k < i :: order[k] < canon[s]
      {
        i := i - 1;
        assert order[i] in order;
        canon := canon[pools[order[i]].slug := order[i]];
      }
      forall id | id in pools ensures pools[id].slug in canon && canon[pools[id].slug] <= id {
        assert id in order;
      }
    }

    /** One above every unique id in use. */
    method NextUid() returns (uid: int)
      ensures uid > 0 && forall id | id in pools :: pools[id].uid < uid
    {
      var order := SortedKeys(pools);
      uid := 1;
      for i := 0 to |order|
        invariant uid > 0 && forall k | 0 <= k < i :: order[k] in pools && pools[order[k]].uid < uid
      {
        assert order[i] in order;
        if pools[order[i]].uid >= uid {
          uid := pools[order[i]].uid + 1;
        }
      }
      forall id | id in pools ensures pools[id].uid < uid {
        assert id in order;
      }
    }

    /** One pool of the list: its row is updated if anything differs, or inserted. */
    method UpsertPool(start: Table, canon: map<string, int>, ghost u: Up, it: Item, uid: int, auto: Table -> int)
      returns (ref: Ref, changed: bool, inserted: bool, ghost full: bool)
      requires forall s | s in canon :: canon[s] in start
      requires pools == u.table && uid == u.nextUid
      modifies this`pools
      ensures UpsertOne(start, canon, u, it, auto(old(pools))) ==
        Up(pools, u.ids[it.slug := ref], uid + if inserted then 1 else 0, u.changed + if changed then 1 else 0,
           u.inserted + if inserted then 1 else 0, u.full || full)
    {
      hide HighestIn, Band, Lo, Hi;
      changed, inserted, full := false, false, false;
      if it.slug in canon {
        var id := canon[it.slug];
        var r := start[id];
        if r.name != it.entry.name || r.link != it.entry.link
            || r.addresses != Some(it.entry.addresses) || r.regexes != Some(it.entry.tags) {
          pools := pools[id := Row(it.entry.name, it.entry.link, Some(it.entry.addresses), Some(it.entry.tags), it.slug, r.uid)];
          changed := true;
        }
        ref := Ref(id, r.uid);
      } else {
        var id := HighestIn(pools.Keys, Lo(Band(it.prio)), Hi(Band(it.prio))) + 1;
        if id > Hi(Band(it.prio)) {
          id := auto(pools);
          full := true;
        }
        pools := pools[id := Row(it.entry.name, it.entry.link, Some(it.entry.addresses), Some(it.entry.tags), it.slug, uid)];
        ref := Ref(id, uid);
        inserted := true;
      }
    }

    method UpsertListed(start: Table, canon: map<string, int>, merged: seq<Item>, firstUid: int, auto: Table -> int)
      returns (ids: map<string, Ref>, changed: nat, inserted: nat, ghost u: Up)
      requires pools == start && forall s | s in canon :: canon[s] in start
      modifies this`pools
      ensures u == UpsertAll(start, canon, merged, firstUid, auto)
      ensures pools == u.table && ids == u.ids && changed == u.changed && inserted == u.inserted
    {
      ids, changed, inserted := map[], 0, 0;
      var uid := firstUid;
      ghost var full := false;
      for i := 0 to |merged|
        invariant Up(pools, ids, uid, changed, inserted, full) == UpsertAll(start, canon, merged[..i], firstUid, auto)
      {
        assert merged[..i + 1][..i] == merged[..i];
        var ref, differed, isNew;
        ghost var wasFull;
        ref, differed, isNew, wasFull := UpsertPool(start, canon, Up(pools, ids, uid, changed, inserted, full), merged[i], uid, auto);
        ids := ids[merged[i].slug := ref];
        if differed {
          changed := changed + 1;
        }
        if isNew {
          inserted := inserted + 1;
          uid := uid + 1;
        }
        full := full || wasFull;
      }
      assert merged[..|merged|] == merged;
      u := Up(pools, ids, uid, changed, inserted, full);
    }

    /** Rows of pools no longer listed, and duplicates, lose their matchers. */
    method BlankStale(start: Table, canon: map<string, int>, ids: map<string, Ref>) returns (count: nat)
      requires forall id | id in start :: start[id].slug in canon
      requires forall id | id in StaleRows(start, canon, ids) :: id in pools && pools[id] == start[id]
      modifies this`pools
      ensures var stale := StaleRows(start, canon, ids);
        pools == BlankOut(old(pools), stale) && count == |set id | id in stale && !Blank(start[id])|
    {
      hide Blank;
      var order := SortedKeys(start);
      count := 0;
      ghost var was, stale := pools, StaleRows(start, canon, ids);
      ghost var dirty: set<int> := {};
      NoneBlanked(start, was, stale, order);
      for i := 0 to |order|
        invariant BlankedSoFar(start, was, stale, order, i, pools, dirty) && count == |dirty|
      {
        hide BlankedSoFar, Blanked;
        var id := order[i];
        OneMoreBlanked(start, was, stale, order, i, id, pools, dirty);
        if (start[id].slug !in ids || id != canon[start[id].slug]) && !Blank(start[id]) {
          pools := pools[id := pools[id].(addresses := Some([]), regexes := Some([]))];
          dirty := dirty + {id};
          count := count + 1;
        }
      }
      AllBlanked(start, was, stale, order, pools, dirty);
    }

    /** The rows as they are, by slug, and the first unique id to give. */
    method ReadRows(ghost merged: seq<Item>) returns (rows: map<string, int>, uid: int)
      requires DistinctSlugs(merged) && forall id | id in pools :: id > 0
      requires (exists id :: id in pools && pools[id].slug == UNKNOWN) || UNKNOWN in BySlug(merged)
      ensures Canonical(pools, rows) && Upsertable(pools, rows, merged) && forall id | id in pools :: pools[id].uid < uid
    {
      rows := CanonicalRows();
      uid := NextUid();
      hide BySlug, DistinctSlugs;
    }

    /** The reference of the Unknown pool, when the list has not given it one. */
    method AddUnknown(start: Table, canon: map<string, int>, ids: map<string, Ref>) returns (all: map<string, Ref>)
      requires (forall s | s in canon :: canon[s] in start) && (UNKNOWN in ids || UNKNOWN in canon)
      ensures all == WithUnknown(start, canon, ids)
    {
      all := ids;
      if UNKNOWN !in ids {
        all := ids[UNKNOWN := Ref(canon[UNKNOWN], start[canon[UNKNOWN]].uid)];
      }
    }

    /** The table in line with the merged list; the counts are of rows written. */
    method UpsertPools(merged: seq<Item>, auto: Table -> int)
      returns (ids: map<string, Ref>, changed: nat, inserted: nat, ghost canon: map<string, int>, ghost uid: int)
      requires DistinctSlugs(merged) && AutoIds(auto)
      requires (exists id :: id in pools && pools[id].slug == UNKNOWN) || UNKNOWN in BySlug(merged)
      requires forall id | id in pools :: id > 0
      modifies this`pools
      ensures Canonical(old(pools), canon) && forall id | id in old(pools) :: old(pools)[id].uid < uid
      ensures var u := Upsert(old(pools), canon, merged, uid, auto);
        pools == u.table && ids == u.ids && changed == u.changed && inserted == u.inserted
      ensures Tidy(pools, merged, ids) && LowestOwn(pools, ids) && Upsertable(old(pools), canon, merged)
      ensures forall id | id in old(pools) :: id in pools
    {
      hide AutoIds, DistinctSlugs, Tidy, UpsertAll, LowestOwn, BySlug, Upsertable, WithUnknown, StaleRows, BlankOut, Upsert, Blank;
      var start := pools;
      var rows, firstUid := ReadRows(merged);
      canon, uid := rows, firstUid;
      ghost var u;
      ids, changed, inserted, u := UpsertListed(start, rows, merged, firstUid, auto);
      UpsertParts(start, canon, merged, firstUid, auto);
      ids := AddUnknown(start, rows, ids);
      var blanked := BlankStale(start, rows, ids);
      changed := changed + blanked;
    }

    /** Whether some pool's row is outside its band, or the Unknown pool's not at its id. */
    method FindStray(merged: seq<Item>, ids: map<string, Ref>) returns (stray: bool)
      requires Tidy(pools, merged, ids) && DistinctSlugs(merged)
      ensures stray == Stray(pools, merged, ids)
    {
      ListedHaveIds(pools, merged, ids);
      SeenOnce(merged);
      hide Tidy, InBand;
      stray := ids[UNKNOWN].id != UNKNOWN_ID;
      for i := 0 to |merged|
        invariant stray <==> ids[UNKNOWN].id != UNKNOWN_ID || exists j :: 0 <= j < i && merged[j].slug != UNKNOWN && !InBand(ids[merged[j].slug].id, merged[j].prio)
      {
        if merged[i].slug != UNKNOWN && !InBand(ids[merged[i].slug].id, merged[i].prio) {
          stray := true;
        }
      }
    }

    /** One pool of the list: the next id of its band, unless the band runs over. */
    method TargetOne(merged: seq<Item>, ids: map<string, Ref>, i: nat, m: map<int, int>, next: map<nat, int>)
      returns (ok: bool, m': map<int, int>, next': map<nat, int>)
      requires Tidy(pools, merged, ids) && DistinctSlugs(merged) && HaveIds(merged, ids) && i < |merged|
      requires Counters(merged, i, next) && TargetsSoFar(merged, ids, i, m) && InBandsSoFar(merged, i)
      ensures !ok ==> Overflows(merged)
      ensures ok ==> Counters(merged, i + 1, next') && TargetsSoFar(merged, ids, i + 1, m') && InBandsSoFar(merged, i + 1)
    {
      hide *;
      m', next' := m, next;
      var band := Band(merged[i].prio);
      CounterMoves(merged, i, next);
      SlugHasId(merged, ids, i);
      ok := next[band] <= Hi(band);
      if !ok {
        IdOverflows(merged, i);
        return;
      }
      NotOneOfTheFirst(pools, merged, ids, i);
      OneMoreTarget(merged, ids, i, m);
      OneMoreInBand(merged, i);
      m' := m[ids[merged[i].slug].id := next[band]];
      next' := next[band := next[band] + 1];
    }

    /** The next id of each band, pool by pool in merged order; a band that runs over stops it. */
    method ListedTargets(merged: seq<Item>, ids: map<string, Ref>) returns (ok: bool, m: map<int, int>, parkFrom: int)
      requires Tidy(pools, merged, ids) && DistinctSlugs(merged) && HaveIds(merged, ids)
      ensures ok == !Overflows(merged)
      ensures ok ==> parkFrom == ParkingFrom(merged) && TargetsSoFar(merged, ids, |merged|, m)
    {
      hide *;
      m, parkFrom, ok := map[], 0, true;
      var next := FirstIds(merged);
      NoTargets(merged, ids);
      for i := 0 to |merged|
        invariant Counters(merged, i, next) && TargetsSoFar(merged, ids, i, m) && InBandsSoFar(merged, i)
      {
        ok, m, next := TargetOne(merged, ids, i, m, next);
        if !ok {
          return;
        }
      }
      ok := true;
      AllInBands(merged);
      parkFrom := ParkCounter(merged, next);
    }

    /** One row of the table in id order. */
    method ParkOne(
        ghost merged: seq<Item>, ids: map<string, Ref>, ghost order: seq<int>, ghost i: nat, id: int, m: map<int, int>, next: int,
        ghost parked: set<int>)
      returns (m': map<int, int>, next': int, ghost parked': set<int>)
      requires Tidy(pools, merged, ids) && DistinctSlugs(merged) && HaveIds(merged, ids)
      requires i < |order| && order[i] == id && id in pools && Ascending(order) && forall k :: k in order <==> k in pools
      requires MappedSoFar(pools, merged, ids, order, i, m) && ParkedAmong(pools, ids, order, i, parked)
      requires next == ParkingFrom(merged) + |parked|
      ensures MappedSoFar(pools, merged, ids, order, i + 1, m') && ParkedAmong(pools, ids, order, i + 1, parked')
      ensures next' == ParkingFrom(merged) + |parked'|
    {
      hide Tidy, DistinctSlugs, MappedSoFar, BandId, ParkedBelow, IsOneOf, ParkingFrom, Parked, ParkedAmong, Ascending, BySlug;
      RowKinds(pools, merged, ids, id);
      UnknownsRowIsItsOwn(pools, merged, ids);
      hide OwnUnknown;
      ParkedBelowIs(pools, ids, order, i, parked);
      ParkedGrows(pools, ids, order, i, parked);
      FreshRow(pools, merged, ids, order, i, m);
      m', next', parked' := m, next, parked;
      if id == ids[UNKNOWN].id {
        m' := m[id := UNKNOWN_ID];
      } else if id !in m {
        m' := m[id := next];
        next' := next + 1;
        parked' := parked + {id};
      }
      OneMoreRow(pools, merged, ids, order, i, m, m');
    }

    /** `SELECT id, slug FROM pools ORDER BY id` */
    method RowsInOrder(ghost merged: seq<Item>, ghost ids: map<string, Ref>, ghost listed: map<int, int>) returns (order: seq<int>)
      requires Tidy(pools, merged, ids) && HaveIds(merged, ids) && TargetsSoFar(merged, ids, |merged|, listed)
      ensures Ascending(order) && (forall k :: k in order <==> k in pools) && forall i | 0 <= i < |order| :: order[i] in pools
      ensures MappedSoFar(pools, merged, ids, order, 0, listed) && ParkedAmong(pools, ids, order, 0, {})
    {
      hide *;
      order := SortedKeys(pools);
      ListedRowsAreMapped(pools, merged, ids, order, listed);
      NoneParked(pools, ids, order);
    }

    /** Dropped pools and duplicates go after the generic pools, in id order; the Unknown pool to its id. */
    method ParkRest(merged: seq<Item>, ids: map<string, Ref>, listed: map<int, int>, parkFrom: int) returns (m: map<int, int>)
      requires Tidy(pools, merged, ids) && DistinctSlugs(merged) && HaveIds(merged, ids)
      requires TargetsSoFar(merged, ids, |merged|, listed) && parkFrom == ParkingFrom(merged)
      ensures IsMapping(pools, merged, ids, m)
    {
      hide *;
      var order := RowsInOrder(merged, ids, listed);
      m := listed;
      var next := parkFrom;
      ghost var parked: set<int> := {};
      for i := 0 to |order|
        invariant MappedSoFar(pools, merged, ids, order, i, m)
        invariant ParkedAmong(pools, ids, order, i, parked) && next == ParkingFrom(merged) + |parked|
      {
        m, next, parked := ParkOne(merged, ids, order, i, order[i], m, next, parked);
      }
      AllMapped(pools, merged, ids, order, m);
    }

    /** `UPDATE pools SET id = CASE id ...` */
    method UpdatePools(to: map<int, int>) returns (ok: bool, ghost order: seq<int>)
      modifies this`pools
      ensures Visits(order, to.Keys) && ok == Passes(old(pools), order, to)
      ensures pools == if ok then Result(old(pools), order, to) else old(pools)
    {
      var t;
      ok, t, order := Update(pools, to);
      pools := t;
    }

    /** `UPDATE hashrates SET pool_id = CASE pool_id ... WHERE pool_id IN (...)` */
    method UpdateRates(to: map<int, int>) returns (ok: bool, ghost order: seq<RateKey>)
      modifies this`rates
      ensures Visits(order, Lifted(old(rates), to).Keys) && ok == Passes(old(rates), order, Lifted(old(rates), to))
      ensures rates == if ok then Result(old(rates), order, Lifted(old(rates), to)) else old(rates)
    {
      var t;
      ok, t, order := Update(rates, Lifted(rates, to));
      rates := t;
    }

    /** The two statements on `pools`. */
    method RemapPools(ghost merged: seq<Item>, ghost ids: map<string, Ref>, ghost m: map<int, int>, scratch: map<int, int>, second: map<int, int>)
      returns (ok: bool, ghost t1: Table)
      requires Renumbering(pools, merged, ids, m, scratch, second)
      modifies this`pools
      ensures ok ==> Renamed(old(pools), scratch, t1) && Renamed(old(pools), Moves(m), pools)
      ensures ScratchIsFree(old(pools)) && ParkingHasRoom(old(pools), merged, ids) ==> ok
    {
      ghost var t := pools;
      hide Tidy, DistinctSlugs, Overflows, Passes, Result, Visits, Renamed, ScratchIsFree, ParkingHasRoom, Injective, SecondLeg, IsScratch, Moves, IsMapping;
      ghost var first, later;
      ok, first := UpdatePools(scratch);
      t1 := pools;
      if !ok {
        PoolsFirst(t, merged, ids, m, scratch, second, first);
        return;
      }
      ok, later := UpdatePools(second);
      PoolsBoth(t, merged, ids, m, scratch, second, first, later);
    }

    /** The two statements on `hashrates`. */
    method RemapRates(
        ghost t: Table, ghost merged: seq<Item>, ghost ids: map<string, Ref>, ghost m: map<int, int>, scratch: map<int, int>,
        second: map<int, int>, ghost t1: Table)
      returns (ok: bool)
      requires Renumbering(t, merged, ids, m, scratch, second) && Renamed(t, scratch, t1)
      requires forall k | k in rates :: k.1 in t
      modifies this`rates
      ensures ok ==> Renamed(old(rates), Lifted(old(rates), Moves(m)), rates)
      ensures ScratchIsFree(t) && ParkingHasRoom(t, merged, ids) ==> ok
    {
      ghost var was := rates;
      assert Moves(m).Keys == scratch.Keys;
      hide Tidy, DistinctSlugs, Overflows, Passes, Result, Visits, Renamed, ScratchIsFree, ParkingHasRoom, Injective, SecondLeg, IsScratch, Moves, IsMapping, Lifted;
      ghost var first, later;
      ok, first := UpdateRates(scratch);
      if !ok {
        RatesFirst(was, t, merged, ids, m, scratch, second, first);
        return;
      }
      ghost var rates1 := rates;
      RatesAway(was, t, merged, ids, m, scratch, second, first, t1);
      ok, later := UpdateRates(second);
      if ok {
        RatesRenamed(was, Moves(m), scratch, second, first, later);
      } else if ScratchIsFree(t) && ParkingHasRoom(t, merged, ids) {
        RatesPass(was, t, merged, ids, m, scratch, second, first, later);
      }
    }

    /** The five statements, up to the first that fails. */
    method Statements(ghost merged: seq<Item>, ghost ids: map<string, Ref>, ghost m: map<int, int>, moves: map<int, int>, scratch: map<int, int>, second: map<int, int>)
      returns (ok: bool)
      requires Renumbering(pools, merged, ids, m, scratch, second) && moves == Moves(m)
      requires forall k | k in rates :: k.1 in pools
      modifies this
      ensures ok ==> Renamed(old(pools), moves, pools) && Renamed(old(rates), Lifted(old(rates), moves), rates)
      ensures ok ==> blocks == BlocksAfter(old(blocks), moves)
      ensures ScratchIsFree(old(pools)) && ParkingHasRoom(old(pools), merged, ids) ==> ok
    {
      ghost var t := pools;
      hide Renumbering, Moves, Renamed, ScratchIsFree, ParkingHasRoom, Lifted, BlocksAfter;
      ghost var t1;
      ok, t1 := RemapPools(merged, ids, m, scratch, second);
      if ok {
        blocks := BlocksAfter(blocks, moves);
        ok := RemapRates(t, merged, ids, m, scratch, second, t1);
      }
    }

    /** When a statement fails the error ends the transaction, and all is as before. */
    method Remap(ghost merged: seq<Item>, ghost ids: map<string, Ref>, ghost m: map<int, int>, moves: map<int, int>, scratch: map<int, int>)
      returns (ok: bool)
      requires IsScratch(moves, scratch) && Renumbering(pools, merged, ids, m, scratch, Back(moves, scratch)) && moves == Moves(m)
      requires forall k | k in rates :: k.1 in pools
      modifies this
      ensures ok ==> Remapped(old(pools), old(blocks), old(rates), moves, pools, blocks, rates)
      ensures !ok ==> pools == old(pools) && blocks == old(blocks) && rates == old(rates)
      ensures ScratchIsFree(old(pools)) && ParkingHasRoom(old(pools), merged, ids) ==> ok
    {
      var t, b, h := pools, blocks, rates;
      hide Renumbering, IsScratch, Moves, Back, Remapped, Renamed, ScratchIsFree, ParkingHasRoom, Lifted, BlocksAfter;
      ok := Statements(merged, ids, m, moves, scratch, Back(moves, scratch));
      if ok {
        RenamedIsRemapped(t, b, h, moves, pools, rates);
      } else {
        pools, blocks, rates := t, b, h;
      }
    }

    /** `SCRATCH_BASE + k` for row number k. */
    method ScratchIds(moves: map<int, int>) returns (scratch: map<int, int>)
      requires |moves| <= SCRATCH_SIZE
      ensures IsScratch(moves, scratch) && forall o | o in scratch :: 62000 <= scratch[o] < 65500
    {
      var order := SomeOrder(moves.Keys);
      assert |moves.Keys| == |moves|;
      scratch := map[];
      assert Injective(scratch);
      hide Injective;
      for k := 0 to |order|
        invariant forall o :: o in scratch <==> o in order[..k]
        invariant forall o | o in scratch :: SCRATCH_BASE <= scratch[o] < SCRATCH_BASE + k
        invariant Injective(scratch)
      {
        assert order[..k + 1] == order[..k] + [order[k]];
        OneMoreKey(scratch, order[k], SCRATCH_BASE + k);
        scratch := scratch[order[k] := SCRATCH_BASE + k];
      }
      assert order[..|order|] == order;
      forall o ensures o in scratch.Keys <==> o in moves.Keys {
        assert o in order <==> o in moves.Keys;
      }
      SameSet(scratch.Keys, moves.Keys);
    }

    /**
      Each pool into its band, with its blocks and hashrates. It ends in an error where a band has
      more pools than ids, or where there are more rows than scratch ids; with the scratch range
      free and room for the parked rows no statement fails; and when it comes to its end, every
      block and rate is joined to the pool it was joined to.
     */
    method RenumberPools(merged: seq<Item>, ids: map<string, Ref>) returns (r: Outcome, ghost m: map<int, int>)
      requires Tidy(pools, merged, ids) && DistinctSlugs(merged)
      requires forall k | k in rates :: k.1 in pools
      modifies this
      ensures r.Idle? <==> !Stray(old(pools), merged, ids)
      ensures r.BandOverflow? <==> Stray(old(pools), merged, ids) && Overflows(merged)
      ensures r.TooManyPools? <==> Stray(old(pools), merged, ids) && !Overflows(merged) && |old(pools)| > 3500
      ensures r.DuplicateKey? ==> !(ScratchIsFree(old(pools)) && ParkingHasRoom(old(pools), merged, ids))
      ensures !r.Moved? ==> pools == old(pools) && blocks == old(blocks) && rates == old(rates)
      ensures r.Moved? ==>
        && IsMapping(old(pools), merged, ids, m) && r.count == |Moves(m)| && r.ids == IdsAfter(ids, Moves(m))
        && Remapped(old(pools), old(blocks), old(rates), Moves(m), pools, blocks, rates)
        && Renumbered(old(pools), merged, ids, pools, r.ids, true)
    {
      m := map[];
      FitsIds(pools, merged, ids);
      var stray := FindStray(merged, ids);
      if !stray {
        return Idle, m;
      }
      var ok, listed, parkFrom := ListedTargets(merged, ids);
      if !ok {
        return BandOverflow, m;
      }
      var mapping := ParkRest(merged, ids, listed, parkFrom);
      m := mapping;
      MappingHasAll(pools, merged, ids, mapping);
      if |mapping| > SCRATCH_SIZE {
        return TooManyPools, m;
      }
      var moves := Moves(mapping);
      MovesAreFew(mapping);
      var scratch := ScratchIds(moves);
      BackIsSecondLeg(moves, scratch);
      hide Tidy, DistinctSlugs, HaveIds, Stray, IsMapping, Moves, IsScratch, Back, SecondLeg, Overflows, Remapped, TargetsSoFar;
      var done := Remap(merged, ids, m, moves, scratch);
      r := if done then Moved(|moves|, IdsAfter(ids, moves)) else DuplicateKey;
    }

    /** The first pool of the list that matches a block. */
    method FirstMatch(merged: seq<Item>, b: Block, search: Search) returns (i: Option<nat>)
      ensures i == FirstHit(merged, MatcherOf(b, search), 0)
      ensures i.Some? ==> i.value < |merged|
    {
      for k := 0 to |merged|
        invariant FirstHit(merged, MatcherOf(b, search), 0) == FirstHit(merged, MatcherOf(b, search), k)
      {
        if Hits(b, search, merged[k].entry.addresses, merged[k].entry.tags) {
          return Some(k);
        }
      }
      i := None;
    }

    /** Blocks from START_HEIGHT on are given the pool the list names; the count is of rows written. */
    method Retag(merged: seq<Item>, ids: map<string, Ref>, search: Search) returns (updated: nat)
      requires HaveIds(merged, ids)
      modifies this`blocks
      ensures blocks == Retagged(merged, ids, search, old(blocks))
      ensures updated == |Wrong(merged, ids, search, old(blocks))|
    {
      ghost var was := blocks;
      var rest := blocks.Keys;
      updated := 0;
      ghost var written: set<BlockKey> := {};
      while rest != {}
        invariant rest <= was.Keys && blocks.Keys == was.Keys && updated == |written|
        invariant forall key | key in was :: blocks[key] == if key in rest then was[key] else Tagged(merged, ids, search, key, was[key])
        invariant forall key :: key in written <==> key in was && key !in rest && Tagged(merged, ids, search, key, was[key]) != was[key]
        decreases rest
      {
        var key :| key in rest;
        rest := rest - {key};
        if key.0 >= START_HEIGHT {
          var b := blocks[key];
          var i := FirstMatch(merged, b, search);
          var id := if i.Some? then ids[merged[i.value].slug].id else ids[UNKNOWN].id;
          if id != b.poolId {
            blocks := blocks[key := b.(poolId := id)];
            written := written + {key};
            updated := updated + 1;
          }
        }
      }
      SameSet(written, Wrong(merged, ids, search, was));
      forall key | key in was ensures blocks[key] == Retagged(merged, ids, search, was)[key] {}
      SameMap(blocks, Retagged(merged, ids, search, was));
    }

    /**
      A whole run. An error undoes everything; a run that comes to its end takes the tables where
      `Runs` says. It does so at least where each band and the scratch range have room.
     */
    method Sync(merged: seq<Item>, search: Search, auto: Table -> int)
      returns (ok: bool, ids: map<string, Ref>, ghost course: Course)
      requires DistinctSlugs(merged) && AutoIds(auto)
      requires (exists id :: id in pools && pools[id].slug == UNKNOWN) || UNKNOWN in BySlug(merged)
      requires (forall id | id in pools :: id > 0) && forall k | k in rates :: k.1 in pools
      modifies this
      ensures ok ==> Runs(Site(old(pools), old(blocks), map[]), merged, search, auto, course, Site(pools, blocks, ids))
      ensures !ok ==> pools == old(pools) && blocks == old(blocks) && rates == old(rates)
      ensures Upsertable(old(pools), course.canon, merged)
      ensures var u := Upsert(old(pools), course.canon, merged, course.firstUid, auto);
        !Overflows(merged) && |u.table| <= SCRATCH_SIZE && ScratchIsFree(u.table) && ParkingHasRoom(u.table, merged, u.ids) ==> ok
    {
      var t, b, h := pools, blocks, rates;
      var changed, inserted;
      ghost var canon, uid, m;
      hide AutoIds, DistinctSlugs, Tidy, LowestOwn, Upsertable, Upsert, Canonical, Stray, IsMapping, Remapped, Renumbered, Overflows, Moves, Retagged, HaveIds, ScratchIsFree, ParkingHasRoom;
      ids, changed, inserted, canon, uid := UpsertPools(merged, auto);
      ghost var t0, ids0 := pools, ids;
      var r;
      r, m := RenumberPools(merged, ids);
      ok := r.Idle? || r.Moved?;
      course := Course(canon, uid, r.Moved?, m);
      if !ok {
        pools, blocks, rates := t, b, h;
        return;
      }
      if r.Moved? {
        ids := r.ids;
      }
      ghost var between := blocks;
      RunSoFar(t0, b, ids0, merged, course, Site(pools, blocks, ids), h, rates);
      var updated := Retag(merged, ids, search);
      hide *;
      assert Renumbers(t0, b, ids0, merged, course, Site(pools, blocks, ids), between);
      RunIsWhole(Site(t, b, map[]), merged, search, auto, course, Site(pools, blocks, ids), t0, ids0, between);
    }
  }

  lemma RunSoFar(
      t0: Table, blocks0: Blocks, ids0: map<string, Ref>, merged: seq<Item>, c: Course, s: Site, h0: map<RateKey, real>, h: map<RateKey, real>)
    requires Tidy(t0, merged, ids0) && DistinctSlugs(merged) && c.moved == Stray(t0, merged, ids0)
    requires !c.moved ==> s == Site(t0, blocks0, ids0)
    requires c.moved ==> !Overflows(merged) && |t0| <= SCRATCH_SIZE && IsMapping(t0, merged, ids0, c.m)
    requires c.moved ==> Remapped(t0, blocks0, h0, Moves(c.m), s.pools, s.blocks, h) && s.ids == IdsAfter(ids0, Moves(c.m))
    ensures HaveIds(merged, s.ids)
    ensures forall blocks :: Renumbers(t0, blocks0, ids0, merged, c, s.(blocks := blocks), s.blocks)
  {
    ListedHaveIds(t0, merged, ids0);
    hide Tidy, DistinctSlugs, Stray, IsMapping, Moves, Overflows, BySlug, Renamed, Lifted, BlocksAfter, NewKey;
  }

  lemma RunIsWhole(
      s: Site, merged: seq<Item>, search: Search, auto: Table -> int, c: Course, s': Site, t0: Table, ids0: map<string, Ref>, between: Blocks)
    requires Upsertable(s.pools, c.canon, merged)
    requires var u := Upsert(s.pools, c.canon, merged, c.firstUid, auto); u.table == t0 && u.ids == ids0
    requires Tidy(t0, merged, ids0) && HaveIds(merged, s'.ids) && Renumbers(t0, s.blocks, ids0, merged, c, s', between)
    requires s'.blocks == Retagged(merged, s'.ids, search, between)
    ensures Runs(s, merged, search, auto, c, s')
  {
    hide Upsertable, Upsert, Tidy, Renumbers, Retagged, HaveIds;
  }

  /** What the parts of `upsert_pools` come to. */
  lemma UpsertParts(start: Table, canon: map<string, int>, merged: seq<Item>, uid: int, auto: Table -> int)
    requires Upsertable(start, canon, merged) && AutoIds(auto)
    ensures (forall s | s in canon :: canon[s] in start) && (forall id | id in start :: start[id].slug in canon)
    ensures var u := UpsertAll(start, canon, merged, uid, auto);
      var ids := WithUnknown(start, canon, u.ids);
      var stale := StaleRows(start, canon, ids);
      var r := Upsert(start, canon, merged, uid, auto);
      && (UNKNOWN in u.ids || UNKNOWN in canon)
      && (forall id | id in stale :: id in u.table && u.table[id] == start[id])
      && r.table == BlankOut(u.table, stale) && r.ids == ids && r.inserted == u.inserted
      && r.changed == u.changed + |set id | id in stale && !Blank(start[id])|
      && Tidy(r.table, merged, r.ids) && LowestOwn(r.table, r.ids) && (forall id | id in start :: id in r.table)
  {
    hide UpsertAll, BySlug, BlankOut, Blank, Tidy, LowestOwn, StaleRows, DistinctSlugs;
    UpsertTidies(start, canon, merged, uid, auto);
    StaleRowsAreOld(start, canon, merged, uid, auto, WithUnknown(start, canon, UpsertAll(start, canon, merged, uid, auto).ids));
    UnknownIsKnown(start, canon, merged, uid, auto);
  }

  lemma UnknownIsKnown(start: Table, canon: map<string, int>, merged: seq<Item>, uid: int, auto: Table -> int)
    requires Upsertable(start, canon, merged) && AutoIds(auto)
    ensures UNKNOWN in UpsertAll(start, canon, merged, uid, auto).ids || UNKNOWN in canon
  {
    UpsertAllIs(start, canon, merged, uid, auto);
    hide UpsertAll, BySlug;
  }

  /** The pass over the list writes no row that is to be blanked. */
  lemma StaleRowsAreOld(start: Table, canon: map<string, int>, merged: seq<Item>, uid: int, auto: Table -> int, ids: map<string, Ref>)
    requires Upsertable(start, canon, merged) && AutoIds(auto)
    requires ids == WithUnknown(start, canon, UpsertAll(start, canon, merged, uid, auto).ids)
    ensures var u := UpsertAll(start, canon, merged, uid, auto);
      forall id | id in StaleRows(start, canon, ids) :: id in u.table && u.table[id] == start[id]
  {
    UpsertAllIs(start, canon, merged, uid, auto);
    hide UpsertAll, BySlug;
  }
}
