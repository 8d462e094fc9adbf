/**
  What `upsert_pools` writes, row by row: the columns of every listed pool, the ids and unique ids of
  new ones, what is left of rows that are blanked, and what its two counts count.
 */
module UpsertEffects {
  import opened Prelude
  import opened PoolTable

  /** The row has what the list says of the pool. */
  predicate SaysOf(r: Row, it: Item) {
    r.name == it.entry.name && r.link == it.entry.link && r.addresses == Some(it.entry.addresses)
    && r.regexes == Some(it.entry.tags) && r.slug == it.slug
  }

  /** The rows of the start whose columns are no longer what they were. */
  function Differing(start: Table, t: Table): set<int> {
    set id | id in start && id in t && t[id] != start[id]
  }

  /** The new pools so far: their unique ids follow one another, and their ids the highest of their bands. */
  ghost predicate NewOk(start: Table, canon: map<string, int>, merged: seq<Item>, firstUid: int, u: Up) {
    && u.nextUid == firstUid + u.inserted
    && (forall i | 0 <= i < |merged| :: merged[i].slug in u.ids)
    && (forall i | 0 <= i < |merged| && merged[i].slug !in canon ::
          var r := u.ids[merged[i].slug];
          firstUid <= r.uid < u.nextUid && r.id in u.table
          && (!u.full ==> forall id | id in start && InBand(id, merged[i].prio) :: id < r.id))
    && (forall i, j | 0 <= i < j < |merged| && merged[i].slug !in canon && merged[j].slug !in canon ::
          u.ids[merged[i].slug].uid < u.ids[merged[j].slug].uid
          && (!u.full && Band(merged[i].prio) == Band(merged[j].prio) ==> u.ids[merged[i].slug].id < u.ids[merged[j].slug].id))
  }

  ghost predicate CountsOk(start: Table, u: Up) {
    u.changed == |Differing(start, u.table)| && |u.table| == |start| + u.inserted
  }

  lemma NothingDiffers(start: Table)
    ensures Differing(start, start) == {}
  {
    NoElements(Differing(start, start));
  }

  lemma OneMoreDiffers(start: Table, t: Table, id: int, r: Row)
    requires id in start && id in t && t[id] == start[id] && r != start[id]
    ensures |Differing(start, t[id := r])| == |Differing(start, t)| + 1 && |t[id := r]| == |t|
  {
    SameSet(Differing(start, t[id := r]), Differing(start, t) + {id});
    assert t[id := r].Keys == t.Keys + {id};
    SameSet(t.Keys + {id}, t.Keys);
  }

  lemma OneRowMore(start: Table, t: Table, id: int, r: Row)
    requires id !in t && id !in start
    ensures Differing(start, t[id := r]) == Differing(start, t) && |t[id := r]| == |t| + 1
  {
    SameSet(Differing(start, t[id := r]), Differing(start, t));
    assert t[id := r].Keys == t.Keys + {id};
  }

  lemma KnownCounts(start: Table, canon: map<string, int>, seen: map<string, Item>, u: Up, it: Item, auto: int)
    requires Canonical(start, canon) && UpOk(start, canon, seen, u) && it.slug !in seen && it.slug in canon && CountsOk(start, u)
    ensures CountsOk(start, UpsertOne(start, canon, u, it, auto))
  {
    var id := canon[it.slug];
    assert id in start.Keys && id in u.table.Keys;
    assert u.table[id] == start[id];
    var want := Filled(it, start[id].uid);
    if start[id] != want {
      OneMoreDiffers(start, u.table, id, want);
    }
    hide UpOk, Canonical, Differing;
  }

  lemma NewCounts(start: Table, canon: map<string, int>, seen: map<string, Item>, u: Up, it: Item, auto: int)
    requires Canonical(start, canon) && UpOk(start, canon, seen, u) && it.slug !in canon && CountsOk(start, u)
    requires auto !in u.table
    ensures CountsOk(start, UpsertOne(start, canon, u, it, auto))
  {
    NextIdIsFree(u.table.Keys, it.prio);
    hide HighestIn, Lo, Hi, Band, InBand, Filled, Differing, RefOk;
    var next := HighestIn(u.table.Keys, Lo(Band(it.prio)), Hi(Band(it.prio))) + 1;
    var id := if next > Hi(Band(it.prio)) then auto else next;
    assert id !in start by { assert start.Keys <= u.table.Keys && id !in u.table.Keys; }
    OneRowMore(start, u.table, id, Filled(it, u.nextUid));
  }

  lemma KnownNew(start: Table, canon: map<string, int>, merged: seq<Item>, firstUid: int, u: Up, auto: int)
    requires Canonical(start, canon) && DistinctSlugs(merged) && merged != [] && merged[|merged| - 1].slug in canon
    requires NewOk(start, canon, merged[..|merged| - 1], firstUid, u)
    ensures NewOk(start, canon, merged, firstUid, UpsertOne(start, canon, u, merged[|merged| - 1], auto))
  {
    hide InBand, Band;
    var n := |merged| - 1;
    forall i | 0 <= i < n ensures merged[..n][i] == merged[i] && merged[i].slug != merged[n].slug {}
  }

  /** The id a new pool is given is above all that are in use in its band. */
  lemma NextIsAbove(used: set<int>, prio: nat, id: int)
    requires id in used && InBand(id, prio)
    ensures id <= HighestIn(used, Lo(Band(prio)), Hi(Band(prio)))
  {
    HighestInIs(used, Lo(Band(prio)), Hi(Band(prio)));
    hide HighestIn;
  }

  ghost predicate NewInBand(merged: seq<Item>, canon: map<string, int>, u: Up) {
    forall i | 0 <= i < |merged| && merged[i].slug !in canon :: merged[i].slug in u.ids && InBand(u.ids[merged[i].slug].id, merged[i].prio)
  }

  lemma AddedNew(start: Table, canon: map<string, int>, merged: seq<Item>, firstUid: int, u: Up, id: int, v: Up)
    requires DistinctSlugs(merged) && merged != [] && merged[|merged| - 1].slug !in canon
    requires NewOk(start, canon, merged[..|merged| - 1], firstUid, u) && id !in u.table && (u.full ==> v.full)
    requires v.nextUid == u.nextUid + 1 && v.inserted == u.inserted + 1
    requires var it := merged[|merged| - 1];
      && v.table.Keys == u.table.Keys + {id} && v.ids == u.ids[it.slug := Ref(id, u.nextUid)]
      && (!v.full ==> forall k | k in u.table && InBand(k, it.prio) :: k < id)
    requires start.Keys <= u.table.Keys
    requires !u.full ==> NewInBand(merged[..|merged| - 1], canon, u)
    ensures NewOk(start, canon, merged, firstUid, v)
  {
    hide InBand, Band;
    var n := |merged| - 1;
    forall i | 0 <= i < n ensures merged[..n][i] == merged[i] && merged[i].slug != merged[n].slug {}
    forall k | k in start ensures k in u.table { assert k in start.Keys; }
    forall i | 0 <= i < n && merged[i].slug !in canon && !v.full && Band(merged[i].prio) == Band(merged[n].prio)
      ensures u.ids[merged[i].slug].id < id
    {
      assert merged[..n][i] == merged[i];
      SameBand(u.ids[merged[i].slug].id, merged[i].prio, merged[n].prio);
    }
  }

  lemma SameBand(id: int, a: nat, b: nat)
    requires Band(a) == Band(b)
    ensures InBand(id, a) == InBand(id, b)
  {
  }

  lemma NewNew(start: Table, canon: map<string, int>, merged: seq<Item>, firstUid: int, u: Up, auto: int)
    requires Canonical(start, canon) && DistinctSlugs(merged) && merged != [] && merged[|merged| - 1].slug !in canon
    requires NewOk(start, canon, merged[..|merged| - 1], firstUid, u) && auto !in u.table && start.Keys <= u.table.Keys
    requires !u.full ==> NewInBand(merged[..|merged| - 1], canon, u)
    ensures NewOk(start, canon, merged, firstUid, UpsertOne(start, canon, u, merged[|merged| - 1], auto))
  {
    hide HighestIn, Lo, Hi, Band, InBand, Filled, NewOk, DistinctSlugs;
    var it := merged[|merged| - 1];
    NextIdIsFree(u.table.Keys, it.prio);
    var next := HighestIn(u.table.Keys, Lo(Band(it.prio)), Hi(Band(it.prio))) + 1;
    forall k | k in u.table && InBand(k, it.prio) ensures k < next {
      NextIsAbove(u.table.Keys, it.prio, k);
    }
    var id := if next > Hi(Band(it.prio)) then auto else next;
    AddedNew(start, canon, merged, firstUid, u, id, UpsertOne(start, canon, u, it, auto));
  }

  lemma NewAreInBand(start: Table, canon: map<string, int>, merged: seq<Item>, u: Up)
    requires DistinctSlugs(merged) && UpOk(start, canon, BySlug(merged), u) && !u.full
    ensures NewInBand(merged, canon, u)
  {
    SeenOnce(merged);
    hide InBand, BySlug, Filled;
    forall i | 0 <= i < |merged| && merged[i].slug !in canon
      ensures merged[i].slug in u.ids && InBand(u.ids[merged[i].slug].id, merged[i].prio)
    {
      assert RefOk(start, canon, u, BySlug(merged)[merged[i].slug]);
    }
  }

  lemma LastIsNew(merged: seq<Item>)
    requires DistinctSlugs(merged) && merged != []
    ensures merged[|merged| - 1].slug !in BySlug(merged[..|merged| - 1]) && DistinctSlugs(merged[..|merged| - 1])
  {
    SeenOnce(merged[..|merged| - 1]);
    hide BySlug;
  }

  lemma StartStays(start: Table, canon: map<string, int>, seen: map<string, Item>, u: Up)
    requires UpOk(start, canon, seen, u)
    ensures start.Keys <= u.table.Keys
  {
    hide RefOk;
  }

  lemma OnePoolMore(start: Table, canon: map<string, int>, merged: seq<Item>, firstUid: int, u: Up, auto: int)
    requires Canonical(start, canon) && DistinctSlugs(merged) && merged != []
    requires NewOk(start, canon, merged[..|merged| - 1], firstUid, u) && CountsOk(start, u)
    requires UpOk(start, canon, BySlug(merged[..|merged| - 1]), u) && auto !in u.table
    ensures var v := UpsertOne(start, canon, u, merged[|merged| - 1], auto);
      NewOk(start, canon, merged, firstUid, v) && CountsOk(start, v)
  {
    hide *;
    var n := |merged| - 1;
    var it, before := merged[n], merged[..n];
    LastIsNew(merged);
    StartStays(start, canon, BySlug(before), u);
    if it.slug in canon {
      KnownCounts(start, canon, BySlug(before), u, it, auto);
      KnownNew(start, canon, merged, firstUid, u, auto);
    } else {
      NewCounts(start, canon, BySlug(before), u, it, auto);
      if !u.full {
        NewAreInBand(start, canon, before, u);
      }
      NewNew(start, canon, merged, firstUid, u, auto);
    }
  }

  lemma {:induction false} PassIs(start: Table, canon: map<string, int>, merged: seq<Item>, firstUid: int, auto: Table -> int)
    requires Canonical(start, canon) && DistinctSlugs(merged) && AutoIds(auto)
    ensures var u := UpsertAll(start, canon, merged, firstUid, auto);
      NewOk(start, canon, merged, firstUid, u) && CountsOk(start, u)
  {
    if merged == [] {
      NothingDiffers(start);
    } else {
      hide UpOk, NewOk, CountsOk, BySlug, UpsertOne, Canonical;
      var n := |merged| - 1;
      PassIs(start, canon, merged[..n], firstUid, auto);
      UpsertAllIs(start, canon, merged[..n], firstUid, auto);
      var u := UpsertAll(start, canon, merged[..n], firstUid, auto);
      AutoIsNew(u.table, auto);
      OnePoolMore(start, canon, merged, firstUid, u, auto(u.table));
    }
  }

  lemma AutoIsNew(t: Table, auto: Table -> int)
    requires AutoIds(auto)
    ensures auto(t) !in t
  {
  }

  // ---------------------------------------------------------------------------------------
  // The whole of it

  /** The row of a pool that is no longer listed, or one of two rows of a slug. */
  ghost predicate NotListed(start: Table, canon: map<string, int>, merged: seq<Item>, id: int)
    requires id in start
  {
    (forall i | 0 <= i < |merged| :: merged[i].slug != start[id].slug) || !(start[id].slug in canon && canon[start[id].slug] == id)
  }

  predicate IsUnknowns(start: Table, canon: map<string, int>, id: int)
    requires id in start
  {
    start[id].slug == "unknown" && start[id].slug in canon && canon[start[id].slug] == id
  }

  /** The row matches no block any more, and is otherwise as it was. */
  predicate LostItsMatchers(was: Row, r: Row) {
    if was.addresses in [None, Some([])] && was.regexes in [None, Some([])] then r == was
    else r == Row(was.name, was.link, Some([]), Some([]), was.slug, was.uid)
  }

  lemma SlugsSeen(merged: seq<Item>, s: string)
    requires DistinctSlugs(merged)
    ensures s in BySlug(merged) <==> exists i :: 0 <= i < |merged| && merged[i].slug == s
  {
    SeenOnce(merged);
  }

  lemma BlankedRow(was: Row)
    ensures LostItsMatchers(was, if Blank(was) then was else Blanked(was))
  {
  }

  /** What happens to a row the list has no use for. */
  lemma RowLeft(start: Table, canon: map<string, int>, merged: seq<Item>, u: Up, id: int)
    requires Upsertable(start, canon, merged) && UpOk(start, canon, BySlug(merged), u) && id in start
    requires NotListed(start, canon, merged, id)
    ensures var t := BlankOut(u.table, StaleRows(start, canon, WithUnknown(start, canon, u.ids)));
      id in t && u.table[id] == start[id] && (if IsUnknowns(start, canon, id) then t[id] == start[id] else LostItsMatchers(start[id], t[id]))
  {
    SlugsSeen(merged, start[id].slug);
    BlankedRow(start[id]);
    assert id in start.Keys && id in u.table.Keys;
    SeenOnce(merged);
    if UNKNOWN in BySlug(merged) {
      SlugsSeen(merged, UNKNOWN);
    }
    hide BySlug, RefOk, Blank, LostItsMatchers, Blanked;
  }

  lemma ListedRow(start: Table, canon: map<string, int>, merged: seq<Item>, u: Up, i: nat)
    requires Upsertable(start, canon, merged) && UpOk(start, canon, BySlug(merged), u) && i < |merged|
    ensures var ids := WithUnknown(start, canon, u.ids);
      var t := BlankOut(u.table, StaleRows(start, canon, ids));
      var s := merged[i].slug;
      && s in ids && s in u.ids && ids[s] == u.ids[s] && ids[s].id in t && SaysOf(t[ids[s].id], merged[i]) && t[ids[s].id].uid == ids[s].uid
      && (s in canon ==> ids[s] == Ref(canon[s], start[canon[s]].uid))
  {
    SeenOnce(merged);
    assert forall s | s in BySlug(merged) :: BySlug(merged)[s].slug == s;
    ListedIsSpared(start, canon, merged, u, merged[i].slug);
    assert RefOk(start, canon, u, BySlug(merged)[merged[i].slug]);
    hide BySlug, BlankOut, StaleRows, WithUnknown;
  }

  /** The rows left over that still match something. */
  function Dirty(start: Table, stale: set<int>): set<int> { set id | id in start && id in stale && !Blank(start[id]) }

  lemma BlankingOne(start: Table, t: Table, stale: set<int>, id: int)
    requires id in start && id in t && (id in stale ==> t[id] == start[id])
    ensures BlankOut(t, stale)[id] != start[id] <==> t[id] != start[id] || (id in stale && !Blank(start[id]))
  {
    if !Blank(start[id]) {
      BlankedIsOther(start[id]);
    }
    hide Blank, Blanked;
  }

  /** None of them was written before, so the pass and the blanking write different rows. */
  lemma BlankedDiffer(start: Table, t: Table, stale: set<int>)
    requires forall id | id in start :: id in t && (id in stale ==> t[id] == start[id])
    ensures |Differing(start, BlankOut(t, stale))| == |Differing(start, t)| + |Dirty(start, stale)|
  {
    var before, dirty := Differing(start, t), Dirty(start, stale);
    var after := Differing(start, BlankOut(t, stale));
    forall id ensures id in after <==> id in before || id in dirty {
      if id in start {
        BlankingOne(start, t, stale, id);
      }
    }
    hide BlankOut, Blank;
    SameSet(after, before + dirty);
    forall id ensures id !in before * dirty {
      assert id in before ==> t[id] != start[id];
    }
    NoElements(before * dirty);
    assert |before + dirty| == |before| + |dirty| - |before * dirty|;
  }

  lemma BlankedIsOther(r: Row)
    requires !Blank(r)
    ensures Blanked(r) != r
  {
  }

  lemma StaleRowsAreAsTheyWere(start: Table, canon: map<string, int>, merged: seq<Item>, u: Up)
    requires Upsertable(start, canon, merged) && UpOk(start, canon, BySlug(merged), u)
    ensures var stale := StaleRows(start, canon, WithUnknown(start, canon, u.ids));
      && (forall id | id in start :: id in u.table && (id in stale ==> u.table[id] == start[id]))
      && Dirty(start, stale) == set id | id in stale && !Blank(start[id])
  {
    hide BySlug, RefOk, Blank;
    var stale := StaleRows(start, canon, WithUnknown(start, canon, u.ids));
    forall id | id in start ensures id in u.table { assert id in start.Keys && id in u.table.Keys; }
    SameSet(Dirty(start, stale), set id | id in stale && !Blank(start[id]));
  }

  /** `inserted` counts the rows that are new, and `changed` those whose columns are no longer what they were. */
  lemma CountsCount(start: Table, canon: map<string, int>, merged: seq<Item>, firstUid: int, auto: Table -> int)
    requires Upsertable(start, canon, merged) && AutoIds(auto)
    ensures var u := Upsert(start, canon, merged, firstUid, auto);
      && u.changed == |Differing(start, u.table)|
      && |u.table| == |start| + u.inserted
  {
    UpsertAllIs(start, canon, merged, firstUid, auto);
    PassIs(start, canon, merged, firstUid, auto);
    var p := UpsertAll(start, canon, merged, firstUid, auto);
    StaleRowsAreAsTheyWere(start, canon, merged, p);
    var stale := StaleRows(start, canon, WithUnknown(start, canon, p.ids));
    hide UpOk, NewOk, StaleRows, WithUnknown, UpsertAll, Blank, Differing, Dirty, BySlug, AutoIds;
    BlankedDiffer(start, p.table, stale);
    assert BlankOut(p.table, stale).Keys == p.table.Keys;
    hide BlankOut;
  }

  /**
    What `upsert_pools` writes. The row of every listed pool has its name, link, addresses, tags and
    slug; a pool that had a row keeps its id and unique id, and a new one gets an id above all of its
    band and a unique id of its own, both rising with the list. Every other row that still matched
    something loses its matchers and nothing else, but for the Unknown pool's.
   */
  lemma UpsertWrites(start: Table, canon: map<string, int>, merged: seq<Item>, firstUid: int, auto: Table -> int)
    requires Upsertable(start, canon, merged) && AutoIds(auto)
    ensures var u := Upsert(start, canon, merged, firstUid, auto);
      && (forall i | 0 <= i < |merged| ::
            var s := merged[i].slug;
            && s in u.ids && u.ids[s].id in u.table && SaysOf(u.table[u.ids[s].id], merged[i]) && u.table[u.ids[s].id].uid == u.ids[s].uid
            && (s in canon ==> u.ids[s] == Ref(canon[s], start[canon[s]].uid)))
      && NewOk(start, canon, merged, firstUid, u)
      && (forall id | id in start :: id in u.table)
      && (forall id | id in start && NotListed(start, canon, merged, id) ::
            if IsUnknowns(start, canon, id) then u.table[id] == start[id] else LostItsMatchers(start[id], u.table[id]))
  {
    UpsertAllIs(start, canon, merged, firstUid, auto);
    PassIs(start, canon, merged, firstUid, auto);
    var p := UpsertAll(start, canon, merged, firstUid, auto);
    var u := Upsert(start, canon, merged, firstUid, auto);
    forall i | 0 <= i < |merged| { ListedRow(start, canon, merged, p, i); }
    forall id | id in start && NotListed(start, canon, merged, id) { RowLeft(start, canon, merged, p, id); }
    RowsStay(start, canon, merged, p);
    SameNew(start, canon, merged, firstUid, p, u);
    hide *;
  }

  lemma SameNew(start: Table, canon: map<string, int>, merged: seq<Item>, firstUid: int, p: Up, u: Up)
    requires NewOk(start, canon, merged, firstUid, p) && u.nextUid == p.nextUid && u.inserted == p.inserted && u.full == p.full
    requires u.table.Keys == p.table.Keys && forall i | 0 <= i < |merged| :: merged[i].slug in u.ids && (merged[i].slug in p.ids ==> u.ids[merged[i].slug] == p.ids[merged[i].slug])
    ensures NewOk(start, canon, merged, firstUid, u)
  {
    hide InBand, Band;
  }
}
