/**
  The `pools` table as node/pools/pools-sync.py keeps it: `upsert_pools` brings it in line with the
  merged list, `renumber_pools` moves each pool into the id band of its priority.
 */
module PoolTable {
  import opened Prelude

  const UNKNOWN := "unknown"
  const UNKNOWN_ID := 65500
  const SCRATCH_BASE := 62000

  /** A pool of the merged list. */
  datatype Entry = Entry(name: string, link: string, addresses: seq<string>, tags: seq<string>)
  datatype Item = Item(slug: string, entry: Entry, prio: nat)

  /** A row of `pools`, without its id. The matcher columns hold a JSON list or NULL. */
  datatype Row = Row(
    name: string, link: string, addresses: Option<seq<string>>, regexes: Option<seq<string>>, slug: string, uid: int)

  type Table = map<int, Row>

  datatype Ref = Ref(id: int, uid: int)

  function Band(prio: nat): nat { if prio <= 5 then prio else 5 }

  function Lo(band: nat): int {
    if band == 0 then 1 else if band == 1 then 100 else if band == 2 then 1000
    else if band == 3 then 10000 else if band == 4 then 30000 else 60000
  }

  function Hi(band: nat): int {
    if band == 0 then 99 else if band == 1 then 999 else if band == 2 then 9999
    else if band == 3 then 29999 else if band == 4 then 59999 else 61999
  }

  predicate InBand(id: int, prio: nat) { Lo(Band(prio)) <= id <= Hi(Band(prio)) }

  /** The pools of the list by slug. */
  function BySlug(merged: seq<Item>): map<string, Item> {
    if merged == [] then map[]
    else BySlug(merged[..|merged| - 1])[merged[|merged| - 1].slug := merged[|merged| - 1]]
  }

  predicate DistinctSlugs(merged: seq<Item>) {
    forall i, j | 0 <= i < j < |merged| :: merged[i].slug != merged[j].slug
  }

  // ---------------------------------------------------------------------------------------
  // upsert_pools

  function Filled(it: Item, uid: int): Row {
    Row(it.entry.name, it.entry.link, Some(it.entry.addresses), Some(it.entry.tags), it.slug, uid)
  }

  /** The matcher columns claim no block. */
  predicate Blank(r: Row) {
    (r.addresses == None || r.addresses == Some([])) && (r.regexes == None || r.regexes == Some([]))
  }

  function Blanked(r: Row): Row { r.(addresses := Some([]), regexes := Some([])) }

  /** Where a slug has several rows the lowest id is the pool. */
  ghost predicate Canonical(t: Table, canon: map<string, int>) {
    && (forall s | s in canon :: canon[s] in t && t[canon[s]].slug == s)
    && (forall id | id in t :: t[id].slug in canon && canon[t[id].slug] <= id)
  }

  /** The highest id in use in a range, or one below the range. */
  function HighestIn(used: set<int>, lo: int, hi: int): int
    decreases hi - lo
  {
    if hi < lo then lo - 1 else if hi in used then hi else HighestIn(used, lo, hi - 1)
  }

  /** The pass over the merged list; `full` says that some band had no free id, so the row got an automatic one. */
  datatype Up = Up(
    table: Table, ids: map<string, Ref>, nextUid: int, changed: nat, inserted: nat, full: bool)

  /** One pool of the merged list; `auto` is the id the database gives when none is named. */
  function UpsertOne(start: Table, canon: map<string, int>, u: Up, it: Item, auto: int): Up
    requires forall s | s in canon :: canon[s] in start
  {
    if it.slug in canon then
      var id := canon[it.slug];
      var want := Filled(it, start[id].uid);
      var same := start[id].(slug := it.slug) == want;
      u.(table := if same then u.table else u.table[id := want],
         ids := u.ids[it.slug := Ref(id, start[id].uid)],
         changed := u.changed + if same then 0 else 1)
    else
      var next := HighestIn(u.table.Keys, Lo(Band(it.prio)), Hi(Band(it.prio))) + 1;
      var full := next > Hi(Band(it.prio));
      var id := if full then auto else next;
      u.(table := u.table[id := Filled(it, u.nextUid)], ids := u.ids[it.slug := Ref(id, u.nextUid)],
         nextUid := u.nextUid + 1, inserted := u.inserted + 1, full := u.full || full)
  }

  /** The automatic id: above every id in use. */
  ghost predicate AutoIds(auto: Table -> int) {
    forall t: Table :: auto(t) > 0 && forall id | id in t :: id < auto(t)
  }

  function UpsertAll(start: Table, canon: map<string, int>, merged: seq<Item>, firstUid: int, auto: Table -> int): Up
    requires forall s | s in canon :: canon[s] in start
  {
    if merged == [] then Up(start, map[], firstUid, 0, 0, false)
    else
      var u := UpsertAll(start, canon, merged[..|merged| - 1], firstUid, auto);
      UpsertOne(start, canon, u, merged[|merged| - 1], auto(u.table))
  }

  /** Rows of pools no longer listed, and duplicate rows. */
  function StaleRows(start: Table, canon: map<string, int>, ids: map<string, Ref>): set<int>
    requires forall id | id in start :: start[id].slug in canon
  {
    set id | id in start && (start[id].slug !in ids || id != canon[start[id].slug])
  }

  function BlankOut(t: Table, stale: set<int>): Table {
    map id | id in t :: if id in stale && !Blank(t[id]) then Blanked(t[id]) else t[id]
  }

  /** `ids` with the Unknown pool's row, when there is one. */
  function WithUnknown(start: Table, canon: map<string, int>, ids: map<string, Ref>): map<string, Ref>
    requires forall s | s in canon :: canon[s] in start
  {
    if UNKNOWN in ids || UNKNOWN !in canon then ids
    else ids[UNKNOWN := Ref(canon[UNKNOWN], start[canon[UNKNOWN]].uid)]
  }

  function Upsert(start: Table, canon: map<string, int>, merged: seq<Item>, firstUid: int, auto: Table -> int): Up
    requires (forall s | s in canon :: canon[s] in start) && forall id | id in start :: start[id].slug in canon
  {
    var u := UpsertAll(start, canon, merged, firstUid, auto);
    var ids := WithUnknown(start, canon, u.ids);
    var stale := StaleRows(start, canon, ids);
    u.(table := BlankOut(u.table, stale), ids := ids,
       changed := u.changed + |set id | id in stale && !Blank(start[id])|)
  }

  // ---------------------------------------------------------------------------------------
  // What upsert_pools leaves behind

  lemma {:induction false} HighestInIs(used: set<int>, lo: int, hi: int)
    requires lo <= hi + 1
    ensures lo - 1 <= HighestIn(used, lo, hi) <= hi
    ensures forall id | id in used && lo <= id <= hi :: id <= HighestIn(used, lo, hi)
    decreases hi - lo
  {
    if lo <= hi && hi !in used {
      HighestInIs(used, lo, hi - 1);
    }
  }

  /** The row and the reference of a listed pool: its old row, or a new one in its band. */
  ghost predicate RefOk(start: Table, canon: map<string, int>, u: Up, it: Item) {
    && it.slug in u.ids
    && var r := u.ids[it.slug];
       && r.id in u.table && u.table[r.id] == Filled(it, r.uid)
       && (if it.slug in canon then r.id == canon[it.slug] && r.id in start && r.uid == start[r.id].uid
           else r.id !in start && r.id > 0 && (u.full || InBand(r.id, it.prio)))
  }

  /** How far the pass has come, having seen the pools of `seen`. */
  ghost predicate UpOk(start: Table, canon: map<string, int>, seen: map<string, Item>, u: Up) {
    && start.Keys <= u.table.Keys
    && u.ids.Keys == seen.Keys
    && (forall s | s in seen :: seen[s].slug == s && RefOk(start, canon, u, seen[s]))
    && (forall id | id in start :: u.table[id] == start[id]
          || (start[id].slug in seen && start[id].slug in canon && id == canon[start[id].slug]))
    && (forall id | id in u.table && id !in start ::
          u.table[id].slug in seen && u.table[id].slug !in canon && u.ids[u.table[id].slug].id == id)
  }

  lemma KnownPoolKeeps(start: Table, canon: map<string, int>, seen: map<string, Item>, u: Up, it: Item, auto: int)
    requires Canonical(start, canon) && UpOk(start, canon, seen, u) && it.slug !in seen && it.slug in canon
    ensures UpOk(start, canon, seen[it.slug := it], UpsertOne(start, canon, u, it, auto))
  {
  }

  /** The id after a band's highest is free, and in the band unless the band is full. */
  lemma NextIdIsFree(used: set<int>, prio: nat)
    ensures var next := HighestIn(used, Lo(Band(prio)), Hi(Band(prio))) + 1;
      next > Hi(Band(prio)) || (next !in used && next > 0 && InBand(next, prio))
  {
    HighestInIs(used, Lo(Band(prio)), Hi(Band(prio)));
    hide HighestIn;
  }

  /** A row added at a free id. */
  lemma AddedPoolKeeps(start: Table, canon: map<string, int>, seen: map<string, Item>, u: Up, it: Item, id: int, v: Up)
    requires Canonical(start, canon) && UpOk(start, canon, seen, u) && it.slug !in seen && it.slug !in canon
    requires id > 0 && id !in u.table && (v.full || InBand(id, it.prio)) && (u.full ==> v.full)
    requires v.table == u.table[id := Filled(it, u.nextUid)] && v.ids == u.ids[it.slug := Ref(id, u.nextUid)]
    ensures UpOk(start, canon, seen[it.slug := it], v)
  {
    AddedRefs(start, canon, seen, u, it, id, v);
    hide InBand, RefOk, Filled;
    FilledIs(it, u.nextUid);
  }

  lemma AddedRefs(start: Table, canon: map<string, int>, seen: map<string, Item>, u: Up, it: Item, id: int, v: Up)
    requires UpOk(start, canon, seen, u) && it.slug !in seen && it.slug !in canon
    requires id > 0 && id !in u.table && (v.full || InBand(id, it.prio)) && (u.full ==> v.full)
    requires v.table == u.table[id := Filled(it, u.nextUid)] && v.ids == u.ids[it.slug := Ref(id, u.nextUid)]
    ensures RefOk(start, canon, v, it) && forall s | s in seen :: RefOk(start, canon, v, seen[s])
  {
    hide InBand, Filled;
    assert id !in start by { assert id !in start.Keys; }
    forall s | s in seen ensures RefOk(start, canon, v, seen[s]) {
      assert RefOk(start, canon, u, seen[s]);
    }
  }

  lemma NewPoolKeeps(start: Table, canon: map<string, int>, seen: map<string, Item>, u: Up, it: Item, auto: int)
    requires Canonical(start, canon) && UpOk(start, canon, seen, u) && it.slug !in seen && it.slug !in canon
    requires auto > 0 && auto !in u.table
    ensures UpOk(start, canon, seen[it.slug := it], UpsertOne(start, canon, u, it, auto))
  {
    hide HighestIn, Lo, Hi, Band, InBand, UpOk, Filled;
    NextIdIsFree(u.table.Keys, it.prio);
    var next := HighestIn(u.table.Keys, Lo(Band(it.prio)), Hi(Band(it.prio))) + 1;
    var id := if next > Hi(Band(it.prio)) then auto else next;
    AddedPoolKeeps(start, canon, seen, u, it, id, UpsertOne(start, canon, u, it, auto));
  }

  lemma {:induction false} SeenOnce(merged: seq<Item>)
    requires DistinctSlugs(merged)
    ensures forall i | 0 <= i < |merged| :: merged[i].slug in BySlug(merged) && BySlug(merged)[merged[i].slug] == merged[i]
    ensures forall s | s in BySlug(merged) :: exists i :: 0 <= i < |merged| && merged[i].slug == s
  {
    if merged != [] {
      SeenOnce(merged[..|merged| - 1]);
    }
  }

  lemma {:induction false} UpsertAllIs(start: Table, canon: map<string, int>, merged: seq<Item>, firstUid: int, auto: Table -> int)
    requires Canonical(start, canon) && DistinctSlugs(merged) && AutoIds(auto)
    ensures UpOk(start, canon, BySlug(merged), UpsertAll(start, canon, merged, firstUid, auto))
  {
    if merged != [] {
      var n := |merged| - 1;
      var it, before := merged[n], merged[..n];
      UpsertAllIs(start, canon, before, firstUid, auto);
      var u := UpsertAll(start, canon, before, firstUid, auto);
      SeenOnce(before);
      assert it.slug !in BySlug(before);
      hide UpOk;
      if it.slug in canon {
        KnownPoolKeeps(start, canon, BySlug(before), u, it, auto(u.table));
      } else {
        NewPoolKeeps(start, canon, BySlug(before), u, it, auto(u.table));
      }
    }
  }

  /**
    The table in line with the list: each listed pool has its row, filled in, and `Unknown` has one;
    every other row is blank; and a pool's row is the lowest of its slug.
   */
  ghost predicate Tidy(t: Table, merged: seq<Item>, ids: map<string, Ref>) {
    && ids.Keys == BySlug(merged).Keys + {UNKNOWN}
    && (forall id | id in t :: id > 0)
    && (forall s | s in ids :: ids[s].id in t && t[ids[s].id].slug == s && t[ids[s].id].uid == ids[s].uid)
    && (forall s | s in BySlug(merged) :: t[ids[s].id] == Filled(BySlug(merged)[s], ids[s].uid))
    && (forall id | id in t :: Owns(t, ids, id) || Blank(t[id]))
  }

  /** Row `id` is the one its slug's pool goes by. */
  predicate Owns(t: Table, ids: map<string, Ref>, id: int)
    requires id in t
  {
    t[id].slug in ids && ids[t[id].slug].id == id
  }

  ghost predicate LowestOwn(t: Table, ids: map<string, Ref>) {
    forall id | id in t && t[id].slug in ids :: ids[t[id].slug].id <= id
  }

  /** What `upsert_pools` needs: a row for Unknown, or a list that names it. */
  ghost predicate Upsertable(start: Table, canon: map<string, int>, merged: seq<Item>) {
    && Canonical(start, canon) && DistinctSlugs(merged)
    && (UNKNOWN in canon || UNKNOWN in BySlug(merged))
    && forall id | id in start :: id > 0
  }

  /** Blanking spares the rows of listed pools. */
  lemma ListedIsSpared(start: Table, canon: map<string, int>, merged: seq<Item>, u: Up, s: string)
    requires Upsertable(start, canon, merged) && UpOk(start, canon, BySlug(merged), u)
    requires forall s | s in BySlug(merged) :: BySlug(merged)[s].slug == s
    requires s in BySlug(merged)
    ensures var ids := WithUnknown(start, canon, u.ids);
      var t := BlankOut(u.table, StaleRows(start, canon, ids));
      s in ids && ids[s] == u.ids[s] && ids[s].id in t && t[ids[s].id] == Filled(BySlug(merged)[s], ids[s].uid)
  {
    assert RefOk(start, canon, u, BySlug(merged)[s]);
    hide BySlug;
  }

  lemma RowIsOwnOrBlank(start: Table, canon: map<string, int>, merged: seq<Item>, u: Up, id: int)
    requires Upsertable(start, canon, merged) && UpOk(start, canon, BySlug(merged), u)
    requires forall s | s in BySlug(merged) :: BySlug(merged)[s].slug == s
    requires id in u.table
    ensures var ids := WithUnknown(start, canon, u.ids);
      var t := BlankOut(u.table, StaleRows(start, canon, ids));
      id > 0 && id in t && t[id].slug == u.table[id].slug && (Owns(t, ids, id) || Blank(t[id]))
  {
    hide BySlug;
    if id in start && start[id].slug in BySlug(merged) {
      assert RefOk(start, canon, u, BySlug(merged)[start[id].slug]);
    }
    if id !in start {
      assert RefOk(start, canon, u, BySlug(merged)[u.table[id].slug]);
    }
  }

  lemma UnknownHasItsRow(start: Table, canon: map<string, int>, merged: seq<Item>, u: Up)
    requires Upsertable(start, canon, merged) && UpOk(start, canon, BySlug(merged), u)
    requires forall s | s in BySlug(merged) :: BySlug(merged)[s].slug == s
    requires UNKNOWN !in BySlug(merged)
    ensures var ids := WithUnknown(start, canon, u.ids);
      var t := BlankOut(u.table, StaleRows(start, canon, ids));
      UNKNOWN in ids && ids[UNKNOWN].id in t && t[ids[UNKNOWN].id].slug == UNKNOWN && t[ids[UNKNOWN].id].uid == ids[UNKNOWN].uid
  {
    hide BySlug, RefOk;
  }

  lemma AllListedAreSpared(start: Table, canon: map<string, int>, merged: seq<Item>, u: Up)
    requires Upsertable(start, canon, merged) && UpOk(start, canon, BySlug(merged), u)
    requires forall s | s in BySlug(merged) :: BySlug(merged)[s].slug == s
    ensures var ids := WithUnknown(start, canon, u.ids);
      var t := BlankOut(u.table, StaleRows(start, canon, ids));
      ids.Keys == BySlug(merged).Keys + {UNKNOWN} &&
      forall s | s in BySlug(merged) :: ids[s].id in t && t[ids[s].id] == Filled(BySlug(merged)[s], ids[s].uid)
  {
    assert WithUnknown(start, canon, u.ids).Keys == BySlug(merged).Keys + {UNKNOWN};
    hide BySlug, BlankOut, StaleRows, WithUnknown, Upsertable, UpOk, Filled;
    forall s | s in BySlug(merged)
      ensures var ids := WithUnknown(start, canon, u.ids);
        var t := BlankOut(u.table, StaleRows(start, canon, ids));
        s in ids && ids[s].id in t && t[ids[s].id] == Filled(BySlug(merged)[s], ids[s].uid)
    {
      ListedIsSpared(start, canon, merged, u, s);
    }
  }

  lemma AllRowsAreOwnOrBlank(start: Table, canon: map<string, int>, merged: seq<Item>, u: Up)
    requires Upsertable(start, canon, merged) && UpOk(start, canon, BySlug(merged), u)
    requires forall s | s in BySlug(merged) :: BySlug(merged)[s].slug == s
    ensures var ids := WithUnknown(start, canon, u.ids);
      var t := BlankOut(u.table, StaleRows(start, canon, ids));
      forall id | id in t :: id > 0 && (Owns(t, ids, id) || Blank(t[id]))
  {
    var ids := WithUnknown(start, canon, u.ids);
    var t := BlankOut(u.table, StaleRows(start, canon, ids));
    assert t.Keys == u.table.Keys;
    hide BySlug, BlankOut, StaleRows, WithUnknown, Upsertable, UpOk, Blank, Owns;
    forall id | id in t ensures id > 0 && (Owns(t, ids, id) || Blank(t[id])) {
      RowIsOwnOrBlank(start, canon, merged, u, id);
    }
  }

  lemma IsTidy(t: Table, merged: seq<Item>, ids: map<string, Ref>)
    requires forall s | s in BySlug(merged) :: BySlug(merged)[s].slug == s
    requires ids.Keys == BySlug(merged).Keys + {UNKNOWN}
    requires forall s | s in BySlug(merged) :: ids[s].id in t && t[ids[s].id] == Filled(BySlug(merged)[s], ids[s].uid)
    requires forall id | id in t :: id > 0 && (Owns(t, ids, id) || Blank(t[id]))
    requires UNKNOWN !in BySlug(merged) ==>
      ids[UNKNOWN].id in t && t[ids[UNKNOWN].id].slug == UNKNOWN && t[ids[UNKNOWN].id].uid == ids[UNKNOWN].uid
    ensures Tidy(t, merged, ids)
  {
    hide BySlug, Blank, Owns;
  }

  lemma BlankOutTidies(start: Table, canon: map<string, int>, merged: seq<Item>, u: Up)
    requires Upsertable(start, canon, merged) && UpOk(start, canon, BySlug(merged), u)
    requires forall s | s in BySlug(merged) :: BySlug(merged)[s].slug == s
    ensures var ids := WithUnknown(start, canon, u.ids);
      Tidy(BlankOut(u.table, StaleRows(start, canon, ids)), merged, ids)
  {
    var ids := WithUnknown(start, canon, u.ids);
    var t := BlankOut(u.table, StaleRows(start, canon, ids));
    hide BySlug, BlankOut, StaleRows, WithUnknown, Upsertable, UpOk, Blank, Owns, Filled, Tidy;
    AllListedAreSpared(start, canon, merged, u);
    AllRowsAreOwnOrBlank(start, canon, merged, u);
    if UNKNOWN !in BySlug(merged) {
      UnknownHasItsRow(start, canon, merged, u);
    }
    IsTidy(t, merged, ids);
  }

  lemma FilledIs(it: Item, uid: int)
    ensures Filled(it, uid).slug == it.slug && Filled(it, uid).uid == uid
  {
  }

  lemma OwnRowsAreLowest(start: Table, canon: map<string, int>, merged: seq<Item>, u: Up)
    requires Upsertable(start, canon, merged) && UpOk(start, canon, BySlug(merged), u)
    requires forall s | s in BySlug(merged) :: BySlug(merged)[s].slug == s
    ensures var ids := WithUnknown(start, canon, u.ids);
      LowestOwn(BlankOut(u.table, StaleRows(start, canon, ids)), ids)
  {
    var ids := WithUnknown(start, canon, u.ids);
    var t := BlankOut(u.table, StaleRows(start, canon, ids));
    hide BySlug, StaleRows;
    forall id | id in t && t[id].slug in ids ensures ids[t[id].slug].id <= id {
      var s := t[id].slug;
      if id in start && s in BySlug(merged) {
        assert RefOk(start, canon, u, BySlug(merged)[s]);
        assert s == start[id].slug;
      }
    }
  }

  /** `upsert_pools` leaves the table in line with the list, and new pools in their bands while these have room. */
  lemma UpsertTidies(start: Table, canon: map<string, int>, merged: seq<Item>, firstUid: int, auto: Table -> int)
    requires Upsertable(start, canon, merged) && AutoIds(auto)
    ensures var u := Upsert(start, canon, merged, firstUid, auto);
      && Tidy(u.table, merged, u.ids) && LowestOwn(u.table, u.ids)
      && (forall id | id in start :: id in u.table)
      && (forall s | s in BySlug(merged) && s !in canon && !u.full :: InBand(u.ids[s].id, BySlug(merged)[s].prio))
      && (forall s | s in u.ids && s in canon :: u.ids[s].id == canon[s])
  {
    UpsertAllIs(start, canon, merged, firstUid, auto);
    SeenOnce(merged);
    var u := UpsertAll(start, canon, merged, firstUid, auto);
    BlankOutTidies(start, canon, merged, u);
    OwnRowsAreLowest(start, canon, merged, u);
    IdsAreWhereTheyWere(start, canon, merged, u);
    RowsStay(start, canon, merged, u);
    hide Tidy, LowestOwn, UpsertAll, UpOk, Upsertable, BySlug, BlankOut, StaleRows, WithUnknown, AutoIds, InBand;
  }

  lemma RowsStay(start: Table, canon: map<string, int>, merged: seq<Item>, u: Up)
    requires Upsertable(start, canon, merged) && UpOk(start, canon, BySlug(merged), u)
    ensures forall id | id in start :: id in BlankOut(u.table, StaleRows(start, canon, WithUnknown(start, canon, u.ids)))
  {
    hide BySlug, StaleRows, RefOk;
    forall id | id in start ensures id in u.table { assert id in start.Keys; }
  }

  lemma IdsAreWhereTheyWere(start: Table, canon: map<string, int>, merged: seq<Item>, u: Up)
    requires Upsertable(start, canon, merged) && UpOk(start, canon, BySlug(merged), u)
    requires forall s | s in BySlug(merged) :: BySlug(merged)[s].slug == s
    ensures var ids := WithUnknown(start, canon, u.ids);
      && (forall s | s in BySlug(merged) && s !in canon && !u.full :: s in ids && InBand(ids[s].id, BySlug(merged)[s].prio))
      && (forall s | s in ids && s in canon :: ids[s].id == canon[s])
  {
    forall s | s in BySlug(merged) ensures RefOk(start, canon, u, BySlug(merged)[s]) {}
    hide BySlug, InBand, Filled;
  }
}
