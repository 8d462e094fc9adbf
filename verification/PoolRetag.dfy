/** `retag`: blocks attributed again by the merged list, and how that agrees with the backend. */
module PoolRetag {
  import opened Prelude
  import opened PoolTable
  import opened PoolRenumber
  import opened PoolSync
  import opened Rekey

  const START_HEIGHT := 961640

  /** A row of `blocks`: the payout addresses and the text of its coinbase, and its pool. */
  datatype Block = Block(addresses: seq<string>, text: string, poolId: int)

  /** Height and hash. */
  type BlockKey = (int, string)
  type Blocks = map<BlockKey, Block>

  /** `UPDATE blocks SET pool_id = CASE pool_id ...` */
  function BlocksAfter(blocks: Blocks, moves: map<int, int>): Blocks {
    map key | key in blocks :: blocks[key].(poolId := NewKey(moves, blocks[key].poolId))
  }

  /** Whether a tag's expression is found in a text. */
  type Search = (string, string) -> bool

  predicate Shared(xs: seq<string>, ys: seq<string>) { exists x <- xs :: x in ys }

  predicate Hits(b: Block, search: Search, addresses: seq<string>, tags: seq<string>) {
    Shared(b.addresses, addresses) || exists t <- tags :: search(t, b.text)
  }

  function MatcherOf(b: Block, search: Search): Matcher {
    (addresses, tags) => Hits(b, search, addresses, tags)
  }

  /** The first pool from number `from` on that matches. */
  function FirstHit(merged: seq<Item>, hit: Matcher, from: nat): Option<nat>
    requires from <= |merged|
    decreases |merged| - from
  {
    if from == |merged| then None
    else if ItemHits(merged[from], hit) then Some(from)
    else FirstHit(merged, hit, from + 1)
  }

  function TagId(merged: seq<Item>, ids: map<string, Ref>, hit: Matcher): int
    requires HaveIds(merged, ids)
  {
    match FirstHit(merged, hit, 0)
    case Some(i) => if i < |merged| then ids[merged[i].slug].id else 0
    case None => ids[UNKNOWN].id
  }

  predicate InReach(key: BlockKey) { key.0 >= START_HEIGHT }

  function Tagged(merged: seq<Item>, ids: map<string, Ref>, search: Search, key: BlockKey, b: Block): Block
    requires HaveIds(merged, ids)
  {
    if InReach(key) then b.(poolId := TagId(merged, ids, MatcherOf(b, search))) else b
  }

  function Retagged(merged: seq<Item>, ids: map<string, Ref>, search: Search, blocks: Blocks): Blocks
    requires HaveIds(merged, ids)
  {
    map key | key in blocks :: Tagged(merged, ids, search, key, blocks[key])
  }

  /** The rows `retag` writes. */
  function Wrong(merged: seq<Item>, ids: map<string, Ref>, search: Search, blocks: Blocks): set<BlockKey>
    requires HaveIds(merged, ids)
  {
    set key | key in blocks && Tagged(merged, ids, search, key, blocks[key]) != blocks[key]
  }

  lemma {:induction false} FirstHitIs(merged: seq<Item>, hit: Matcher, from: nat)
    requires from <= |merged| && forall j | 0 <= j < from :: !ItemHits(merged[j], hit)
    ensures match FirstHit(merged, hit, from)
      case Some(i) => FirstMerged(merged, hit, i)
      case None => forall j | 0 <= j < |merged| :: !ItemHits(merged[j], hit)
    decreases |merged| - from
  {
    if from < |merged| && !ItemHits(merged[from], hit) {
      FirstHitIs(merged, hit, from + 1);
    }
  }

  lemma NoMatcherNoHit(b: Block, search: Search)
    ensures Proper(MatcherOf(b, search))
  {
  }

  /** A second `retag` with the same list and ids writes no row. */
  lemma SecondRetagIsIdle(merged: seq<Item>, ids: map<string, Ref>, search: Search, blocks: Blocks)
    requires HaveIds(merged, ids)
    ensures Wrong(merged, ids, search, Retagged(merged, ids, search, blocks)) == {}
    ensures Retagged(merged, ids, search, Retagged(merged, ids, search, blocks)) == Retagged(merged, ids, search, blocks)
  {
    forall key | key in blocks
      ensures var b := Tagged(merged, ids, search, key, blocks[key]); Tagged(merged, ids, search, key, b) == b
    {
      var b := Tagged(merged, ids, search, key, blocks[key]);
      SameMatcher(merged, blocks[key], b, search, 0);
    }
  }

  lemma {:induction false} SameMatcher(merged: seq<Item>, a: Block, b: Block, search: Search, from: nat)
    requires from <= |merged| && a.addresses == b.addresses && a.text == b.text
    ensures FirstHit(merged, MatcherOf(a, search), from) == FirstHit(merged, MatcherOf(b, search), from)
    decreases |merged| - from
  {
    if from < |merged| {
      SameMatcher(merged, a, b, search, from + 1);
    }
  }

  /** The row whose id `retag` gives a block, in the band of `prio`. */
  ghost predicate IsPoolOfBand(merged: seq<Item>, ids: map<string, Ref>, id: int, band: nat)
    requires HaveIds(merged, ids)
  {
    exists j :: 0 <= j < |merged| && ids[merged[j].slug].id == id && Band(merged[j].prio) == band
  }

  /** The list's first match is the Unknown pool, and another pool matches as well. */
  ghost predicate UnknownShadows(merged: seq<Item>, hit: Matcher) {
    match FirstHit(merged, hit, 0)
    case Some(i) => i < |merged| && merged[i].slug == UNKNOWN && !OnlyHit(merged, hit, i)
    case None => false
  }

  /**
    What the backend names on arrival, scanning the pools in id order, and what `retag` names later
    are of one band, or both the Unknown pool; after a renumbering they are one pool, so that `retag`
    has nothing to do: for every block but one where a matcher of a listed Unknown pool goes before
    another's.
   */
  lemma BackendTagStands(t: Table, merged: seq<Item>, ids: map<string, Ref>, b: Block, search: Search, id: int)
    requires Tidy(t, merged, ids) && DistinctSlugs(merged) && ByBand(merged) && HaveIds(merged, ids)
    requires !Stray(t, merged, ids) && FirstById(t, MatcherOf(b, search), id)
    ensures
      var hit := MatcherOf(b, search);
      var tag := TagId(merged, ids, hit);
      || (tag == ids[UNKNOWN].id && (id == tag <==> !UnknownShadows(merged, hit)))
      || exists band :: IsPoolOfBand(merged, ids, tag, band) && IsPoolOfBand(merged, ids, id, band)
    ensures IdsRise(merged, ids) ==> (TagId(merged, ids, MatcherOf(b, search)) == id <==> !UnknownShadows(merged, MatcherOf(b, search)))
  {
    var hit := MatcherOf(b, search);
    NoMatcherNoHit(b, search);
    FirstHitIs(merged, hit, 0);
    hide Tidy, DistinctSlugs, ByBand, HaveIds, Stray, FirstById, IdsRise, FirstHit, FirstMerged, OnlyHit, MatcherOf, Hits, Proper;
    if FirstHit(merged, hit, 0).None? {
      NoMatchIsUnknown(t, merged, ids, hit, id);
    } else {
      BackendAgrees(t, merged, ids, hit, FirstHit(merged, hit, 0).value, id);
    }
  }

  lemma BackendAgrees(t: Table, merged: seq<Item>, ids: map<string, Ref>, hit: Matcher, i: nat, id: int)
    requires Tidy(t, merged, ids) && DistinctSlugs(merged) && ByBand(merged) && HaveIds(merged, ids)
    requires !Stray(t, merged, ids) && Proper(hit) && FirstById(t, hit, id) && FirstMerged(merged, hit, i)
    requires FirstHit(merged, hit, 0) == Some(i)
    ensures i < |merged|
    ensures
      var tag := TagId(merged, ids, hit);
      || (tag == ids[UNKNOWN].id && (id == tag <==> !UnknownShadows(merged, hit)))
      || exists band :: IsPoolOfBand(merged, ids, tag, band) && IsPoolOfBand(merged, ids, id, band)
    ensures IdsRise(merged, ids) ==> (TagId(merged, ids, hit) == id <==> !UnknownShadows(merged, hit))
  {
    IdOrderAgreesWithPriority(t, merged, ids, hit, i, id);
    assert i < |merged|;
    hide Tidy, DistinctSlugs, ByBand, HaveIds, Stray, FirstById, IdsRise, FirstHit, FirstMerged, OnlyHit, Proper, ItemHits;
    if merged[i].slug != UNKNOWN {
      var j :| 0 <= j < |merged| && ids[merged[j].slug].id == id && Band(merged[j].prio) == Band(merged[i].prio)
               && (IdsRise(merged, ids) ==> j == i);
      assert IsPoolOfBand(merged, ids, id, Band(merged[i].prio));
      assert IsPoolOfBand(merged, ids, ids[merged[i].slug].id, Band(merged[i].prio));
    }
  }
}
