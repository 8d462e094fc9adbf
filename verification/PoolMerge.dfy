/** `merge`: one pool list out of three sources, in match priority. */
module PoolMerge {
  import opened Prelude
  import opened PoolTable
  import opened PoolSync

  // ---------------------------------------------------------------------------------------
  // Names

  function AlphaNumeric(s: string): string {
    if s == "" then "" else (if 'a' <= s[0] <= 'z' || '0' <= s[0] <= '9' then [s[0]] else "") + AlphaNumeric(s[1..])
  }

  function Slugify(name: string): string { AlphaNumeric(Lower(name)) }

  /** White space, as far as ASCII goes. */
  predicate IsBlankChar(c: char) { 9 <= c as int <= 13 || 28 <= c as int <= 32 }

  function StripLeft(s: string): string { if s != "" && IsBlankChar(s[0]) then StripLeft(s[1..]) else s }

  function StripRight(s: string): string {
    if s != "" && IsBlankChar(s[|s| - 1]) then StripRight(s[..|s| - 1]) else s
  }

  function Strip(s: string): string { StripRight(StripLeft(s)) }

  predicate StartsSolo(name: string) { "solo " <= Lower(name) }

  // ---------------------------------------------------------------------------------------
  // Gathering

  /** One definition of a pool, as a source gives it. */
  datatype Source = Source(
    name: string, link: string, addresses: seq<string>, tags: seq<string>, replace: bool, rename: bool, pool: bool)

  datatype Gathered = Gathered(pools: map<string, Entry>, order: seq<string>)

  /** `xs`, and then those of `ys` that are new and not empty. */
  function AppendNew(xs: seq<string>, ys: seq<string>): seq<string>
    decreases |ys|
  {
    if ys == [] then xs
    else
      var front := AppendNew(xs, ys[..|ys| - 1]);
      var y := ys[|ys| - 1];
      if y != "" && y !in front then front + [y] else front
  }

  /** The entry a definition adds to: a fresh one, the one there is, or that one renamed. */
  function Base(g: Gathered, s: Source): Entry {
    var slug := Slugify(s.name);
    if slug !in g.pools || s.replace then Entry(Strip(s.name), s.link, [], [])
    else if s.rename then g.pools[slug].(name := Strip(s.name))
    else g.pools[slug]
  }

  function Extended(e: Entry, s: Source): Entry {
    Entry(e.name, if s.link != "" && e.link == "" then s.link else e.link,
          AppendNew(e.addresses, s.addresses), AppendNew(e.tags, s.tags))
  }

  function AddOne(g: Gathered, s: Source): Gathered {
    var slug := Slugify(s.name);
    if slug == "" then g
    else Gathered(g.pools[slug := Extended(Base(g, s), s)], if slug in g.pools then g.order else g.order + [slug])
  }

  function Gather(sources: seq<Source>): Gathered {
    if sources == [] then Gathered(map[], [])
    else AddOne(Gather(sources[..|sources| - 1]), sources[|sources| - 1])
  }

  const EXAMPLE_LINK := "https://example.com"

  function FromKilombino(s: Source): Source { s.(replace := false, rename := false) }

  function FromGuide(s: Source): Source {
    s.(replace := false, rename := true, link := if s.link == EXAMPLE_LINK then "" else s.link)
  }

  function FromOverride(s: Source): Source { s.(rename := false) }

  class Gatherer {
    var pools: map<string, Entry>
    var order: seq<string>

    ghost function View(): Gathered
      reads this
    {
      Gathered(pools, order)
    }

    constructor ()
      ensures View() == Gather([])
    {
      pools, order := map[], [];
    }

    method Append(xs: seq<string>, ys: seq<string>) returns (all: seq<string>)
      ensures all == AppendNew(xs, ys)
    {
      all := xs;
      for i := 0 to |ys|
        invariant all == AppendNew(xs, ys[..i])
      {
        assert ys[..i + 1][..i] == ys[..i];
        if ys[i] != "" && ys[i] !in all {
          all := all + [ys[i]];
        }
      }
      assert ys[..|ys|] == ys;
    }

    method Add(s: Source)
      modifies this
      ensures View() == AddOne(old(View()), s)
    {
      var slug := Slugify(s.name);
      if slug == "" {
        return;
      }
      var known := slug in pools;
      if !known || s.replace {
        if !known {
          order := order + [slug];
        }
        pools := pools[slug := Entry(Strip(s.name), s.link, [], [])];
      } else if s.rename {
        pools := pools[slug := pools[slug].(name := Strip(s.name))];
      }
      var e := pools[slug];
      if s.link != "" && e.link == "" {
        e := e.(link := s.link);
      }
      var addresses := Append(e.addresses, s.addresses);
      var tags := Append(e.tags, s.tags);
      pools := pools[slug := Entry(e.name, e.link, addresses, tags)];
    }

    method AddAll(ghost before: seq<Source>, sources: seq<Source>)
      requires View() == Gather(before)
      modifies this
      ensures View() == Gather(before + sources)
    {
      hide AddOne;
      assert before + sources[..0] == before;
      for i := 0 to |sources|
        invariant View() == Gather(before + sources[..i])
      {
        assert (before + sources[..i + 1])[..|before| + i] == before + sources[..i];
        Add(sources[i]);
      }
      assert sources[..|sources|] == sources;
    }
  }

  /** Every pool is in the order once. */
  ghost predicate OrderOk(g: Gathered) {
    && (forall i, j | 0 <= i < j < |g.order| :: g.order[i] != g.order[j])
    && (forall s :: s in g.order <==> s in g.pools)
    && "" !in g.pools
  }

  lemma {:induction false} GatherKeepsOrder(sources: seq<Source>)
    ensures OrderOk(Gather(sources))
  {
    if sources != [] {
      GatherKeepsOrder(sources[..|sources| - 1]);
    }
  }

  function AddressesOf(s: Source): seq<string> { s.addresses }

  function TagsOf(s: Source): seq<string> { s.tags }

  /** What the sources give a pool: everything since the last definition that replaces it. */
  ghost function Given(sources: seq<Source>, slug: string, f: Source -> seq<string>): seq<string> {
    if sources == [] then []
    else
      var s := sources[|sources| - 1];
      if Slugify(s.name) != slug then Given(sources[..|sources| - 1], slug, f)
      else if s.replace then f(s)
      else Given(sources[..|sources| - 1], slug, f) + f(s)
  }

  lemma {:induction false} AppendsJoin(xs: seq<string>, ys: seq<string>, zs: seq<string>)
    ensures AppendNew(AppendNew(xs, ys), zs) == AppendNew(xs, ys + zs)
    decreases |zs|
  {
    if zs == [] {
      assert ys + zs == ys;
    } else {
      assert (ys + zs)[..|ys + zs| - 1] == ys + zs[..|zs| - 1];
      AppendsJoin(xs, ys, zs[..|zs| - 1]);
    }
  }

  /** The definitions of a pool that count: from the last one that replaces it on. */
  function Since(sources: seq<Source>, slug: string): seq<Source> {
    if sources == [] then []
    else
      var s := sources[|sources| - 1];
      if Slugify(s.name) != slug then Since(sources[..|sources| - 1], slug)
      else if s.replace then [s]
      else Since(sources[..|sources| - 1], slug) + [s]
  }

  /** The name of the last definition that renames the pool, or else of the first. */
  ghost predicate IsNameOf(defs: seq<Source>, name: string) {
    exists i :: 0 <= i < |defs| && name == Strip(defs[i].name) && (i == 0 || defs[i].rename) && forall j | i < j < |defs| :: !defs[j].rename
  }

  /** The first link there is. */
  ghost predicate IsLinkOf(defs: seq<Source>, link: string) {
    || (link == "" && forall i | 0 <= i < |defs| :: defs[i].link == "")
    || exists i :: 0 <= i < |defs| && defs[i].link == link && link != "" && forall j | 0 <= j < i :: defs[j].link == ""
  }

  lemma OneMoreDefinition(defs: seq<Source>, e: Entry, s: Source)
    requires IsNameOf(defs, e.name) && IsLinkOf(defs, e.link)
    ensures IsNameOf(defs + [s], if s.rename then Strip(s.name) else e.name)
    ensures IsLinkOf(defs + [s], if s.link != "" && e.link == "" then s.link else e.link)
  {
    hide Strip;
    NameAfter(defs, e.name, s);
    LinkAfter(defs, e.link, s);
    hide IsNameOf, IsLinkOf;
  }

  lemma NameAfter(defs: seq<Source>, name: string, s: Source)
    requires IsNameOf(defs, name)
    ensures IsNameOf(defs + [s], if s.rename then Strip(s.name) else name)
  {
    hide Strip;
    var more := defs + [s];
    var i :| 0 <= i < |defs| && name == Strip(defs[i].name) && (i == 0 || defs[i].rename) && forall j | i < j < |defs| :: !defs[j].rename;
    assert more[i] == defs[i] && more[|defs|] == s;
  }

  lemma LinkAfter(defs: seq<Source>, link: string, s: Source)
    requires IsLinkOf(defs, link)
    ensures IsLinkOf(defs + [s], if s.link != "" && link == "" then s.link else link)
  {
    var more := defs + [s];
    assert more[|defs|] == s && forall i | 0 <= i < |defs| :: more[i] == defs[i];
    if link != "" {
      var i :| 0 <= i < |defs| && defs[i].link == link && link != "" && forall j | 0 <= j < i :: defs[j].link == "";
      assert more[i].link == link;
    }
  }

  lemma OneDefinition(s: Source)
    ensures IsNameOf([s], Strip(s.name)) && IsLinkOf([s], s.link)
  {
    assert [s][0] == s;
  }

  lemma {:induction false} NameAndLinkAre(sources: seq<Source>, slug: string)
    requires slug != ""
    ensures slug in Gather(sources).pools <==> Since(sources, slug) != []
    ensures slug in Gather(sources).pools ==>
      && IsNameOf(Since(sources, slug), Gather(sources).pools[slug].name)
      && IsLinkOf(Since(sources, slug), Gather(sources).pools[slug].link)
  {
    if sources != [] {
      var before, last := sources[..|sources| - 1], sources[|sources| - 1];
      NameAndLinkAre(before, slug);
      hide Strip, IsNameOf, IsLinkOf, AppendNew;
      if Slugify(last.name) == slug {
        OneDefinition(last);
        assert [] + [last] == [last];
        if slug in Gather(before).pools && !last.replace {
          OneMoreDefinition(Since(before, slug), Gather(before).pools[slug], last);
        }
      }
    }
  }

  /**
    A pool is known exactly when some source names it. Of the definitions from the last replacing one
    on, its name is that of the last renaming one or else of the first, its link the first there is,
    and its matchers all that they give, each once.
   */
  lemma {:induction false} GatherIs(sources: seq<Source>, slug: string)
    requires slug != ""
    ensures slug in Gather(sources).pools <==> exists s :: s in sources && Slugify(s.name) == slug
    ensures slug in Gather(sources).pools ==>
      && Gather(sources).pools[slug].addresses == AppendNew([], Given(sources, slug, AddressesOf))
      && Gather(sources).pools[slug].tags == AppendNew([], Given(sources, slug, TagsOf))
    ensures slug in Gather(sources).pools ==>
      && IsNameOf(Since(sources, slug), Gather(sources).pools[slug].name)
      && IsLinkOf(Since(sources, slug), Gather(sources).pools[slug].link)
    ensures slug !in Gather(sources).pools ==> Given(sources, slug, AddressesOf) == [] == Given(sources, slug, TagsOf)
  {
    NameAndLinkAre(sources, slug);
    hide IsNameOf, IsLinkOf;
    if sources != [] {
      var before, last := sources[..|sources| - 1], sources[|sources| - 1];
      GatherIs(before, slug);
      assert forall s :: s in sources <==> s in before || s == last;
      if Slugify(last.name) == slug {
        AppendsJoin([], Given(before, slug, AddressesOf), last.addresses);
        AppendsJoin([], Given(before, slug, TagsOf), last.tags);
      }
    }
  }

  /** The elements are those given, without the empty string, in the order they first come. */
  lemma {:induction false} AppendNewHas(ys: seq<string>)
    ensures forall y :: y in AppendNew([], ys) <==> y in ys && y != ""
    ensures forall i, j | 0 <= i < j < |AppendNew([], ys)| :: AppendNew([], ys)[i] != AppendNew([], ys)[j]
    decreases |ys|
  {
    if ys != [] {
      AppendNewHas(ys[..|ys| - 1]);
      assert ys == ys[..|ys| - 1] + [ys[|ys| - 1]];
    }
  }

  // ---------------------------------------------------------------------------------------
  // Ordering

  const SOLO := "lazarussolo"
  const LAZARUS := "lazarus"

  function Prio(slug: string, e: Entry, shared: set<string>, generic: set<string>): nat {
    if slug == SOLO || slug == LAZARUS then 0
    else if slug in shared then 1
    else if slug in generic then 5
    else if e.tags != [] then 2
    else if StartsSolo(e.name) then 4
    else 3
  }

  function Within(slug: string): nat {
    if slug == SOLO || slug == "datumminers" then 0
    else if slug == LAZARUS || slug == "datumuser" then 1
    else 2
  }

  /** A pool with its place in the gathered order. */
  datatype Placed = Placed(item: Item, pos: nat)

  predicate Before(a: Placed, b: Placed) {
    || a.item.prio < b.item.prio
    || (a.item.prio == b.item.prio
        && (Within(a.item.slug) < Within(b.item.slug)
            || (Within(a.item.slug) == Within(b.item.slug) && a.pos < b.pos)))
  }

  ghost predicate InOrder(ps: seq<Placed>) {
    forall i, j | 0 <= i < j < |ps| :: Before(ps[i], ps[j])
  }

  ghost predicate DistinctPlaces(ps: seq<Placed>) {
    forall i, j | 0 <= i < j < |ps| :: ps[i].pos != ps[j].pos
  }

  lemma {:induction false} InsertKeepsOrder(ps: seq<Placed>, k: nat, p: Placed)
    requires InOrder(ps) && k <= |ps|
    requires (forall i | 0 <= i < k :: Before(ps[i], p)) && forall i | k <= i < |ps| :: Before(p, ps[i])
    ensures InOrder(ps[..k] + [p] + ps[k..])
  {
  }

  method Insert(ps: seq<Placed>, p: Placed) returns (all: seq<Placed>)
    requires InOrder(ps) && forall q <- ps :: q.pos != p.pos
    ensures InOrder(all) && forall q :: q in all <==> q in ps || q == p
    ensures |all| == |ps| + 1
  {
    var k := 0;
    while k < |ps| && Before(ps[k], p)
      invariant k <= |ps| && forall i | 0 <= i < k :: Before(ps[i], p)
    {
      k := k + 1;
    }
    forall i | k <= i < |ps| ensures Before(p, ps[i]) {
      assert ps[k].pos != p.pos;
      assert i == k || Before(ps[k], ps[i]);
    }
    InsertKeepsOrder(ps, k, p);
    all := ps[..k] + [p] + ps[k..];
    assert ps == ps[..k] + ps[k..];
  }

  /** `ordered.sort(key=...)` */
  method Sorted(ps: seq<Placed>) returns (sorted: seq<Placed>)
    requires DistinctPlaces(ps)
    ensures InOrder(sorted) && |sorted| == |ps| && forall q :: q in sorted <==> q in ps
  {
    sorted := [];
    for i := 0 to |ps|
      invariant InOrder(sorted) && |sorted| == i && forall q :: q in sorted <==> q in ps[..i]
    {
      assert ps[..i + 1] == ps[..i] + [ps[i]];
      sorted := Insert(sorted, ps[i]);
    }
    assert ps[..|ps|] == ps;
  }

  // ---------------------------------------------------------------------------------------
  // The merged list

  /** The override file. */
  datatype Overrides = Overrides(pools: seq<Source>, drop: seq<string>, generic: set<string>)

  ghost function Shared(pools: seq<Source>): set<string> {
    set s | s in pools && s.pool :: Slugify(s.name)
  }

  function Converted(sources: seq<Source>, f: Source -> Source): seq<Source> {
    seq(|sources|, i requires 0 <= i < |sources| => f(sources[i]))
  }

  function AllSources(kilombino: seq<Source>, guide: seq<Source>, ov: Overrides): seq<Source> {
    Converted(kilombino, FromKilombino) + Converted(guide, FromGuide) + Converted(ov.pools, FromOverride)
  }

  /** The pools that are left once the dropped ones are gone, each once, in priority order. */
  ghost predicate IsMerged(g: Gathered, ov: Overrides, merged: seq<Item>) {
    && (forall s :: (exists i :: 0 <= i < |merged| && merged[i].slug == s) <==> s in g.pools && s !in ov.drop)
    && (forall i | 0 <= i < |merged| :: merged[i].slug in g.pools && merged[i].entry == g.pools[merged[i].slug]
          && merged[i].prio == Prio(merged[i].slug, merged[i].entry, Shared(ov.pools), ov.generic))
    && DistinctSlugs(merged)
    && (forall i, j | 0 <= i < j < |merged| :: Precedes(g.order, merged[i], merged[j]))
  }

  /** Lower priority first, then the more specific of the named few, then the gathered order. */
  ghost predicate Precedes(order: seq<string>, a: Item, b: Item) {
    || a.prio < b.prio
    || (a.prio == b.prio && Within(a.slug) < Within(b.slug))
    || (a.prio == b.prio && Within(a.slug) == Within(b.slug) && Follows(order, a.slug, b.slug))
  }

  /** `b` comes somewhere after `a`. */
  ghost predicate Follows(order: seq<string>, a: string, b: string) {
    exists p, q :: 0 <= p < q < |order| && order[p] == a && order[q] == b
  }

  /** The list the rest of the script works on: what `PoolSync` asks of it holds. */
  lemma MergedIsByBand(g: Gathered, ov: Overrides, merged: seq<Item>)
    requires IsMerged(g, ov, merged)
    ensures DistinctSlugs(merged) && ByBand(merged)
    ensures forall s | s in ov.drop :: s !in BySlug(merged)
  {
    forall i, j | 0 <= i < j < |merged| ensures Band(merged[i].prio) <= Band(merged[j].prio) {
      assert Precedes(g.order, merged[i], merged[j]);
    }
    SeenOnce(merged);
  }

  /** A block found by a Lazarus solo miner is not given to the pool: the narrower matcher comes first of all. */
  lemma SoloComesFirst(g: Gathered, ov: Overrides, merged: seq<Item>, i: nat, j: nat)
    requires IsMerged(g, ov, merged) && i < |merged| && j < |merged|
    ensures merged[i].slug == SOLO ==> i == 0
    ensures merged[i].slug == LAZARUS && merged[j].slug != SOLO && merged[j].slug != LAZARUS ==> i < j
  {
    assert i > 0 ==> Precedes(g.order, merged[0], merged[i]);
    if j < i {
      assert Precedes(g.order, merged[j], merged[i]);
    }
  }

  /** The overrides say that the pool's blocks also pay its members. */
  ghost predicate FlaggedPool(ov: Overrides, slug: string) {
    exists p :: p in ov.pools && p.pool && Slugify(p.name) == slug
  }

  predicate IsLazarus(slug: string) { slug == "lazarussolo" || slug == "lazarus" }

  predicate CalledSolo(e: Entry) { StartsWith(Lower(e.name), "solo ") }

  /** One pool comes before another for what it is. */
  ghost predicate GoesBefore(ov: Overrides, a: string, d: Entry, b: string, e: Entry) {
    if IsLazarus(a) || IsLazarus(b) then (a == "lazarussolo" && b != a) || (a == "lazarus" && !IsLazarus(b))
    else if FlaggedPool(ov, a) || FlaggedPool(ov, b) then !FlaggedPool(ov, b)
    else if a in ov.generic || b in ov.generic then a !in ov.generic
    else if d.tags != [] || e.tags != [] then e.tags == []
    else !CalledSolo(d) && CalledSolo(e)
  }

  /** Neither does, and one is named before the other, or else found first in the sources. */
  ghost predicate NamedBefore(order: seq<string>, a: string, b: string) {
    if a == "datumminers" || b == "datumminers" then a == "datumminers" && a != b
    else if a == "datumuser" || b == "datumuser" then a == "datumuser" && a != b
    else Follows(order, a, b)
  }

  lemma SharedAreFlagged(ov: Overrides, slug: string)
    ensures slug in Shared(ov.pools) <==> FlaggedPool(ov, slug)
  {
  }

  /**
    The place of every pool on the list, from what the sources and the overrides say of it. First the
    two Lazarus entries, the narrower one before the other; then the pools flagged as such; the generic
    ones last; of all others those with tags before those without, and of these the ones called "solo
    ..." after the rest. Within each of these groups DATUM miners first, then DATUM User, then the order
    in which they were found.
   */
  lemma PlacesInMerged(g: Gathered, ov: Overrides, merged: seq<Item>, i: nat, j: nat)
    requires IsMerged(g, ov, merged) && i < |merged| && j < |merged| && i != j
    ensures var a, b := merged[i].slug, merged[j].slug;
      && a in g.pools && b in g.pools && a != b
      && (GoesBefore(ov, a, g.pools[a], b, g.pools[b]) ==> i < j)
      && (!GoesBefore(ov, a, g.pools[a], b, g.pools[b]) && !GoesBefore(ov, b, g.pools[b], a, g.pools[a]) ==>
            NamedBefore(g.order, if i < j then a else b, if i < j then b else a))
  {
    var a, b := merged[i].slug, merged[j].slug;
    SharedAreFlagged(ov, a);
    SharedAreFlagged(ov, b);
    hide FlaggedPool, Shared, Follows, Lower;
    assert if i < j then Precedes(g.order, merged[i], merged[j]) else Precedes(g.order, merged[j], merged[i]);
  }

  /** So for any two pools left on the list what they are, their names and the sources decide which is first. */
  lemma OneComesFirst(g: Gathered, ov: Overrides, merged: seq<Item>, i: nat, j: nat)
    requires IsMerged(g, ov, merged) && i < j < |merged|
    ensures var a, b := merged[i].slug, merged[j].slug;
      && a in g.pools && b in g.pools && !GoesBefore(ov, b, g.pools[b], a, g.pools[a])
      && (GoesBefore(ov, a, g.pools[a], b, g.pools[b]) || NamedBefore(g.order, a, b))
  {
    PlacesInMerged(g, ov, merged, i, j);
    PlacesInMerged(g, ov, merged, j, i);
    hide *;
  }

  /** `ordered`: the pools that were not dropped, in the gathered order. */
  function Kept(order: seq<string>, drop: seq<string>): seq<string> {
    if order == [] then []
    else
      var front := Kept(order[..|order| - 1], drop);
      if order[|order| - 1] in drop then front else front + [order[|order| - 1]]
  }

  lemma FollowsInMore(order: seq<string>, n: nat, a: string, b: string)
    requires n <= |order| && Follows(order[..n], a, b)
    ensures Follows(order, a, b)
  {
    var p, q :| 0 <= p < q < |order[..n]| && order[..n][p] == a && order[..n][q] == b;
    assert order[p] == a && order[q] == b;
  }

  lemma LastFollows(order: seq<string>, n: nat, a: string)
    requires n < |order| && a in order[..n]
    ensures Follows(order, a, order[n])
  {
    var p :| 0 <= p < n && order[..n][p] == a;
    assert order[p] == a;
  }

  lemma {:induction false} KeptKeepsOrder(order: seq<string>, drop: seq<string>)
    ensures forall s :: s in Kept(order, drop) <==> s in order && s !in drop
    ensures forall p, q | 0 <= p < q < |Kept(order, drop)| :: Follows(order, Kept(order, drop)[p], Kept(order, drop)[q])
  {
    if order != [] {
      var n := |order| - 1;
      var front := Kept(order[..n], drop);
      KeptKeepsOrder(order[..n], drop);
      assert order == order[..n] + [order[n]];
      hide Follows;
      forall p, q | 0 <= p < q < |Kept(order, drop)| ensures Follows(order, Kept(order, drop)[p], Kept(order, drop)[q]) {
        assert front[p] in order[..n];
        if q < |front| {
          FollowsInMore(order, n, front[p], front[q]);
        } else {
          LastFollows(order, n, front[p]);
        }
      }
    }
  }

  /** The pools in `ordered`, as they are given to the sort. */
  ghost predicate PlacedAre(g: Gathered, ov: Overrides, ps: seq<Placed>) {
    var kept := Kept(g.order, ov.drop);
    |ps| == |kept| && forall i | 0 <= i < |ps| ::
      && kept[i] in g.pools && ps[i].pos == i
      && ps[i].item == Item(kept[i], g.pools[kept[i]], Prio(kept[i], g.pools[kept[i]], Shared(ov.pools), ov.generic))
  }

  lemma SortedIsMerged(g: Gathered, ov: Overrides, ps: seq<Placed>, sorted: seq<Placed>, merged: seq<Item>)
    requires OrderOk(g) && PlacedAre(g, ov, ps)
    requires InOrder(sorted) && forall q :: q in sorted <==> q in ps
    requires |merged| == |sorted| && forall i | 0 <= i < |merged| :: merged[i] == sorted[i].item
    ensures IsMerged(g, ov, merged)
  {
    var kept := Kept(g.order, ov.drop);
    KeptKeepsOrder(g.order, ov.drop);
    hide Kept, Prio, Shared;
    forall i | 0 <= i < |sorted|
      ensures sorted[i].pos < |ps| && sorted[i] == ps[sorted[i].pos] && merged[i].slug == kept[sorted[i].pos]
    {
      assert sorted[i] in sorted;
    }
    forall s | s in kept ensures exists i :: 0 <= i < |merged| && merged[i].slug == s {
      var p :| 0 <= p < |kept| && kept[p] == s;
      assert ps[p] in ps && ps[p] in sorted;
      var i :| 0 <= i < |sorted| && sorted[i] == ps[p];
      assert merged[i].slug == s;
    }
    forall i, j | 0 <= i < j < |merged| ensures merged[i].slug != merged[j].slug && Precedes(g.order, merged[i], merged[j]) {
      assert Before(sorted[i], sorted[j]);
    }
  }

  method GatherAll(kilombino: seq<Source>, guide: seq<Source>, overrides: seq<Source>) returns (gatherer: Gatherer)
    ensures fresh(gatherer)
    ensures gatherer.View() == Gather(Converted(kilombino, FromKilombino) + Converted(guide, FromGuide)
                                      + Converted(overrides, FromOverride))
  {
    hide Gather;
    gatherer := new Gatherer();
    gatherer.AddAll([], Converted(kilombino, FromKilombino));
    gatherer.AddAll([] + Converted(kilombino, FromKilombino), Converted(guide, FromGuide));
    gatherer.AddAll([] + Converted(kilombino, FromKilombino) + Converted(guide, FromGuide), Converted(overrides, FromOverride));
    assert [] + Converted(kilombino, FromKilombino) == Converted(kilombino, FromKilombino);
  }

  /** `pools.pop(slug, None)` for each slug to drop. */
  method DropAll(pools: map<string, Entry>, drop: seq<string>) returns (left: map<string, Entry>)
    ensures forall s :: s in left <==> s in pools && s !in drop
    ensures forall s | s in left :: left[s] == pools[s]
  {
    left := pools;
    for i := 0 to |drop|
      invariant forall s :: s in left <==> s in pools && s !in drop[..i]
      invariant forall s | s in left :: left[s] == pools[s]
    {
      assert drop[..i + 1] == drop[..i] + [drop[i]];
      left := left - {drop[i]};
    }
    assert drop[..|drop|] == drop;
  }

  method SharedOf(pools: seq<Source>) returns (shared: set<string>)
    ensures shared == Shared(pools)
  {
    shared := {};
    for i := 0 to |pools|
      invariant shared == Shared(pools[..i])
    {
      SharedOfOneMore(pools, i);
      if pools[i].pool {
        shared := shared + {Slugify(pools[i].name)};
      }
    }
    assert pools[..|pools|] == pools;
  }

  /** The pools that are left, with their priorities and places. */
  method Place(ghost g: Gathered, ghost ov: Overrides, pools: map<string, Entry>, order: seq<string>, shared: set<string>, generic: set<string>)
    returns (placed: seq<Placed>)
    requires OrderOk(g) && order == g.order && shared == Shared(ov.pools) && generic == ov.generic
    requires forall s :: s in pools <==> s in g.pools && s !in ov.drop
    requires forall s | s in pools :: pools[s] == g.pools[s]
    ensures PlacedAre(g, ov, placed)
  {
    hide Prio, Shared, Kept;
    placed := [];
    NothingPlaced(pools, shared, generic, ov.drop);
    assert order[..0] == [];
    for i := 0 to |order|
      invariant PlacedSoFar(pools, shared, generic, Kept(order[..i], ov.drop), placed)
    {
      KeptOneMore(order, ov.drop, i);
      assert order[i] in order;
      var slug := order[i];
      if slug in pools {
        placed := placed + [Placed(Item(slug, pools[slug], Prio(slug, pools[slug], shared, generic)), |placed|)];
      }
    }
    assert order[..|order|] == order;
  }

  /** The kept slugs with their entries, priorities and places. */
  ghost predicate PlacedSoFar(
      pools: map<string, Entry>, shared: set<string>, generic: set<string>, kept: seq<string>, placed: seq<Placed>)
  {
    |placed| == |kept| && forall k | 0 <= k < |kept| ::
      kept[k] in pools && placed[k] == Placed(Item(kept[k], pools[kept[k]], Prio(kept[k], pools[kept[k]], shared, generic)), k)
  }

  lemma NothingPlaced(pools: map<string, Entry>, shared: set<string>, generic: set<string>, drop: seq<string>)
    ensures PlacedSoFar(pools, shared, generic, Kept([], drop), [])
  {
  }

  lemma KeptOneMore(order: seq<string>, drop: seq<string>, i: nat)
    requires i < |order|
    ensures Kept(order[..i + 1], drop) == if order[i] in drop then Kept(order[..i], drop) else Kept(order[..i], drop) + [order[i]]
  {
    assert order[..i + 1][..i] == order[..i];
  }

  method Merge(kilombino: seq<Source>, guide: seq<Source>, ov: Overrides) returns (merged: seq<Item>)
    ensures IsMerged(Gather(AllSources(kilombino, guide, ov)), ov, merged)
  {
    hide Gather, Kept, Prio, Shared, Converted, IsMerged, OrderOk, PlacedAre;
    var gatherer := GatherAll(kilombino, guide, ov.pools);
    ghost var g := gatherer.View();
    GatherKeepsOrder(AllSources(kilombino, guide, ov));
    var pools := DropAll(gatherer.pools, ov.drop);
    var shared := SharedOf(ov.pools);
    var placed := Place(g, ov, pools, gatherer.order, shared, ov.generic);
    hide Before;
    var sorted := Arranged(g, ov, placed);
    merged := seq(|sorted|, i requires 0 <= i < |sorted| => sorted[i].item);
    SortedIsMerged(g, ov, placed, sorted, merged);
  }

  method Arranged(ghost g: Gathered, ghost ov: Overrides, placed: seq<Placed>) returns (sorted: seq<Placed>)
    requires PlacedAre(g, ov, placed)
    ensures InOrder(sorted) && forall q :: q in sorted <==> q in placed
  {
    sorted := Sorted(placed);
  }

  lemma SharedOfOneMore(pools: seq<Source>, i: nat)
    requires i < |pools|
    ensures Shared(pools[..i + 1]) == Shared(pools[..i]) + if pools[i].pool then {Slugify(pools[i].name)} else {}
  {
    assert pools[..i + 1] == pools[..i] + [pools[i]];
  }
}
