/**
  What the merged list calls a pool, and which sources say so: slugs, display names and links, told
  from the three sources themselves.
 */
module PoolNames {
  import opened Prelude
  import opened PoolTable
  import opened PoolMerge

  // ---------------------------------------------------------------------------------------
  // Slugs

  lemma {:induction false} AlphaNumericJoins(a: string, b: string)
    ensures AlphaNumeric(a + b) == AlphaNumeric(a) + AlphaNumeric(b)
  {
    if a == "" {
      assert a + b == b;
    } else {
      assert (a + b)[1..] == a[1..] + b;
      AlphaNumericJoins(a[1..], b);
    }
  }

  /** A slug is made character by character: letters in lower case and digits stay, all else goes. */
  lemma SlugifyIs(name: string, c: char)
    ensures Slugify("") == ""
    ensures Slugify(name + [c]) == Slugify(name) +
              if 'a' <= c <= 'z' || '0' <= c <= '9' then [c]
              else if 'A' <= c <= 'Z' then [(c as int + 32) as char]
              else ""
  {
    assert Lower(name + [c]) == Lower(name) + [LowerChar(c)];
    AlphaNumericJoins(Lower(name), [LowerChar(c)]);
    OneCharacter(LowerChar(c));
  }

  lemma OneCharacter(c: char)
    ensures AlphaNumeric([c]) == if 'a' <= c <= 'z' || '0' <= c <= '9' then [c] else ""
  {
    assert [c][1..] == "";
    assert AlphaNumeric("") == "";
  }

  /** White space at either end is cut off, and nothing else. */
  lemma StripIs(s: string) returns (left: string, right: string)
    ensures s == left + Strip(s) + right
    ensures forall c | c in left || c in right :: c in [' ', '\t', '\n', '\r'] || 11 <= c as int <= 12 || 28 <= c as int <= 31
    ensures Strip(s) != "" ==> !IsBlankChar(Strip(s)[0]) && !IsBlankChar(Strip(s)[|Strip(s)| - 1])
  {
    left := StripLeftIs(s);
    right := StripRightIs(StripLeft(s));
    assert s == left + (Strip(s) + right);
  }

  lemma {:induction false} StripLeftIs(s: string) returns (left: string)
    ensures s == left + StripLeft(s) && forall c | c in left :: IsBlankChar(c)
    ensures StripLeft(s) != "" ==> !IsBlankChar(StripLeft(s)[0])
  {
    if s != "" && IsBlankChar(s[0]) {
      var more := StripLeftIs(s[1..]);
      left := [s[0]] + more;
      assert s == [s[0]] + s[1..];
    } else {
      left := "";
    }
  }

  lemma {:induction false} StripRightIs(s: string) returns (right: string)
    ensures s == StripRight(s) + right && forall c | c in right :: IsBlankChar(c)
    ensures StripRight(s) != "" ==> !IsBlankChar(StripRight(s)[|StripRight(s)| - 1])
    ensures StripRight(s) != "" ==> StripRight(s)[0] == s[0]
  {
    if s != "" && IsBlankChar(s[|s| - 1]) {
      var more := StripRightIs(s[..|s| - 1]);
      right := more + [s[|s| - 1]];
      assert s == s[..|s| - 1] + [s[|s| - 1]];
    } else {
      right := "";
    }
  }

  // ---------------------------------------------------------------------------------------
  // Names

  /** The first definition of the pool in a source, and the last. */
  function FirstOf(defs: seq<Source>, slug: string): Option<Source> {
    if defs == [] then None
    else if Slugify(defs[0].name) == slug then Some(defs[0])
    else FirstOf(defs[1..], slug)
  }

  function LastOf(defs: seq<Source>, slug: string): Option<Source> {
    if defs == [] then None
    else if Slugify(defs[|defs| - 1].name) == slug then Some(defs[|defs| - 1])
    else LastOf(defs[..|defs| - 1], slug)
  }

  /** The last definition of the pool that replaces what was said before. */
  function LastReplacing(defs: seq<Source>, slug: string): Option<Source> {
    if defs == [] then None
    else if Slugify(defs[|defs| - 1].name) == slug && defs[|defs| - 1].replace then Some(defs[|defs| - 1])
    else LastReplacing(defs[..|defs| - 1], slug)
  }

  lemma {:induction false} FirstOfMore(defs: seq<Source>, s: Source, slug: string)
    ensures FirstOf(defs + [s], slug) ==
      if FirstOf(defs, slug).Some? then FirstOf(defs, slug) else if Slugify(s.name) == slug then Some(s) else None
  {
    if defs == [] {
      assert [] + [s] == [s] && [s][1..] == [];
      assert FirstOf([], slug) == None;
    } else {
      assert (defs + [s])[1..] == defs[1..] + [s];
      FirstOfMore(defs[1..], s, slug);
    }
  }

  /** Who names the pool, the three sources together. */
  ghost function Namer(kilombino: seq<Source>, guide: seq<Source>, overrides: seq<Source>, slug: string): Option<Source> {
    if LastReplacing(overrides, slug).Some? then LastReplacing(overrides, slug)
    else if LastOf(guide, slug).Some? then LastOf(guide, slug)
    else if FirstOf(kilombino, slug).Some? then FirstOf(kilombino, slug)
    else FirstOf(overrides, slug)
  }

  /** The pool is known under that name, or not known if nobody names it. */
  ghost predicate NamedBy(g: Gathered, slug: string, s: Option<Source>) {
    match s
    case None => slug !in g.pools
    case Some(n) => slug in g.pools && g.pools[slug].name == Strip(n.name)
  }

  /** Who names the pool after one more definition of it. */
  function NamerAfter(had: Option<Source>, s: Source, slug: string, anew: bool): Option<Source> {
    if Slugify(s.name) == slug && (had.None? || anew) then Some(s) else had
  }

  lemma OneMoreNames(g: Gathered, s: Source, slug: string, had: Option<Source>, t: Source)
    requires slug != "" && NamedBy(g, slug, had) && t.name == s.name
    ensures NamedBy(AddOne(g, t), slug, NamerAfter(had, s, slug, t.replace || t.rename))
  {
    hide Strip, AppendNew, Slugify;
  }

  lemma GatherMore(before: seq<Source>, s: Source)
    ensures Gather(before + [s]) == AddOne(Gather(before), s)
  {
    assert (before + [s])[..|before|] == before;
  }

  /** One more definition of a source, after all that came before it. */
  lemma SourceMore(before: seq<Source>, sources: seq<Source>, f: Source -> Source)
    requires sources != []
    ensures var n := |sources| - 1;
      Gather(before + Converted(sources, f)) == AddOne(Gather(before + Converted(sources[..n], f)), f(sources[n]))
  {
    hide Gather, AddOne;
    var n := |sources| - 1;
    var had := before + Converted(sources[..n], f);
    assert before + Converted(sources, f) == had + [f(sources[n])];
    GatherMore(had, f(sources[n]));
  }

  lemma NothingMore(before: seq<Source>, f: Source -> Source)
    ensures before + Converted([], f) == before
  {
  }

  lemma FirstOfLast(defs: seq<Source>, slug: string)
    requires defs != []
    ensures var n := |defs| - 1; FirstOf(defs, slug) == NamerAfter(FirstOf(defs[..n], slug), defs[n], slug, false)
  {
    hide FirstOf, Slugify;
    assert defs == defs[..|defs| - 1] + [defs[|defs| - 1]];
    FirstOfMore(defs[..|defs| - 1], defs[|defs| - 1], slug);
  }

  function AfterGuide(guide: seq<Source>, slug: string, first: Option<Source>): Option<Source> {
    if LastOf(guide, slug).Some? then LastOf(guide, slug) else first
  }

  function AfterOverrides(overrides: seq<Source>, slug: string, first: Option<Source>): Option<Source> {
    if LastReplacing(overrides, slug).Some? then LastReplacing(overrides, slug)
    else if first.Some? then first
    else FirstOf(overrides, slug)
  }

  lemma OverridesLast(defs: seq<Source>, slug: string, first: Option<Source>)
    requires defs != []
    ensures var n := |defs| - 1;
      AfterOverrides(defs, slug, first) == NamerAfter(AfterOverrides(defs[..n], slug, first), defs[n], slug, defs[n].replace)
  {
    FirstOfLast(defs, slug);
    hide FirstOf, Slugify;
  }

  lemma {:induction false} KilombinoNames(kilombino: seq<Source>, slug: string)
    requires slug != ""
    ensures NamedBy(Gather([] + Converted(kilombino, FromKilombino)), slug, FirstOf(kilombino, slug))
  {
    if kilombino == [] {
      NothingMore([], FromKilombino);
    } else {
      var n := |kilombino| - 1;
      KilombinoNames(kilombino[..n], slug);
      SourceMore([], kilombino, FromKilombino);
      FirstOfLast(kilombino, slug);
      hide Gather, AddOne, NamedBy, NamerAfter, Converted, FirstOf;
      OneMoreNames(Gather([] + Converted(kilombino[..n], FromKilombino)), kilombino[n], slug, FirstOf(kilombino[..n], slug), FromKilombino(kilombino[n]));
    }
  }

  lemma {:induction false} GuideNames(before: seq<Source>, guide: seq<Source>, slug: string, first: Option<Source>)
    requires slug != "" && NamedBy(Gather(before), slug, first)
    ensures NamedBy(Gather(before + Converted(guide, FromGuide)), slug, AfterGuide(guide, slug, first))
  {
    if guide == [] {
      NothingMore(before, FromGuide);
    } else {
      var n := |guide| - 1;
      GuideNames(before, guide[..n], slug, first);
      SourceMore(before, guide, FromGuide);
      assert AfterGuide(guide, slug, first) == NamerAfter(AfterGuide(guide[..n], slug, first), guide[n], slug, true);
      hide Gather, AddOne, NamedBy, NamerAfter, Converted, AfterGuide;
      OneMoreNames(Gather(before + Converted(guide[..n], FromGuide)), guide[n], slug, AfterGuide(guide[..n], slug, first), FromGuide(guide[n]));
    }
  }

  lemma {:induction false} OverridesName(before: seq<Source>, overrides: seq<Source>, slug: string, first: Option<Source>)
    requires slug != "" && NamedBy(Gather(before), slug, first)
    ensures NamedBy(Gather(before + Converted(overrides, FromOverride)), slug, AfterOverrides(overrides, slug, first))
  {
    if overrides == [] {
      NothingMore(before, FromOverride);
    } else {
      var n := |overrides| - 1;
      OverridesName(before, overrides[..n], slug, first);
      SourceMore(before, overrides, FromOverride);
      OverridesLast(overrides, slug, first);
      hide Gather, AddOne, NamedBy, NamerAfter, Converted, AfterOverrides;
      OneMoreNames(Gather(before + Converted(overrides[..n], FromOverride)), overrides[n], slug,
                   AfterOverrides(overrides[..n], slug, first), FromOverride(overrides[n]));
    }
  }

  /**
    What a pool is called. An override that replaces decides, the last one; else mempool.guide, whose
    names are the curated ones, the last of its definitions; else the first of the first list; and
    only for a pool nobody else has does an override's first definition. A pool without any is not on the list.
   */
  lemma NamesAreDecided(kilombino: seq<Source>, guide: seq<Source>, ov: Overrides, slug: string)
    requires slug != ""
    ensures NamedBy(Gather(AllSources(kilombino, guide, ov)), slug, Namer(kilombino, guide, ov.pools, slug))
  {
    hide Gather, Converted, NamedBy, FirstOf, LastOf, LastReplacing;
    var first := FirstOf(kilombino, slug);
    var before := [] + Converted(kilombino, FromKilombino);
    KilombinoNames(kilombino, slug);
    GuideNames(before, guide, slug, first);
    OverridesName(before + Converted(guide, FromGuide), ov.pools, slug, AfterGuide(guide, slug, first));
    assert before == Converted(kilombino, FromKilombino);
  }

  // ---------------------------------------------------------------------------------------
  // Links

  lemma {:induction false} SinceAreSources(sources: seq<Source>, slug: string)
    ensures forall s | s in Since(sources, slug) :: s in sources && Slugify(s.name) == slug
  {
    if sources != [] {
      SinceAreSources(sources[..|sources| - 1], slug);
      assert forall s | s in sources[..|sources| - 1] :: s in sources;
    }
  }

  /** mempool.guide's placeholder is no link: a pool has it only if another source gives it. */
  lemma PlaceholderIsNoLink(kilombino: seq<Source>, guide: seq<Source>, ov: Overrides, slug: string)
    requires slug != "" && slug in Gather(AllSources(kilombino, guide, ov)).pools
    requires Gather(AllSources(kilombino, guide, ov)).pools[slug].link == "https://example.com"
    ensures exists s :: (s in kilombino || s in ov.pools) && Slugify(s.name) == slug && s.link == "https://example.com"
  {
    var sources := AllSources(kilombino, guide, ov);
    NameAndLinkAre(sources, slug);
    SinceAreSources(sources, slug);
    hide Gather, Since, IsNameOf, Slugify;
    var defs := Since(sources, slug);
    var i :| 0 <= i < |defs| && defs[i].link == "https://example.com";
    assert defs[i] in sources;
    FromWhere(kilombino, guide, ov, defs[i]);
  }

  /** A definition as converted has one behind it. */
  lemma Behind(sources: seq<Source>, f: Source -> Source, s: Source) returns (t: Source)
    requires s in Converted(sources, f)
    ensures t in sources && f(t) == s
  {
    var i :| 0 <= i < |sources| && Converted(sources, f)[i] == s;
    t := sources[i];
  }

  lemma FromWhere(kilombino: seq<Source>, guide: seq<Source>, ov: Overrides, s: Source)
    requires s in AllSources(kilombino, guide, ov) && s.link == "https://example.com"
    ensures exists t :: (t in kilombino || t in ov.pools) && t.name == s.name && t.link == s.link
  {
    hide Converted, Slugify;
    var ks, gs, os := Converted(kilombino, FromKilombino), Converted(guide, FromGuide), Converted(ov.pools, FromOverride);
    assert s in ks || s in gs || s in os;
    if s in ks {
      var t := Behind(kilombino, FromKilombino, s);
      assert t in kilombino && t.name == s.name && t.link == s.link;
    } else if s in os {
      var t := Behind(ov.pools, FromOverride, s);
      assert t in ov.pools && t.name == s.name && t.link == s.link;
    } else {
      var t := Behind(guide, FromGuide, s);
      assert false;
    }
  }
}
