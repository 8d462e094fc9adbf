/**
  What the marks in the scanner's history mean, told by the questions asked and the answers given:
  which blocks the node named, which tip a held block was given up at, which block replaced it.
 */
module ScanHistory {
  import opened Prelude
  import opened Ledger
  import opened FoundBlocks

  /** Questions `n` and `n + 1`: `getblockhash` named block `x` at `height`, and `getblock` gave it. */
  ghost predicate Gave(env: Env, n: nat, height: int, x: Hash) {
    env.hashAt(n, height) == Some(x) && env.getsBlock(n + 1, x)
  }

  /** That happened, and what the block's coinbase says was acted upon, then or at a later look. */
  ghost predicate LookedAt(d: Db, env: Env, n: nat, height: int, x: Hash) {
    && n + 1 < d.asked && Gave(env, n, height, x)
    && (env.content(x).Tagged() ==> (height, x) in d.seen && n <= d.seen[(height, x)])
    && (env.content(x).Solo() && env.content(x).paysFee ==> height in d.solo)
  }

  ghost predicate Visited(d: Db, env: Env, height: int) {
    exists n: nat, x :: LookedAt(d, env, n, height, x)
  }

  /** After question `since`, another block was named at its height and looked at. */
  ghost predicate Replaced(d: Db, env: Env, e: (int, Hash), since: nat) {
    exists n: nat, x :: since < n && x != e.1 && LookedAt(d, env, n, e.0, x)
  }

  /** Question `n`: the tip was SCAN_PENDING_BLOCKS or more above `height`. */
  ghost predicate Deep(env: Env, n: nat, height: int) {
    env.tip(n).Some? && env.tip(n).value >= height + SCAN_PENDING_BLOCKS
  }

  /** Questions `m` and `m + 1`: the block was on the chain, and the log did not say that it has it. */
  ghost predicate StillUnknown(env: Env, m: nat, e: (int, Hash)) {
    env.hashAt(m, e.0) == Some(e.1) && env.Knows(m + 1, e.1) != Some(true)
  }

  /** After question `since`, it was still unknown under a tip deep enough. */
  ghost predicate TooDeep(d: Db, env: Env, e: (int, Hash), since: nat) {
    exists n: nat, m: nat :: n < m && since < m && m + 1 < d.asked && Deep(env, n, e.0) && StillUnknown(env, m, e)
  }

  /**
    Questions `n` to `n + 3`: `getblockhash` named another block at `height` than `h`, and asked
    again, inside `_scan_block`, named `h` after all; the log still lacked it.
   */
  ghost predicate FlipsBack(env: Env, n: nat, height: int, h: Hash) {
    && env.hashAt(n, height).Some? && env.hashAt(n, height) != Some(h)
    && Gave(env, n + 1, height, h)
    && env.Knows(n + 3, h) == Some(false)
  }

  /** The first height scanned is the one the first tip answered says. */
  ghost predicate Began(env: Env, n: nat, first: int) {
    env.tip(n).Some? && first == Max(FIRST_HEIGHT, env.tip(n).value - 80)
  }

  ghost predicate StartExplained(d: Db, env: Env) {
    d.first.Some? ==> exists n: nat :: n < d.asked && Began(env, n, d.first.value)
  }

  // ---------------------------------------------------------------------------------------
  // What each mark says, of the time since the block was last looked at

  ghost predicate SeenIs(d: Db, env: Env, e: (int, Hash)) {
    e in d.seen && d.seen[e] + 1 < d.asked && Gave(env, d.seen[e], e.0, e.1)
  }

  ghost predicate GaveUpIs(d: Db, env: Env, e: (int, Hash)) { e in d.seen && TooDeep(d, env, e, d.seen[e]) }

  ghost predicate ReplacedIs(d: Db, env: Env, e: (int, Hash)) { e in d.seen && Replaced(d, env, e, d.seen[e]) }

  ghost predicate FlippedIs(d: Db, env: Env, e: (int, Hash)) {
    e in d.seen && d.seen[e] > 0 && d.seen[e] + 2 < d.asked && FlipsBack(env, d.seen[e] - 1, e.0, e.1)
  }

  ghost predicate Explained(d: Db, env: Env) {
    && (forall e | e in d.seen :: SeenIs(d, env, e))
    && (forall e | e in d.gaveUp :: GaveUpIs(d, env, e))
    && (forall e | e in d.replaced :: ReplacedIs(d, env, e))
    && (forall e | e in d.flipped :: FlippedIs(d, env, e))
    && (forall h | h in d.answered :: Visited(d, env, h))
    && StartExplained(d, env)
  }

  /** The tip handed on was the answer to a question already asked. */
  ghost predicate TipAsked(d: Db, env: Env, tip: int) {
    exists n: nat :: n < d.asked && env.tip(n) == Some(tip)
  }

  // ---------------------------------------------------------------------------------------
  // Later answers change nothing

  ghost predicate Grew(d: Db, s: Db) {
    && d.asked <= s.asked
    && (forall e | e in d.seen :: e in s.seen && d.seen[e] <= s.seen[e])
    && (forall h | h in d.solo :: h in s.solo)
  }

  /** The block has not been looked at since. */
  ghost predicate NotLookedAt(d: Db, s: Db, e: (int, Hash)) {
    e in d.seen && e in s.seen && s.seen[e] == d.seen[e]
  }

  lemma VisitedLater(d: Db, s: Db, env: Env, height: int)
    requires Grew(d, s) && Visited(d, env, height)
    ensures Visited(s, env, height)
  {
    var n: nat, x :| LookedAt(d, env, n, height, x);
    assert LookedAt(s, env, n, height, x);
  }

  lemma ReplacedLater(d: Db, s: Db, env: Env, e: (int, Hash))
    requires Grew(d, s) && NotLookedAt(d, s, e) && ReplacedIs(d, env, e)
    ensures ReplacedIs(s, env, e)
  {
    var n: nat, x :| d.seen[e] < n && x != e.1 && LookedAt(d, env, n, e.0, x);
    assert s.seen[e] < n && LookedAt(s, env, n, e.0, x);
  }

  lemma GaveUpLater(d: Db, s: Db, env: Env, e: (int, Hash))
    requires Grew(d, s) && NotLookedAt(d, s, e) && GaveUpIs(d, env, e)
    ensures GaveUpIs(s, env, e)
  {
    var n: nat, m: nat :| n < m && d.seen[e] < m && m + 1 < d.asked && Deep(env, n, e.0) && StillUnknown(env, m, e);
    assert n < m && s.seen[e] < m && m + 1 < s.asked && Deep(env, n, e.0) && StillUnknown(env, m, e);
  }

  lemma OthersLater(d: Db, s: Db, env: Env, e: (int, Hash))
    requires Grew(d, s) && NotLookedAt(d, s, e)
    ensures SeenIs(d, env, e) ==> SeenIs(s, env, e)
    ensures FlippedIs(d, env, e) ==> FlippedIs(s, env, e)
  {
    hide Gave, FlipsBack;
  }

  lemma BeganLater(d: Db, s: Db, env: Env)
    requires Grew(d, s) && StartExplained(d, env) && (s.first == d.first || StartExplained(s, env))
    ensures StartExplained(s, env)
  {
    if s.first == d.first && d.first.Some? {
      var n: nat :| n < d.asked && Began(env, n, d.first.value);
      assert n < s.asked && Began(env, n, s.first.value);
    }
  }

  /** A state whose new looks and marks are explained. */
  lemma ExplainedLater(d: Db, s: Db, env: Env)
    requires Explained(d, env) && Grew(d, s) && (s.first == d.first || StartExplained(s, env))
    requires forall e | e in s.seen :: NotLookedAt(d, s, e) || SeenIs(s, env, e)
    requires forall e | e in s.gaveUp :: (e in d.gaveUp && NotLookedAt(d, s, e)) || GaveUpIs(s, env, e)
    requires forall e | e in s.replaced :: (e in d.replaced && NotLookedAt(d, s, e)) || ReplacedIs(s, env, e)
    requires forall e | e in s.flipped :: (e in d.flipped && NotLookedAt(d, s, e)) || FlippedIs(s, env, e)
    requires forall h | h in s.answered && h !in d.answered :: Visited(s, env, h)
    ensures Explained(s, env)
  {
    SeenAndFlipsLater(d, s, env);
    GivenUpAndReplacedLater(d, s, env);
    hide Grew, Visited, SeenIs, GaveUpIs, ReplacedIs, FlippedIs, StartExplained, NotLookedAt;
    BeganLater(d, s, env);
    forall h | h in d.answered { VisitedLater(d, s, env, h); }
  }

  lemma SeenAndFlipsLater(d: Db, s: Db, env: Env)
    requires Explained(d, env) && Grew(d, s)
    requires forall e | e in s.seen :: NotLookedAt(d, s, e) || SeenIs(s, env, e)
    requires forall e | e in s.flipped :: (e in d.flipped && NotLookedAt(d, s, e)) || FlippedIs(s, env, e)
    ensures forall e | e in s.seen :: SeenIs(s, env, e)
    ensures forall e | e in s.flipped :: FlippedIs(s, env, e)
  {
    forall e | e in s.seen && NotLookedAt(d, s, e) ensures SeenIs(s, env, e) {
      OthersLater(d, s, env, e);
    }
    forall e | e in s.flipped && e in d.flipped && NotLookedAt(d, s, e) ensures FlippedIs(s, env, e) {
      OthersLater(d, s, env, e);
    }
    hide Grew, SeenIs, FlippedIs, Visited, GaveUpIs, ReplacedIs, StartExplained;
  }

  lemma GivenUpAndReplacedLater(d: Db, s: Db, env: Env)
    requires Explained(d, env) && Grew(d, s)
    requires forall e | e in s.gaveUp :: (e in d.gaveUp && NotLookedAt(d, s, e)) || GaveUpIs(s, env, e)
    requires forall e | e in s.replaced :: (e in d.replaced && NotLookedAt(d, s, e)) || ReplacedIs(s, env, e)
    ensures forall e | e in s.gaveUp :: GaveUpIs(s, env, e)
    ensures forall e | e in s.replaced :: ReplacedIs(s, env, e)
  {
    hide Grew, SeenIs, FlippedIs, Visited, GaveUpIs, ReplacedIs, StartExplained, NotLookedAt;
    forall e | e in d.gaveUp && NotLookedAt(d, s, e) ensures GaveUpIs(s, env, e) { GaveUpLater(d, s, env, e); }
    forall e | e in d.replaced && NotLookedAt(d, s, e) ensures ReplacedIs(s, env, e) { ReplacedLater(d, s, env, e); }
  }

  lemma TipAskedLater(d: Db, s: Db, env: Env, tip: int)
    requires TipAsked(d, env, tip) && d.asked <= s.asked
    ensures TipAsked(s, env, tip)
  {
    var n: nat :| n < d.asked && env.tip(n) == Some(tip);
    assert n < s.asked && env.tip(n) == Some(tip);
  }

  // ---------------------------------------------------------------------------------------
  // Every step explains its marks

  ghost predicate SameMarks(d: Db, s: Db) {
    s.seen == d.seen && s.gaveUp == d.gaveUp && s.replaced == d.replaced && s.flipped == d.flipped
  }

  /** The tagged block's last look is now question `at`, and it has no mark. */
  ghost predicate MarksAfresh(d: Db, s: Db, e: (int, Hash), at: nat) {
    && s.seen == d.seen[e := at]
    && s.gaveUp == d.gaveUp - {e} && s.replaced == d.replaced - {e} && s.flipped == d.flipped - {e}
  }

  /**
    What a look at one height does: if the node names a block and gives it, a tag in it is acted
    upon, and with a tag this is now its last look, with no mark made since; if not, no mark changes.
   */
  lemma LookMarks(d: Db, env: Env, height: int, tip: int)
    ensures var (s, ok) := ScanBlock(d, env, height, tip);
      && s.first == d.first && s.asked >= d.asked && (forall h | h in d.solo :: h in s.solo)
      && (ok <==> env.hashAt(d.asked, height).Some? && env.getsBlock(d.asked + 1, env.hashAt(d.asked, height).value))
      && (!ok ==> SameMarks(d, s) && s.answered == d.answered)
      && (ok ==> var x := env.hashAt(d.asked, height).value;
            && s.answered == d.answered + {height} && LookedAt(s, env, d.asked, height, x)
            && (if env.content(x).Tagged() then MarksAfresh(d, s, (height, x), d.asked) && s.asked == d.asked + 3 else SameMarks(d, s)))
  {
    hide Judge, Contains;
    var h := match env.hashAt(d.asked, height) case Some(h) => h case None => 0;
    JudgeMarks(d.(asked := d.asked + 2, answered := d.answered + {height}), env, height, h, d.asked, tip);
  }

  lemma JudgeMarks(a: Db, env: Env, height: int, h: Hash, at: nat, tip: int)
    ensures var s := Judge(a, env, height, h, at, tip);
      && s.first == a.first && s.asked == a.asked + 1 && s.solo == a.solo && s.answered == a.answered
      && MarksAfresh(a, s, (height, h), at)
  {
    hide BookRound, Contains;
  }

  lemma AfreshGrows(d: Db, s: Db, env: Env, e: (int, Hash), at: nat)
    requires MarksAfresh(d, s, e, at) && Explained(d, env) && d.asked <= at && s.asked >= d.asked && forall h | h in d.solo :: h in s.solo
    ensures Grew(d, s) && forall f | f in d.seen && f != e :: NotLookedAt(d, s, f)
  {
    hide Visited, GaveUpIs, ReplacedIs, FlippedIs, Gave;
  }

  lemma SameGrows(d: Db, s: Db)
    requires SameMarks(d, s) && s.asked >= d.asked && forall h | h in d.solo :: h in s.solo
    ensures Grew(d, s) && forall f | f in d.seen :: NotLookedAt(d, s, f)
  {
  }

  lemma MarkedWereSeen(d: Db, env: Env)
    requires Explained(d, env)
    ensures forall e | Marked(d, e) :: e in d.seen
  {
    hide Visited, TooDeep, Replaced, FlipsBack, StartExplained;
  }

  /** More questions asked, and no look among them. */
  lemma SameMarksLater(d: Db, s: Db, env: Env)
    requires Explained(d, env) && SameMarks(d, s) && s.asked >= d.asked && s.answered == d.answered
    requires (forall h | h in d.solo :: h in s.solo) && (s.first == d.first || StartExplained(s, env))
    ensures Explained(s, env)
  {
    MarkedWereSeen(d, env);
    SameGrows(d, s);
    hide Explained, Grew, NotLookedAt, SeenIs, GaveUpIs, ReplacedIs, FlippedIs, Visited, StartExplained;
    ExplainedLater(d, s, env);
  }

  lemma LookIsExplained(d: Db, env: Env, height: int, tip: int)
    requires Explained(d, env)
    ensures Explained(ScanBlock(d, env, height, tip).0, env)
  {
    LookMarks(d, env, height, tip);
    MarkedWereSeen(d, env);
    hide ScanBlock, Explained, Contains, LookedAt;
    var (s, ok) := ScanBlock(d, env, height, tip);
    if ok {
      var x := env.hashAt(d.asked, height).value;
      assert Visited(s, env, height) by { assert LookedAt(s, env, d.asked, height, x); }
      if env.content(x).Tagged() {
        AfreshGrows(d, s, env, (height, x), d.asked);
        assert SeenIs(s, env, (height, x));
      } else {
        SameGrows(d, s);
      }
    } else {
      SameGrows(d, s);
    }
    hide Grew, NotLookedAt, SeenIs, GaveUpIs, ReplacedIs, FlippedIs, Visited;
    ExplainedLater(d, s, env);
  }

  /** The mark a held block gets when its height is looked at again. */
  lemma RelookMark(d: Db, s: Db, env: Env, height: int, h: Hash)
    requires SeenIs(d, env, (height, h)) && env.hashAt(d.asked, height).Some? && env.hashAt(d.asked, height) != Some(h)
    requires env.hashAt(d.asked + 1, height).Some? && LookedAt(s, env, d.asked + 1, height, env.hashAt(d.asked + 1, height).value)
    requires var x := env.hashAt(d.asked + 1, height).value;
      if x == h then MarksAfresh(d, s, (height, h), d.asked + 1) && s.asked == d.asked + 4 else NotLookedAt(d, s, (height, h))
    ensures env.hashAt(d.asked + 1, height) != Some(h) ==> ReplacedIs(s, env, (height, h))
    ensures env.hashAt(d.asked + 1, height) == Some(h) && env.Knows(d.asked + 3, h) == Some(false) ==> FlippedIs(s, env, (height, h))
  {
    var x := env.hashAt(d.asked + 1, height).value;
    assert x != h ==> d.asked + 1 > s.seen[(height, h)];
  }

  lemma LookAgainIsExplained(d: Db, env: Env, tip: int, height: int, h: Hash)
    requires Explained(d, env) && (height, h) in d.seen && env.content(h).Tagged()
    requires env.hashAt(d.asked, height).Some? && env.hashAt(d.asked, height) != Some(h)
    ensures Explained(LookAgain(d.(asked := d.asked + 1), env, tip, height, h), env)
  {
    var a := d.(asked := d.asked + 1);
    assert SeenIs(d, env, (height, h));
    hide ScanBlock, Explained, Contains, SeenIs, GaveUpIs, ReplacedIs, FlippedIs, LookedAt, LookAgain;
    SameMarksLater(d, a, env);
    LookIsExplained(a, env, height, tip);
    LookMarks(a, env, height, tip);
    var s := ScanBlock(a, env, height, tip).0;
    if ScanBlock(a, env, height, tip).1 {
      RelookMark(d, s, env, height, h);
      MarkAfterLook(a, s, env, tip, height, h);
    } else {
      FailedLook(a, env, tip, height, h);
    }
  }

  lemma FailedLook(a: Db, env: Env, tip: int, height: int, h: Hash)
    requires !ScanBlock(a, env, height, tip).1
    ensures LookAgain(a, env, tip, height, h) == ScanBlock(a, env, height, tip).0
  {
    hide ScanBlock;
  }

  lemma MarkAfterLook(a: Db, s: Db, env: Env, tip: int, height: int, h: Hash)
    requires ScanBlock(a, env, height, tip) == (s, true) && Explained(s, env)
    requires env.hashAt(a.asked, height) != Some(h) ==> ReplacedIs(s, env, (height, h))
    requires env.hashAt(a.asked, height) == Some(h) && env.Knows(a.asked + 2, h) == Some(false) ==> FlippedIs(s, env, (height, h))
    ensures Explained(LookAgain(a, env, tip, height, h), env)
  {
    hide ScanBlock, Explained, ReplacedIs, FlippedIs, GaveUpIs;
    MarkIsExplained(s, env, tip, height, h, LookAgain(a, env, tip, height, h));
  }

  /** One mark more, and explained. */
  lemma MarkIsExplained(s: Db, env: Env, tip: int, height: int, h: Hash, r: Db)
    requires Explained(s, env) && r.asked == s.asked && r.seen == s.seen && r.solo == s.solo && r.answered == s.answered && r.first == s.first
    requires forall e | e in r.gaveUp :: e in s.gaveUp || (e == (height, h) && GaveUpIs(s, env, e))
    requires forall e | e in r.replaced :: e in s.replaced || (e == (height, h) && ReplacedIs(s, env, e))
    requires forall e | e in r.flipped :: e in s.flipped || (e == (height, h) && FlippedIs(s, env, e))
    ensures Explained(r, env)
  {
    MarkedWereSeen(s, env);
    assert forall e | e in s.seen :: NotLookedAt(s, r, e);
    assert Grew(s, r);
    forall e | e == (height, h) && GaveUpIs(s, env, e) ensures GaveUpIs(r, env, e) { GaveUpLater(s, r, env, e); }
    forall e | e == (height, h) && ReplacedIs(s, env, e) ensures ReplacedIs(r, env, e) { ReplacedLater(s, r, env, e); }
    forall e | e == (height, h) && FlippedIs(s, env, e) ensures FlippedIs(r, env, e) { OthersLater(s, r, env, e); }
    hide Explained, Grew, NotLookedAt, GaveUpIs, ReplacedIs, FlippedIs, SeenIs, Visited;
    ExplainedLater(s, r, env);
  }

  /** What a block given up is found to be. */
  lemma GivenUpIsTooDeep(d: Db, env: Env, tip: int, height: int, h: Hash)
    requires SeenIs(d, env, (height, h)) && TipAsked(d, env, tip) && tip >= height + SCAN_PENDING_BLOCKS
    requires env.hashAt(d.asked, height) == Some(h) && env.Knows(d.asked + 1, h) != Some(true)
    ensures GaveUpIs(d.(asked := d.asked + 2), env, (height, h))
  {
    var n: nat :| n < d.asked && env.tip(n) == Some(tip);
    assert n < d.asked && d.seen[(height, h)] < d.asked && Deep(env, n, height) && StillUnknown(env, d.asked, (height, h));
  }

  lemma AskAgainIsExplained(d: Db, env: Env, tip: int, height: int, h: Hash)
    requires Explained(d, env) && (height, h) in d.seen && TipAsked(d, env, tip)
    requires env.hashAt(d.asked, height) == Some(h)
    ensures Explained(AskAgain(d.(asked := d.asked + 1), env, tip, height, h), env)
  {
    var r := AskAgain(d.(asked := d.asked + 1), env, tip, height, h);
    var k := d.(asked := r.asked);
    assert SeenIs(d, env, (height, h));
    AskAgainMarks(d.(asked := d.asked + 1), env, tip, height, h);
    hide Explained, AskAgain, SeenIs, GaveUpIs, ReplacedIs, FlippedIs;
    SameMarksLater(d, k, env);
    if tip >= height + SCAN_PENDING_BLOCKS && env.Knows(d.asked + 1, h) != Some(true) {
      GivenUpIsTooDeep(d, env, tip, height, h);
    }
    MarkIsExplained(k, env, tip, height, h, r);
  }

  lemma AskAgainMarks(a: Db, env: Env, tip: int, height: int, h: Hash)
    ensures var r := AskAgain(a, env, tip, height, h);
      && r.seen == a.seen && r.solo == a.solo && r.answered == a.answered && r.first == a.first
      && r.replaced == a.replaced && r.flipped == a.flipped && r.asked > a.asked
      && (if env.Knows(a.asked, h) != Some(true) && tip >= height + SCAN_PENDING_BLOCKS
          then r.gaveUp == a.gaveUp + {(height, h)} && r.asked == a.asked + 1 else r.gaveUp == a.gaveUp)
  {
    hide BookRound;
  }

  lemma RowIsExplained(d: Db, env: Env, tip: int, height: int, h: Hash)
    requires Explained(d, env) && TipAsked(d, env, tip) && (height, h) in d.seen && env.content(h).Tagged()
    ensures Explained(RecheckRow(d, env, tip, height, h), env)
  {
    hide LookAgain, AskAgain, Explained, Contains;
    match env.hashAt(d.asked, height)
    case None =>
      SameMarksLater(d, d.(asked := d.asked + 1), env);
    case Some(cur) =>
      if cur != h {
        LookAgainIsExplained(d, env, tip, height, h);
      } else {
        AskAgainIsExplained(d, env, tip, height, h);
      }
  }

  // ---------------------------------------------------------------------------------------
  // Both halves together

  /** Everything seen is settled or marked, and the marks are explained. */
  ghost predicate InOrder(d: Db, env: Env) { TablesOk(d, env) && Explained(d, env) }

  lemma MoreAsked(d: Db, env: Env, tip: int, height: int, h: Hash)
    ensures RecheckRow(d, env, tip, height, h).asked >= d.asked
  {
    hide ScanBlock, BookRound;
    ScanBlockFrame(d.(asked := d.asked + 1), env, height, tip);
  }

  /** A recheck of one held block: it stays settled, and a mark it gets is explained. */
  lemma RecheckRowKeepsOrder(d: Db, env: Env, tip: int, height: int, h: Hash)
    requires InOrder(d, env) && TipAsked(d, env, tip) && HeldAs(d, (height, h))
    ensures InOrder(RecheckRow(d, env, tip, height, h), env)
  {
    RecheckRowKeeps(d, env, tip, height, h);
    assert (height, h) in d.seen;
    hide TablesOk, Explained, RecheckRow;
    assert env.content(h).Tagged() by { TaggedWhenSeen(d, env, (height, h)); }
    RowIsExplained(d, env, tip, height, h);
  }

  lemma TaggedWhenSeen(d: Db, env: Env, e: (int, Hash))
    requires TablesOk(d, env) && e in d.seen
    ensures env.content(e.1).Tagged()
  {
  }

  lemma {:induction false} RecheckKeepsOrder(d: Db, env: Env, tip: int, rows: seq<(int, Hash)>)
    requires InOrder(d, env) && TipAsked(d, env, tip) && StillHeld(rows, d)
    ensures var r := Recheck(d, env, tip, rows);
      InOrder(r, env) && r.scanHeight == d.scanHeight && r.first == d.first && d.answered <= r.answered && r.asked >= d.asked
      && (forall n | n in r.pending :: n in d.pending)
    decreases |rows|
  {
    if rows != [] {
      hide RecheckRow, InOrder, TipAsked;
      var r := RecheckRow(d, env, tip, rows[0].0, rows[0].1);
      RecheckRowKeepsOrder(d, env, tip, rows[0].0, rows[0].1);
      RecheckRowFrame(d, env, tip, rows[0].0, rows[0].1);
      MoreAsked(d, env, tip, rows[0].0, rows[0].1);
      TipAskedLater(d, r, env, tip);
      RecheckKeepsOrder(r, env, tip, rows[1..]);
    }
  }

  lemma {:induction false} RangeIsExplained(d: Db, env: Env, tip: int, height: int, end: int)
    requires Explained(d, env)
    ensures var s := ScanRange(d, env, tip, height, end).0; Explained(s, env) && s.asked >= d.asked
    decreases end - height
  {
    if height <= end {
      hide Explained, ScanBlock;
      LookIsExplained(d, env, height, tip);
      ScanBlockFrame(d, env, height, tip);
      var (s, ok) := ScanBlock(d, env, height, tip);
      if ok {
        RangeIsExplained(s, env, tip, height + 1, end);
      }
    }
  }

  /** Scanning on: each height up to the last is answered for, and each answer is explained. */
  lemma ScanRangeKeepsOrder(d: Db, env: Env, tip: int, height: int, end: int)
    requires InOrder(d, env) && forall h | h in d.pending :: h < height
    ensures var (s, last) := ScanRange(d, env, tip, height, end);
      && InOrder(s, env) && s.scanHeight == d.scanHeight && s.first == d.first && s.asked >= d.asked
      && height - 1 <= last && (last <= end || last == height - 1)
      && d.answered <= s.answered && (forall h | height <= h <= last :: h in s.answered)
      && (forall h | h in s.pending :: h <= last)
      && (last < height ==> s.pending == d.pending)
  {
    hide TablesOk, Explained, ScanRange;
    ScanRangeKeeps(d, env, tip, height, end);
    RangeIsExplained(d, env, tip, height, end);
  }

  ghost predicate AllInOrder(d: Db, env: Env) { InOrder(d, env) && NoGap(d, d.scanHeight) }

  /** A new scan height, and the first height if there was none. */
  lemma MovesOn(s: Db, env: Env, at: int, first: int, n: nat)
    requires InOrder(s, env) && n < s.asked && (s.first.None? ==> Began(env, n, first))
    ensures InOrder(s.(scanHeight := Some(at), first := if s.first.Some? then s.first else Some(first)), env)
  {
    hide TablesOk, Explained;
    var r := s.(scanHeight := Some(at), first := if s.first.Some? then s.first else Some(first));
    TablesKeepScanHeight(s, env, r.scanHeight, r.first);
    SameMarksLater(s, r, env);
  }

  /** A pass of the scanner, whatever the node and the log answer, keeps everything in order. */
  lemma PassKeepsOrder(d: Db, env: Env, rows: seq<(int, Hash)>)
    requires AllInOrder(d, env) && RowsOf(rows, d.pending)
    ensures AllInOrder(ScanPass(d, env, rows), env)
  {
    hide Recheck, ScanRange, TablesOk, Explained;
    var a := d.(asked := d.asked + 1);
    StillOk(d, a, env);
    SameMarksLater(d, a, env);
    if env.tip(d.asked).Some? && env.tip(d.asked) != Some(0) {
      var tip := env.tip(d.asked).value;
      assert TipAsked(a, env, tip);
      RecheckKeepsOrder(a, env, tip, rows);
      var r := Recheck(a, env, tip, rows);
      var start := ScanStart(r, tip);
      if start <= tip {
        ScanRangeKeepsOrder(r, env, tip, start, Min(tip, start + SCAN_BATCH - 1));
        var (s, last) := ScanRange(r, env, tip, start, Min(tip, start + SCAN_BATCH - 1));
        if last >= start {
          MovesOn(s, env, last, start, d.asked);
        }
      }
    }
  }
}
