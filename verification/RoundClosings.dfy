/**
  Which blocks close the running round, and with how much work, over whole runs: told by the blocks
  booked and by the samples credited since the round before was closed.
 */
module RoundClosings {
  import opened Prelude
  import opened Ledger
  import opened FoundBlocks
  import opened ScanHistory
  import opened Backfill
  import opened ScannerRuns
  import opened CreditedWork
  import opened BookedBlocks

  // ---------------------------------------------------------------------------------------
  // A block just found closes the running round

  /** A block with at least two outputs, at a height above all that have a round or a found row. */
  ghost predicate JustFound(d: Db, env: Env, height: int, h: Hash) {
    env.content(h).outputs >= 2 && height !in d.found && AboveAllRounds(d.book.rounds, height)
  }

  predicate PoolTagged(text: string) { Contains(text, "Lazarus") && !Contains(text, "Lazarus/solo") }

  /**
    A look at a tagged block just found, which the log has or cannot tell, closes the running round: it
    gets the height, the hash and all the work there was, and a new one is open.
   */
  lemma LookCloses(d: Db, env: Env, height: int, tip: int, h: Hash)
    requires BookOk(d.book) && env.hashAt(d.asked, height) == Some(h) && env.getsBlock(d.asked + 1, h)
    requires PoolTagged(env.content(h).text) && !LogLacks(env, d.asked + 2, h) && JustFound(d, env, height, h)
    ensures var s := ScanBlock(d, env, height, tip).0;
      RunningRoundClosed(d.book, s.book, height, h) && s.found == d.found[height := h]
  {
    hide ScanBlock, Contains, BookOk, RunningRoundClosed, AboveAllRounds;
    LookIs(d, env, height, tip);
  }

  /** So does the recheck of a held one that the log has by now. */
  lemma RecheckCloses(d: Db, env: Env, tip: int, height: int, h: Hash)
    requires BookOk(d.book) && HeldAs(d, (height, h)) && env.hashAt(d.asked, height) == Some(h)
    requires LogHas(env, d.asked + 1, h) && env.getsBlock(d.asked + 2, h) && JustFound(d, env, height, h)
    ensures var r := RecheckRow(d, env, tip, height, h);
      RunningRoundClosed(d.book, r.book, height, h) && r.found == d.found[height := h]
  {
    hide RecheckRow, BookOk, RunningRoundClosed, AboveAllRounds;
    AskIs(d, env, tip, height, h);
  }

  // ---------------------------------------------------------------------------------------
  // What every step passes on

  ghost predicate HasRoundOf(rounds: seq<Round>, height: int, work: real) {
    exists j :: 0 <= j < |rounds| && rounds[j].height == Some(height) && rounds[j].totalWork == work
  }

  /**
    The first round closed since has all the work there was, any other has none, and the work is gone;
    or none was closed and the work is as it was.
   */
  ghost predicate PassedOn(b: Book, c: Book) {
    && |b.closings| <= |c.closings| && c.closings[..|b.closings|] == b.closings
    && (forall h, w :: HasRoundOf(b.rounds, h, w) ==> HasRoundOf(c.rounds, h, w))
    && if |c.closings| == |b.closings| then c.work == b.work
       else
         && c.work == map[] && HasRoundOf(c.rounds, c.closings[|b.closings|], TotalWork(b.work))
         && forall k | |b.closings| < k < |c.closings| :: HasRoundOf(c.rounds, c.closings[k], 0.0)
  }

  lemma PassedOnJoins(a: Book, b: Book, c: Book)
    requires PassedOn(a, b) && PassedOn(b, c)
    ensures PassedOn(a, c)
  {
    hide HasRoundOf;
    assert c.closings[..|a.closings|] == b.closings[..|a.closings|];
    assert TotalWork(map[]) == 0.0;
    assert forall k | 0 <= k < |b.closings| :: c.closings[k] == c.closings[..|b.closings|][k];
    hide TotalWork;
  }

  lemma RoundsStay(xs: seq<Round>, ys: seq<Round>)
    requires |xs| <= |ys| && forall i | 0 <= i < |xs| && xs[i].height.Some? :: ys[i].height == xs[i].height && ys[i].totalWork == xs[i].totalWork
    ensures forall h, w :: HasRoundOf(xs, h, w) ==> HasRoundOf(ys, h, w)
  {
    forall h, w | HasRoundOf(xs, h, w) ensures HasRoundOf(ys, h, w) {
      var j :| 0 <= j < |xs| && xs[j].height == Some(h) && xs[j].totalWork == w;
      assert ys[j].height == Some(h) && ys[j].totalWork == w;
    }
  }

  lemma ClosedPassesOn(b: Book, c: Book, height: int, hash: Hash)
    requires BookOk(b) && RunningRoundClosed(b, c, height, hash)
    ensures PassedOn(b, c)
  {
    hide TotalWork, ClosedWork;
    RoundsStay(b.rounds, c.rounds);
    var i: nat :| i < |c.rounds| && c.rounds[i] == Round(Some(height), hash, TotalWork(b.work), Immature);
    assert HasRoundOf(c.rounds, height, TotalWork(b.work));
  }

  lemma AddedPassesOn(b: Book, c: Book)
    requires c == b.(rounds := c.rounds) && |c.rounds| >= |b.rounds| && c.rounds[..|b.rounds|] == b.rounds
    ensures PassedOn(b, c)
  {
    hide TotalWork;
    assert forall i | 0 <= i < |b.rounds| :: c.rounds[i] == c.rounds[..|b.rounds|][i];
    RoundsStay(b.rounds, c.rounds);
  }

  lemma BookingPassesOn(b: Book, c: Book, existed: bool, outputs: nat, height: int, hash: Hash)
    requires BookOk(b) && RoundsMove(b, c, existed, outputs, height, hash)
    ensures PassedOn(b, c)
  {
    hide TotalWork, BookOk, PassedOn, RunningRoundClosed, AboveAllRounds;
    if c != b && RunningRoundClosed(b, c, height, hash) {
      ClosedPassesOn(b, c, height, hash);
    } else {
      AddedPassesOn(b, c);
    }
  }

  // ---------------------------------------------------------------------------------------
  // Every booked block has its round

  ghost predicate BookedUnsplit(d: Db, env: Env, height: int) {
    exists h :: (height, h) in d.booked && env.content(h).outputs < 2
  }

  /**
    Heights with a round have a found row. A height with a found row has a round, unless a block of one
    output was booked there or a backfill filled it. A round that did not end the running one is below
    another block's round, or a backfill's.
   */
  ghost predicate RoundsExplained(d: Db, env: Env, filled: set<int>) {
    && (forall h :: HasRound(d.book.rounds, h) ==> h in d.found)
    && (forall h | h in d.found :: HasRound(d.book.rounds, h) || BookedUnsplit(d, env, h) || h in filled)
    && (forall h :: HasRound(d.book.rounds, h) ==> h in d.book.closings || HasLaterRound(d.book.rounds, h) || h in filled)
  }

  lemma RoundsAfterClose(b: Book, c: Book, height: int, hash: Hash)
    requires BookOk(b) && RunningRoundClosed(b, c, height, hash)
    ensures forall h :: HasRound(c.rounds, h) <==> HasRound(b.rounds, h) || h == height
    ensures forall h :: HasLaterRound(b.rounds, h) ==> HasLaterRound(c.rounds, h)
  {
    hide TotalWork, ClosedWork;
    var i: nat :| i < |c.rounds| && c.rounds[i] == Round(Some(height), hash, TotalWork(b.work), Immature);
    forall h | HasRound(b.rounds, h) ensures HasRound(c.rounds, h) {
      var k :| 0 <= k < |b.rounds| && b.rounds[k].height == Some(h);
      assert c.rounds[k].height == Some(h);
    }
    forall h | HasLaterRound(b.rounds, h) ensures HasLaterRound(c.rounds, h) {
      var k :| 0 <= k < |b.rounds| && b.rounds[k].height.Some? && b.rounds[k].height.value > h;
      assert c.rounds[k].height == b.rounds[k].height;
    }
    forall h | HasRound(c.rounds, h) ensures HasRound(b.rounds, h) || h == height {
      var k :| 0 <= k < |c.rounds| && c.rounds[k].height == Some(h);
      assert k < |b.rounds| ==> b.rounds[k].height == Some(h) || h == height;
    }
  }

  lemma RoundsAfterAdded(b: Book, c: Book, r: Round)
    requires c == b.(rounds := b.rounds + [r])
    ensures forall h :: HasRound(c.rounds, h) <==> HasRound(b.rounds, h) || r.height == Some(h)
    ensures forall h :: HasLaterRound(b.rounds, h) ==> HasLaterRound(c.rounds, h)
  {
    forall h | HasRound(b.rounds, h) ensures HasRound(c.rounds, h) {
      var k :| 0 <= k < |b.rounds| && b.rounds[k].height == Some(h);
      assert c.rounds[k].height == Some(h);
    }
    forall h | HasLaterRound(b.rounds, h) ensures HasLaterRound(c.rounds, h) {
      var k :| 0 <= k < |b.rounds| && b.rounds[k].height.Some? && b.rounds[k].height.value > h;
      assert c.rounds[k] == b.rounds[k];
    }
    assert c.rounds[|b.rounds|] == r;
  }

  /** What booking does to which heights have rounds. */
  ghost predicate HeightsMove(b: Book, c: Book, booksRound: bool, height: int) {
    && (forall h :: HasRound(c.rounds, h) <==> HasRound(b.rounds, h) || (h == height && booksRound))
    && (forall h :: HasLaterRound(b.rounds, h) ==> HasLaterRound(c.rounds, h))
    && (forall k | k in b.closings :: k in c.closings)
    && (booksRound && !HasRound(b.rounds, height) ==> height in c.closings || HasLaterRound(c.rounds, height))
  }

  lemma BookingMovesHeights(b: Book, c: Book, existed: bool, outputs: nat, height: int, hash: Hash)
    requires BookOk(b) && RoundsMove(b, c, existed, outputs, height, hash)
    ensures HeightsMove(b, c, outputs >= 2 && !existed, height)
  {
    hide TotalWork, BookOk, HasRound, HasLaterRound;
    if outputs >= 2 && !existed {
      if AboveAllRounds(b.rounds, height) {
        RoundsAfterClose(b, c, height, hash);
        assert c.closings == b.closings + [height];
      } else {
        NotAboveAll(b, height);
        RoundAtMeans(b.rounds, height);
        RoundsAfterAdded(b, b.(rounds := b.rounds + [Round(Some(height), hash, 0.0, Immature)]), Round(Some(height), hash, 0.0, Immature));
        RoundsAfterAdded(b, b.(rounds := b.rounds + [FRESH]), FRESH);
      }
      hide RunningRoundClosed, AboveAllRounds;
    }
  }

  lemma RoundAtMeans(rounds: seq<Round>, height: int)
    ensures (exists i :: 0 <= i < |rounds| && rounds[i].height == Some(height)) <==> HasRound(rounds, height)
  {
  }

  lemma BookingExplains(d: Db, s: Db, env: Env, filled: set<int>, height: int, h: Hash)
    requires BookOk(d.book) && RoundsExplained(d, env, filled) && BookedNow(d, s, env, height, h)
    ensures RoundsExplained(s, env, filled)
  {
    BookingMovesHeights(d.book, s.book, height in d.found, env.content(h).outputs, height, h);
    hide RoundsMove, BookOk, HasRound, HasLaterRound;
    assert (height, h) in s.booked;
    forall n | BookedUnsplit(d, env, n) ensures BookedUnsplit(s, env, n) {
      var x :| (n, x) in d.booked && env.content(x).outputs < 2;
      assert (n, x) in s.booked;
    }
    assert height !in d.found && env.content(h).outputs < 2 ==> BookedUnsplit(s, env, height);
    hide BookedUnsplit;
  }

  /** What every step of the scanner keeps of rounds and closings. */
  ghost predicate Lawful(d: Db, s: Db, env: Env, filled: set<int>) {
    PassedOn(d.book, s.book) && (RoundsExplained(d, env, filled) ==> RoundsExplained(s, env, filled))
  }

  lemma LawfulJoins(a: Db, b: Db, c: Db, env: Env, filled: set<int>)
    requires Lawful(a, b, env, filled) && Lawful(b, c, env, filled)
    ensures Lawful(a, c, env, filled)
  {
    hide PassedOn, RoundsExplained;
    PassedOnJoins(a.book, b.book, c.book);
  }

  lemma NothingBooked(d: Db, s: Db, env: Env, filled: set<int>)
    requires s.found == d.found && s.booked == d.booked && s.book == d.book
    ensures Lawful(d, s, env, filled)
  {
    AddedPassesOn(d.book, s.book);
    hide PassedOn;
  }

  lemma BookingIsLawful(d: Db, s: Db, env: Env, filled: set<int>, height: int, h: Hash)
    requires BookOk(d.book) && BookedNow(d, s, env, height, h)
    ensures Lawful(d, s, env, filled)
  {
    BookingPassesOn(d.book, s.book, height in d.found, env.content(h).outputs, height, h);
    hide RoundsMove, BookOk, PassedOn, RoundsExplained, BookedNow;
    if RoundsExplained(d, env, filled) {
      BookingExplains(d, s, env, filled, height, h);
    }
  }

  /** A look leaves found rows, rounds and bookings alone, or books a block. */
  lemma LookIsLawful(d: Db, env: Env, filled: set<int>, height: int, tip: int)
    requires BookOk(d.book)
    ensures Lawful(d, ScanBlock(d, env, height, tip).0, env, filled)
  {
    LookIs(d, env, height, tip);
    LookResultIsLawful(d, ScanBlock(d, env, height, tip).0, env, filled, d.asked, height, tip);
  }

  lemma LookResultIsLawful(d: Db, s: Db, env: Env, filled: set<int>, q: nat, height: int, tip: int)
    requires BookOk(d.book) && LookResult(d, s, env, q, height, tip)
    ensures Lawful(d, s, env, filled)
  {
    hide BookOk, Lawful, BookedNow, Contains;
    if s.found == d.found && s.booked == d.booked && s.book == d.book {
      NothingBooked(d, s, env, filled);
    } else {
      BookingIsLawful(d, s, env, filled, height, env.hashAt(q, height).value);
    }
  }

  lemma RowIsLawful(d: Db, env: Env, filled: set<int>, tip: int, height: int, h: Hash)
    requires BookOk(d.book) && HeldAs(d, (height, h))
    ensures Lawful(d, RecheckRow(d, env, tip, height, h), env, filled)
  {
    hide BookOk, Lawful, BookedNow, RecheckRow, ScanBlock, LookResult, StaysHeld;
    var r := RecheckRow(d, env, tip, height, h);
    if env.hashAt(d.asked, height).None? {
      UnansweredRow(d, env, tip, height, h);
      NothingBooked(d, r, env, filled);
    } else if env.hashAt(d.asked, height) == Some(h) {
      AskIs(d, env, tip, height, h);
      if r.found == d.found && r.booked == d.booked && r.book == d.book {
        NothingBooked(d, r, env, filled);
      } else {
        BookingIsLawful(d, r, env, filled, height, h);
      }
    } else {
      GoneIs(d, env, tip, height, h);
      var s := ScanBlock(d.(asked := d.asked + 1), env, height, tip).0;
      if r.found == d.found && r.booked == d.booked && r.book == d.book {
        NothingBooked(d, r, env, filled);
      } else {
        LookResultIsLawful(d, s, env, filled, d.asked + 1, height, tip);
        NothingBooked(s, r, env, filled);
        LawfulJoins(d, s, r, env, filled);
      }
    }
  }

  lemma {:induction false} RecheckIsLawful(d: Db, env: Env, filled: set<int>, tip: int, rows: seq<(int, Hash)>)
    requires TablesOk(d, env) && StillHeld(rows, d)
    ensures Lawful(d, Recheck(d, env, tip, rows), env, filled)
    decreases |rows|
  {
    if rows == [] {
      NothingBooked(d, d, env, filled);
    } else {
      BookInOrder(d, env);
      hide TablesOk, RecheckRow, Lawful, BookOk;
      var r := RecheckRow(d, env, tip, rows[0].0, rows[0].1);
      RecheckRowKeeps(d, env, tip, rows[0].0, rows[0].1);
      RecheckRowFrame(d, env, tip, rows[0].0, rows[0].1);
      RowIsLawful(d, env, filled, tip, rows[0].0, rows[0].1);
      RecheckIsLawful(r, env, filled, tip, rows[1..]);
      LawfulJoins(d, r, Recheck(r, env, tip, rows[1..]), env, filled);
    }
  }

  lemma BookInOrder(d: Db, env: Env)
    requires TablesOk(d, env)
    ensures BookOk(d.book)
  {
  }

  lemma {:induction false} RangeIsLawful(d: Db, env: Env, filled: set<int>, tip: int, height: int, end: int)
    requires TablesOk(d, env) && forall h | h in d.pending :: h < height
    ensures Lawful(d, ScanRange(d, env, tip, height, end).0, env, filled)
    decreases end - height
  {
    if height > end {
      NothingBooked(d, d, env, filled);
    } else {
      BookInOrder(d, env);
      hide TablesOk, ScanBlock, Lawful, BookOk;
      var (s, ok) := ScanBlock(d, env, height, tip);
      ScanBlockInRange(d, env, height, tip);
      ScanBlockFrame(d, env, height, tip);
      LookIsLawful(d, env, filled, height, tip);
      if ok {
        RangeIsLawful(s, env, filled, tip, height + 1, end);
        LawfulJoins(d, s, ScanRange(s, env, tip, height + 1, end).0, env, filled);
      }
    }
  }

  /** The first block a pass finds gets all the work there was, the others of that pass none. */
  lemma PassIsLawful(d: Db, env: Env, filled: set<int>, rows: seq<(int, Hash)>)
    requires AllInOrder(d, env) && RowsOf(rows, d.pending)
    ensures Lawful(d, ScanPass(d, env, rows), env, filled)
  {
    var a := d.(asked := d.asked + 1);
    NothingBooked(d, a, env, filled);
    hide Recheck, ScanRange, TablesOk, Explained, Lawful;
    if env.tip(d.asked).Some? && env.tip(d.asked) != Some(0) {
      var tip := env.tip(d.asked).value;
      StillOk(d, a, env);
      SameMarksLater(d, a, env);
      assert TipAsked(a, env, tip);
      RowsAreHeld(a, rows);
      RecheckIsLawful(a, env, filled, tip, rows);
      RecheckKeepsOrder(a, env, tip, rows);
      RestIsLawful(d, env, filled, rows, tip, Recheck(a, env, tip, rows));
    }
  }

  lemma RestIsLawful(d: Db, env: Env, filled: set<int>, rows: seq<(int, Hash)>, tip: int, r: Db)
    requires env.tip(d.asked) == Some(tip) && tip != 0 && r == Recheck(d.(asked := d.asked + 1), env, tip, rows)
    requires TablesOk(r, env) && r.scanHeight == d.scanHeight && NoGap(d, d.scanHeight) && forall n | n in r.pending :: n in d.pending
    requires Lawful(d.(asked := d.asked + 1), r, env, filled) && Lawful(d, d.(asked := d.asked + 1), env, filled)
    ensures Lawful(d, ScanPass(d, env, rows), env, filled)
  {
    hide Recheck, ScanRange, TablesOk, Lawful;
    var a := d.(asked := d.asked + 1);
    LawfulJoins(d, a, r, env, filled);
    var start := ScanStart(r, tip);
    if start <= tip {
      var end := FoundBlocks.Min(tip, start + SCAN_BATCH - 1);
      RangeIsLawful(r, env, filled, tip, start, end);
      var s := ScanRange(r, env, tip, start, end).0;
      LawfulJoins(d, r, s, env, filled);
      var p := ScanPass(d, env, rows);
      NothingBooked(s, p, env, filled);
      LawfulJoins(d, s, p, env, filled);
    }
  }

  // ---------------------------------------------------------------------------------------
  // Over runs

  function HeightsOf(blocks: seq<Listed>): set<int> { set b | b in blocks :: b.height }

  /** The heights that backfills of the run filled. */
  function FilledHeights(events: seq<Event>): set<int> {
    if events == [] then {}
    else
      var n := |events| - 1;
      FilledHeights(events[..n]) + if events[n].Filled? then HeightsOf(events[n].blocks) else {}
  }

  lemma FillingOneExplains(d: Db, env: Env, b: Listed, filled: set<int>)
    requires b.height in filled && RoundsExplained(d, env, filled)
    ensures RoundsExplained(ApplyOne(d, b), env, filled) && PassedOn(d.book, ApplyOne(d, b).book)
  {
    var s := ApplyOne(d, b);
    var r := Round(Some(b.height), b.hash, 0.0, Immature);
    AddedPassesOn(d.book, s.book);
    RoundsAfterAdded(d.book, d.book.(rounds := d.book.rounds + [r]), r);
    forall n | BookedUnsplit(d, env, n) ensures BookedUnsplit(s, env, n) {
      var x :| (n, x) in d.booked && env.content(x).outputs < 2;
      assert (n, x) in s.booked;
    }
    hide HasRound, HasLaterRound, PassedOn, BookedUnsplit;
  }

  lemma {:induction false} FillingExplains(d: Db, env: Env, blocks: seq<Listed>, filled: set<int>)
    requires RoundsExplained(d, env, filled) && forall b | b in blocks :: b.height in filled
    ensures RoundsExplained(Apply(d, blocks), env, filled) && PassedOn(d.book, Apply(d, blocks).book)
  {
    if blocks == [] {
      NothingBooked(d, d, env, filled);
    } else {
      hide RoundsExplained, PassedOn, Apply, ApplyOne;
      var n := |blocks| - 1;
      FillingExplains(d, env, blocks[..n], filled);
      assert blocks[n] in blocks;
      FillingOneExplains(Apply(d, blocks[..n]), env, blocks[n], filled);
      ApplyOneMore(d, blocks);
      PassedOnJoins(d.book, Apply(d, blocks[..n]).book, Apply(d, blocks).book);
    }
  }

  lemma CreditExplains(d: Db, env: Env, a: Address, diff: int, filled: set<int>)
    requires RoundsExplained(d, env, filled)
    ensures RoundsExplained(After(d, env, Credit(a, diff)), env, filled)
    ensures forall h, w :: HasRoundOf(d.book.rounds, h, w) ==> HasRoundOf(After(d, env, Credit(a, diff)).book.rounds, h, w)
  {
    var s := After(d, env, Credit(a, diff));
    RoundsStay(d.book.rounds, s.book.rounds);
    RoundsAfterAdded(d.book, d.book.(rounds := d.book.rounds + [FRESH]), FRESH);
    CreditedRounds(d.book, a, diff);
    forall n | BookedUnsplit(d, env, n) ensures BookedUnsplit(s, env, n) {
      var x :| (n, x) in d.booked && env.content(x).outputs < 2;
      assert (n, x) in s.booked;
    }
    hide HasRound, HasLaterRound, BookedUnsplit, CreditWork, HasRoundOf;
  }

  lemma CreditedRounds(b: Book, a: Address, diff: int)
    ensures var c := CreditWork(b, a, diff);
      (c.rounds == b.rounds || c.rounds == b.rounds + [FRESH]) && c.closings == b.closings
  {
    hide OpenRound;
  }

  lemma MaturedExplains(d: Db, env: Env, due: int -> bool, filled: set<int>)
    requires RoundsExplained(d, env, filled)
    ensures RoundsExplained(After(d, env, Matured(due)), env, filled)
    ensures PassedOn(d.book, After(d, env, Matured(due)).book)
  {
    var s := After(d, env, Matured(due));
    MatureTouchesStatus(d.book, due);
    hide Mature;
    RoundsStay(d.book.rounds, s.book.rounds);
    assert forall h :: HasRound(s.book.rounds, h) <==> HasRound(d.book.rounds, h) by { SameHeightsBothWays(d.book.rounds, s.book.rounds); }
    assert forall h :: HasLaterRound(d.book.rounds, h) <==> HasLaterRound(s.book.rounds, h) by { SameHeightsBothWays(d.book.rounds, s.book.rounds); }
    forall n | BookedUnsplit(d, env, n) ensures BookedUnsplit(s, env, n) {
      var x :| (n, x) in d.booked && env.content(x).outputs < 2;
      assert (n, x) in s.booked;
    }
    hide HasRound, HasLaterRound, BookedUnsplit;
  }

  lemma SameHeightsBothWays(xs: seq<Round>, ys: seq<Round>)
    requires |ys| == |xs| && forall i | 0 <= i < |xs| :: ys[i].height == xs[i].height
    ensures forall h :: HasRound(ys, h) <==> HasRound(xs, h)
    ensures forall h :: HasLaterRound(xs, h) <==> HasLaterRound(ys, h)
  {
    forall h ensures HasLaterRound(xs, h) <==> HasLaterRound(ys, h) {
      if i :| 0 <= i < |xs| && xs[i].height.Some? && xs[i].height.value > h {
        assert ys[i].height.Some? && ys[i].height.value > h;
      }
      if i :| 0 <= i < |ys| && ys[i].height.Some? && ys[i].height.value > h {
        assert xs[i].height.Some? && xs[i].height.value > h;
      }
    }
    forall h ensures HasRound(ys, h) <==> HasRound(xs, h) {
      if i :| 0 <= i < |xs| && xs[i].height == Some(h) {
        assert ys[i].height == Some(h);
      }
      if i :| 0 <= i < |ys| && ys[i].height == Some(h) {
        assert xs[i].height == Some(h);
      }
    }
  }

  /** Every event keeps the rounds explained and the closed rounds' work, and all but samples pass the work on. */
  lemma EventIsLawful(d: Db, env: Env, e: Event, filled: set<int>)
    requires AllInOrder(d, env) && May(d, env, e) && RoundsExplained(d, env, filled)
    requires e.Filled? ==> forall b | b in e.blocks :: b.height in filled
    ensures RoundsExplained(After(d, env, e), env, filled)
    ensures forall h, w :: HasRoundOf(d.book.rounds, h, w) ==> HasRoundOf(After(d, env, e).book.rounds, h, w)
    ensures !e.Credit? ==> PassedOn(d.book, After(d, env, e).book)
  {
    hide InOrder, NoGap, RoundsExplained, HasRoundOf, ScanPass, Apply, CreditWork, Mature, RowsOf;
    match e
    case Scan(rows) => PassIsLawful(d, env, filled, rows);
    case Credit(a, diff) => CreditExplains(d, env, a, diff, filled);
    case Matured(due) => MaturedExplains(d, env, due, filled);
    case Planned => NothingBooked(d, After(d, env, e), env, filled);
    case Filled(blocks) => FillingExplains(d, env, blocks, filled);
  }

  lemma {:induction false} RunSplits(d: Db, env: Env, events: seq<Event>)
    requires Run(d, env, events) && events != []
    ensures var n := |events| - 1; Run(d, env, events[..n]) && May(End(d, env, events[..n]), env, events[n])
    decreases |events|
  {
    hide May, After;
    if |events| == 1 {
      assert events[..0] == [];
    } else {
      RunSplits(After(d, env, events[0]), env, events[1..]);
      assert events[1..][..|events| - 2] == events[..|events| - 1][1..];
    }
  }

  lemma {:induction false} RunExplains(env: Env, events: seq<Event>, filled: set<int>)
    requires Run(Empty(), env, events) && forall h | h in FilledHeights(events) :: h in filled
    ensures RoundsExplained(End(Empty(), env, events), env, filled)
    decreases |events|
  {
    if events != [] {
      var n := |events| - 1;
      RunSplits(Empty(), env, events);
      EndSplits(Empty(), env, events);
      hide Run, End, May, After, RoundsExplained;
      RunExplains(env, events[..n], filled);
      RunsAreInOrder(env, events[..n]);
      assert events[n].Filled? ==> forall b | b in events[n].blocks :: b.height in HeightsOf(events[n].blocks) && b.height in filled;
      EventIsLawful(End(Empty(), env, events[..n]), env, events[n], filled);
    }
  }

  /**
    A found block gets its round. In any run, a block with at least two outputs that is booked, at a
    height where no block of fewer was and that no backfill filled, ended the running round, or a block
    above it had a round before it was booked; so the highest of them always ended the running round.
   */
  lemma FoundBlockHasItsRound(env: Env, events: seq<Event>, height: int, h: Hash)
    requires Run(Empty(), env, events) && height !in FilledHeights(events)
    requires var d := End(Empty(), env, events);
      (height, h) in d.booked && forall x | (height, x) in d.booked :: env.content(x).outputs >= 2
    ensures var b := End(Empty(), env, events).book;
      && (exists i :: 0 <= i < |b.rounds| && b.rounds[i].height == Some(height))
      && (height in b.closings || exists i :: 0 <= i < |b.rounds| && b.rounds[i].height.Some? && b.rounds[i].height.value > height)
  {
    RunExplains(env, events, FilledHeights(events));
    RunsAreInOrder(env, events);
    hide Run, End, FilledHeights, InOrder, NoGap;
    BookedHasRow(End(Empty(), env, events), env, height, h);
  }

  lemma BookedHasRow(d: Db, env: Env, height: int, h: Hash)
    requires AllInOrder(d, env) && (height, h) in d.booked
    ensures height in d.found
  {
    hide Explained, NoGap, BookOk, Contains;
    assert (height, h).0 in d.found;
  }

  /** What the counters have gained since the last round was closed. */
  ghost function SinceClose(env: Env, events: seq<Event>): nat
    decreases |events|
  {
    if events == [] || Closes(env, events) then 0
    else
      var before, e := events[..|events| - 1], events[|events| - 1];
      SinceClose(env, before) + if e.Credit? && e.address != "" then Gain(Counter(env, before, e.address), e.diff) else 0
  }

  lemma CreditAddsGain(env: Env, events: seq<Event>)
    requires Run(Empty(), env, events) && events != [] && events[|events| - 1].Credit?
    ensures var before, e := events[..|events| - 1], events[|events| - 1];
      && !Closes(env, events)
      && TotalWork(End(Empty(), env, events).book.work)
         == TotalWork(End(Empty(), env, before).book.work) + (if e.address != "" then Gain(Counter(env, before, e.address), e.diff) else 0) as real
  {
    var before, e := events[..|events| - 1], events[|events| - 1];
    RunSplits(Empty(), env, events);
    EndSplits(Empty(), env, events);
    CreditedIsGained(env, before);
    CreditedIsGained(env, events);
    RunsAreInOrder(env, before);
    RunsAreInOrder(env, events);
    var d, c := End(Empty(), env, before), End(Empty(), env, events);
    BookInOrder(d, env);
    BookInOrder(c, env);
    CreditedRounds(d.book, e.address, e.diff);
    hide Run, End, AllInOrder, TotalWork, OpenRound, CountersAre, Counter;
    ClosedWorkAppend(d.book.rounds, FRESH);
    assert Gained(env, events) == Gained(env, before) + (if e.address != "" then Gain(Counter(env, before, e.address), e.diff) else 0);
  }

  /** The running round's work is what the counters have gained since the last close. */
  lemma {:induction false} WorkIsSinceClose(env: Env, events: seq<Event>)
    requires Run(Empty(), env, events)
    ensures TotalWork(End(Empty(), env, events).book.work) == SinceClose(env, events) as real
    decreases |events|
  {
    if events != [] {
      var n := |events| - 1;
      RunSplits(Empty(), env, events);
      WorkIsSinceClose(env, events[..n]);
      if events[n].Credit? {
        CreditAddsGain(env, events);
      } else {
        EndSplits(Empty(), env, events);
        RunExplains(env, events[..n], FilledHeights(events));
        RunsAreInOrder(env, events[..n]);
        var d := End(Empty(), env, events[..n]);
        hide Run, End, May, After, RoundsExplained, AllInOrder;
        assert events[n].Filled? ==> forall b | b in events[n].blocks :: b.height in HeightsOf(events[n].blocks);
        EventIsLawful(d, env, events[n], FilledHeights(events));
        WorkPassedOn(d.book, After(d, env, events[n]).book);
      }
    }
  }

  lemma WorkPassedOn(b: Book, c: Book)
    requires PassedOn(b, c)
    ensures TotalWork(c.work) == if c.closings == b.closings then TotalWork(b.work) else 0.0
  {
    assert c.closings[..|b.closings|] == b.closings;
    assert TotalWork(map[]) == 0.0;
    if |c.closings| == |b.closings| {
      assert c.closings == b.closings;
    }
    hide TotalWork, HasRoundOf;
  }

  /**
    The last event closed the running round: the round it closed has what the counters gained since the
    close before. A pass may find several blocks: the rounds of the later ones have nothing.
   */
  lemma CloseTakesTheWork(env: Env, events: seq<Event>)
    requires Run(Empty(), env, events) && events != [] && Closes(env, events)
    ensures var n := |events| - 1;
      var b, c := End(Empty(), env, events[..n]).book, End(Empty(), env, events).book;
      && |b.closings| < |c.closings| && c.work == map[]
      && HasRoundOf(c.rounds, c.closings[|b.closings|], SinceClose(env, events[..n]) as real)
      && forall k | |b.closings| < k < |c.closings| :: HasRoundOf(c.rounds, c.closings[k], 0.0)
  {
    var n := |events| - 1;
    RunSplits(Empty(), env, events);
    EndSplits(Empty(), env, events);
    WorkIsSinceClose(env, events[..n]);
    RunExplains(env, events[..n], FilledHeights(events));
    RunsAreInOrder(env, events[..n]);
    var d := End(Empty(), env, events[..n]);
    assert !events[n].Credit? by { CreditClosesNone(d, env, events[n]); }
    hide Run, End, May, After, RoundsExplained, AllInOrder, SinceClose, TotalWork, HasRoundOf;
    assert events[n].Filled? ==> forall b | b in events[n].blocks :: b.height in HeightsOf(events[n].blocks);
    EventIsLawful(d, env, events[n], FilledHeights(events));
    ClosesMore(d.book, After(d, env, events[n]).book);
  }

  lemma CreditClosesNone(d: Db, env: Env, e: Event)
    ensures e.Credit? ==> After(d, env, e).book.closings == d.book.closings
  {
    hide OpenRound;
  }

  lemma ClosesMore(b: Book, c: Book)
    requires PassedOn(b, c) && c.closings != b.closings
    ensures |b.closings| < |c.closings| && c.work == map[] && HasRoundOf(c.rounds, c.closings[|b.closings|], TotalWork(b.work))
    ensures forall k | |b.closings| < k < |c.closings| :: HasRoundOf(c.rounds, c.closings[k], 0.0)
  {
    assert c.closings[..|b.closings|] == b.closings;
  }

  lemma {:induction false} RunPrefix(env: Env, events: seq<Event>, m: nat)
    requires Run(Empty(), env, events) && m <= |events|
    ensures Run(Empty(), env, events[..m])
    decreases |events|
  {
    if m == |events| {
      assert events[..m] == events;
    } else {
      RunSplits(Empty(), env, events);
      assert events[..|events| - 1][..m] == events[..m];
      RunPrefix(env, events[..|events| - 1], m);
    }
  }

  lemma {:induction false} RoundsStayInRuns(env: Env, events: seq<Event>, m: nat, height: int, work: real)
    requires Run(Empty(), env, events) && m <= |events| && HasRoundOf(End(Empty(), env, events[..m]).book.rounds, height, work)
    ensures HasRoundOf(End(Empty(), env, events).book.rounds, height, work)
    decreases |events|
  {
    if m == |events| {
      assert events[..m] == events;
    } else {
      var n := |events| - 1;
      RunSplits(Empty(), env, events);
      EndSplits(Empty(), env, events);
      assert events[..n][..m] == events[..m];
      RoundsStayInRuns(env, events[..n], m, height, work);
      RunExplains(env, events[..n], FilledHeights(events));
      RunsAreInOrder(env, events[..n]);
      hide Run, End, May, After, RoundsExplained, AllInOrder, HasRoundOf;
      assert events[n].Filled? ==> forall b | b in events[n].blocks :: b.height in HeightsOf(events[n].blocks);
      EventIsLawful(End(Empty(), env, events[..n]), env, events[n], FilledHeights(events));
    }
  }

  /**
    Each block is paid for its own round. Wherever in a run event number `n` closed the running round,
    the round of the first block it closed one for has, at the end of the run, exactly what the counters
    gained between the close before and that event.
   */
  lemma RoundHoldsItsWork(env: Env, events: seq<Event>, n: nat)
    requires n < |events| && Run(Empty(), env, events) && Closes(env, events[..n + 1])
    ensures var b, c := End(Empty(), env, events[..n]).book, End(Empty(), env, events[..n + 1]).book;
      && |b.closings| < |c.closings|
      && HasRoundOf(End(Empty(), env, events).book.rounds, c.closings[|b.closings|], SinceClose(env, events[..n]) as real)
  {
    hide Run, End, Closes, SinceClose, HasRoundOf;
    var now := events[..n + 1];
    assert now[..n] == events[..n];
    RunPrefix(env, events, n + 1);
    CloseTakesTheWork(env, now);
    var b, c := End(Empty(), env, events[..n]).book, End(Empty(), env, now).book;
    RoundsStayInRuns(env, events, n + 1, c.closings[|b.closings|], SinceClose(env, events[..n]) as real);
  }
}
