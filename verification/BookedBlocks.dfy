/**
  When the scanner books a block, told by the questions it asks and the answers it gets: what a look
  at a height does, what becomes of each held block in a pass, and that a held block is booked as
  soon as the log has it.
 */
module BookedBlocks {
  import opened Prelude
  import opened Ledger
  import opened FoundBlocks
  import opened ScanHistory
  import opened ScannerRuns

  // ---------------------------------------------------------------------------------------
  // One look, and one held block

  /** The tables are as they were. */
  ghost predicate SameTables(d: Db, s: Db) {
    && s.found == d.found && s.solo == d.solo && s.pending == d.pending && s.scanHeight == d.scanHeight
    && s.book == d.book && s.booked == d.booked
  }

  /** The block has its found row, and its round as the ledger says; `pending` aside nothing else changed. */
  ghost predicate BookedNow(d: Db, s: Db, env: Env, height: int, h: Hash) {
    && s.found == d.found[height := h] && s.booked == d.booked + {(height, h)}
    && RoundsMove(d.book, s.book, height in d.found, env.content(h).outputs, height, h)
    && s.solo == d.solo && s.scanHeight == d.scanHeight
  }

  /** Question `n`: the log can be read and has the block, or lacks it. */
  predicate LogHas(env: Env, n: nat, h: Hash) { env.log(n).Some? && h in env.log(n).value }
  predicate LogLacks(env: Env, n: nat, h: Hash) { env.log(n).Some? && h !in env.log(n).value }

  /** What a look at `height` that begins with question `q` makes of the tables, answer by answer. */
  ghost predicate LookResult(d: Db, s: Db, env: Env, q: nat, height: int, tip: int) {
    if env.hashAt(q, height).None? || !env.getsBlock(q + 1, env.hashAt(q, height).value) then SameTables(d, s)
    else
      var h := env.hashAt(q, height).value;
      var blk := env.content(h);
      if Contains(blk.text, "Lazarus/solo") then
        SameTables(d, s.(solo := d.solo)) && s.solo == (if blk.paysFee then d.solo[height := h] else d.solo)
      else if !Contains(blk.text, "Lazarus") then SameTables(d, s)
      else if LogLacks(env, q + 2, h) then
        SameTables(d, s.(pending := d.pending)) && s.pending == d.pending[height := Held(h, tip)]
      else BookedNow(d, s, env, height, h) && s.pending == d.pending
  }

  /** A tagged block is booked at once if the log has it or cannot be read, and held if it lacks it. */
  lemma LookIs(d: Db, env: Env, height: int, tip: int)
    requires BookOk(d.book)
    ensures var (s, ok) := ScanBlock(d, env, height, tip);
      && LookResult(d, s, env, d.asked, height, tip)
      && (ok <==> env.hashAt(d.asked, height).Some? && env.getsBlock(d.asked + 1, env.hashAt(d.asked, height).value))
  {
    hide BookRound, BookOk, Contains, RoundsMove;
    var h := match env.hashAt(d.asked, height) case Some(h) => h case None => 0;
    BookRoundIs(d.book, height in d.found, env.content(h).outputs, height, h);
  }

  /** Question `q` on, a recheck of the held block: it stays held for want of an answer, or of depth. */
  ghost predicate StaysHeld(env: Env, q: nat, tip: int, height: int, h: Hash) {
    match env.hashAt(q, height)
    case None => true
    case Some(x) =>
      if x == h then (if LogHas(env, q + 1, h) then !env.getsBlock(q + 2, h) else tip < height + 100)
      else env.hashAt(q + 1, height).None? || !env.getsBlock(q + 2, env.hashAt(q + 1, height).value)
  }

  /** What a recheck of a held block that is still on the chain makes of the tables. */
  ghost predicate AskResult(d: Db, r: Db, env: Env, q: nat, tip: int, height: int, h: Hash) {
    if StaysHeld(env, q, tip, height, h) then SameTables(d, r)
    else if LogHas(env, q + 1, h) then BookedNow(d, r, env, height, h) && r.pending == d.pending - {height}
    else SameTables(d, r.(pending := d.pending)) && r.pending == d.pending - {height}
  }

  lemma AskIs(d: Db, env: Env, tip: int, height: int, h: Hash)
    requires BookOk(d.book) && HeldAs(d, (height, h)) && env.hashAt(d.asked, height) == Some(h)
    ensures AskResult(d, RecheckRow(d, env, tip, height, h), env, d.asked, tip, height, h)
  {
    AskUnfolds(d, env, tip, height, h);
    hide BookBlock, Unhold, RecheckRow, SameTables, BookedNow, BookOk;
    var g := d.(asked := d.asked + 3);
    BookedAndDropped(d, g, env, height, h);
    DroppedOnly(d, d.(asked := d.asked + 2, gaveUp := d.gaveUp + {(height, h)}), height, h);
    assert SameTables(d, d.(asked := d.asked + 2)) && SameTables(d, g) by { SameButAsked(d, d.asked + 2); SameButAsked(d, d.asked + 3); }
  }

  lemma SameButAsked(d: Db, n: nat)
    ensures SameTables(d, d.(asked := n))
  {
  }

  lemma AskUnfolds(d: Db, env: Env, tip: int, height: int, h: Hash)
    requires env.hashAt(d.asked, height) == Some(h)
    ensures RecheckRow(d, env, tip, height, h) ==
      if LogHas(env, d.asked + 1, h) then
        var g := d.(asked := d.asked + 3);
        if env.getsBlock(d.asked + 2, h) then Unhold(BookBlock(g, height, h, env.content(h).outputs), height, h) else g
      else
        var k := d.(asked := d.asked + 2);
        if tip >= height + 100 then Unhold(k.(gaveUp := d.gaveUp + {(height, h)}), height, h) else k
  {
    hide BookBlock, Unhold, LookAgain;
  }

  lemma BookedAndDropped(d: Db, g: Db, env: Env, height: int, h: Hash)
    requires BookOk(d.book) && HeldAs(d, (height, h)) && g == d.(asked := g.asked)
    ensures var r := Unhold(BookBlock(g, height, h, env.content(h).outputs), height, h);
      BookedNow(d, r, env, height, h) && r.pending == d.pending - {height}
  {
    hide BookRound, BookOk, RoundsMove;
    BookRoundIs(d.book, height in d.found, env.content(h).outputs, height, h);
  }

  lemma DroppedOnly(d: Db, k: Db, height: int, h: Hash)
    requires HeldAs(d, (height, h)) && k == d.(asked := k.asked, gaveUp := k.gaveUp)
    ensures var r := Unhold(k, height, h);
      SameTables(d, r.(pending := d.pending)) && r.pending == d.pending - {height}
  {
  }

  /** The tables after a look, but for the row of the held block. */
  ghost predicate RowDropped(s: Db, r: Db, height: int, h: Hash) {
    SameTables(s, r.(pending := s.pending)) && r.pending == (if HeldAs(s, (height, h)) then s.pending - {height} else s.pending)
  }

  lemma GoneIs(d: Db, env: Env, tip: int, height: int, h: Hash)
    requires BookOk(d.book) && HeldAs(d, (height, h)) && env.hashAt(d.asked, height).Some? && env.hashAt(d.asked, height) != Some(h)
    ensures var s := ScanBlock(d.(asked := d.asked + 1), env, height, tip).0;
      var r := RecheckRow(d, env, tip, height, h);
      && LookResult(d, s, env, d.asked + 1, height, tip)
      && (if StaysHeld(env, d.asked, tip, height, h) then SameTables(d, r) else RowDropped(s, r, height, h))
  {
    hide BookOk, ScanBlock, LookAgain, AskAgain, LookResult, SameTables, RowDropped;
    var a := d.(asked := d.asked + 1);
    LookIs(a, env, height, tip);
    SameLookResult(d, a, ScanBlock(a, env, height, tip).0, env, d.asked + 1, height, tip);
    GoneRow(d, a, env, tip, height, h);
  }

  lemma SameLookResult(d: Db, a: Db, s: Db, env: Env, q: nat, height: int, tip: int)
    requires a == d.(asked := a.asked) && LookResult(a, s, env, q, height, tip)
    ensures LookResult(d, s, env, q, height, tip)
  {
    hide RoundsMove, Contains;
  }

  lemma GoneRow(d: Db, a: Db, env: Env, tip: int, height: int, h: Hash)
    requires a == d.(asked := a.asked)
    ensures var (s, ok) := ScanBlock(a, env, height, tip);
      var r := LookAgain(a, env, tip, height, h);
      if ok then RowDropped(s, r, height, h) else SameTables(d, r)
  {
    hide ScanBlock;
    ScanBlockFrame(a, env, height, tip);
  }

  /** A held block is still held after its recheck exactly when an answer was missing, or it is unknown and not deep yet. */
  lemma HeldExactlyWhen(d: Db, env: Env, tip: int, height: int, h: Hash)
    requires BookOk(d.book) && HeldAs(d, (height, h))
    ensures HeldAs(RecheckRow(d, env, tip, height, h), (height, h)) <==> StaysHeld(env, d.asked, tip, height, h)
  {
    hide BookOk, RecheckRow, ScanBlock, Contains, RoundsMove;
    if env.hashAt(d.asked, height) == Some(h) {
      AskIs(d, env, tip, height, h);
    } else if env.hashAt(d.asked, height).Some? {
      GoneIs(d, env, tip, height, h);
    } else {
      UnansweredRow(d, env, tip, height, h);
    }
  }

  lemma UnansweredRow(d: Db, env: Env, tip: int, height: int, h: Hash)
    requires env.hashAt(d.asked, height).None?
    ensures SameTables(d, RecheckRow(d, env, tip, height, h))
  {
  }

  // ---------------------------------------------------------------------------------------
  // A whole pass

  /** Nothing at this height has changed: what is held there, what was found there, and which blocks were booked. */
  ghost predicate SameAt(d: Db, s: Db, height: int) {
    && (height in s.pending <==> height in d.pending) && (height in d.pending ==> s.pending[height] == d.pending[height])
    && (height in s.found <==> height in d.found) && (height in d.found ==> s.found[height] == d.found[height])
    && forall h :: (height, h) in s.booked <==> (height, h) in d.booked
  }

  lemma SameAtJoins(a: Db, b: Db, c: Db, height: int)
    requires SameAt(a, b, height) && SameAt(b, c, height)
    ensures SameAt(a, c, height)
  {
  }

  lemma BookingElsewhere(d: Db, height: int, h: Hash, outputs: nat, other: int)
    requires other != height
    ensures SameAt(d, BookBlock(d, height, h, outputs), other)
  {
    hide BookRound;
  }

  lemma HeldElsewhere(d: Db, s: Db, height: int, other: int)
    requires other != height && s.found == d.found && s.booked == d.booked
    requires forall n | n != height :: (n in s.pending <==> n in d.pending) && (n in s.pending ==> s.pending[n] == d.pending[n])
    ensures SameAt(d, s, other)
  {
  }

  lemma JudgeElsewhere(a: Db, env: Env, height: int, h: Hash, at: nat, tip: int, other: int)
    requires other != height
    ensures SameAt(a, Judge(a, env, height, h, at, tip), other)
  {
    hide BookBlock, SameAt, Contains;
    var k := Seen(a, height, h, at).(asked := a.asked + 1);
    HeldElsewhere(a, k, height, other);
    HeldElsewhere(k, Hold(k, height, h, tip), height, other);
    BookingElsewhere(k, height, h, env.content(h).outputs, other);
    SameAtJoins(a, k, Hold(k, height, h, tip), other);
    SameAtJoins(a, k, BookBlock(k, height, h, env.content(h).outputs), other);
  }

  lemma LookElsewhere(d: Db, env: Env, height: int, tip: int, other: int)
    requires other != height
    ensures SameAt(d, ScanBlock(d, env, height, tip).0, other)
  {
    hide Judge, SameAt, Contains;
    var h := match env.hashAt(d.asked, height) case Some(h) => h case None => 0;
    var a := d.(asked := d.asked + 2, answered := d.answered + {height});
    JudgeElsewhere(a, env, height, h, d.asked, tip, other);
    HeldElsewhere(d, a, height, other);
    SameAtJoins(d, a, Judge(a, env, height, h, d.asked, tip), other);
    var s := ScanBlock(d, env, height, tip).0;
    if s.found == d.found && s.booked == d.booked && s.pending == d.pending {
      HeldElsewhere(d, s, height, other);
    }
  }

  lemma MarksElsewhere(d: Db, s: Db, r: Db, other: int)
    requires SameAt(d, s, other)
    ensures r == s.(replaced := r.replaced, flipped := r.flipped) ==> SameAt(d, r, other)
  {
  }

  lemma DropElsewhere(d: Db, height: int, h: Hash, other: int)
    requires other != height
    ensures SameAt(d, Unhold(d, height, h), other)
  {
  }

  lemma GoneElsewhere(d: Db, a: Db, env: Env, tip: int, height: int, h: Hash, other: int)
    requires other != height && a == d.(asked := a.asked)
    ensures SameAt(d, LookAgain(a, env, tip, height, h), other)
  {
    hide ScanBlock, SameAt;
    var s, r := ScanBlock(a, env, height, tip).0, LookAgain(a, env, tip, height, h);
    HeldElsewhere(d, a, height, other);
    LookElsewhere(a, env, height, tip, other);
    SameAtJoins(d, a, s, other);
    DropElsewhere(s, height, h, other);
    SameAtJoins(d, s, Unhold(s, height, h), other);
    hide Unhold;
    MarksElsewhere(d, Unhold(s, height, h), r, other);
  }

  lemma AskElsewhere(d: Db, a: Db, env: Env, tip: int, height: int, h: Hash, other: int)
    requires other != height && a == d.(asked := a.asked)
    ensures SameAt(d, AskAgain(a, env, tip, height, h), other)
  {
    hide BookBlock, SameAt;
    var g := a.(asked := a.asked + 2);
    var b := BookBlock(g, height, h, env.content(h).outputs);
    HeldElsewhere(d, g, height, other);
    BookingElsewhere(g, height, h, env.content(h).outputs, other);
    SameAtJoins(d, g, b, other);
    DropElsewhere(b, height, h, other);
    SameAtJoins(d, b, Unhold(b, height, h), other);
    var k := a.(asked := a.asked + 1);
    var up := k.(gaveUp := k.gaveUp + {(height, h)});
    HeldElsewhere(d, k, height, other);
    HeldElsewhere(d, up, height, other);
    DropElsewhere(up, height, h, other);
    SameAtJoins(d, up, Unhold(up, height, h), other);
    hide Unhold;
  }

  lemma RowElsewhere(d: Db, env: Env, tip: int, height: int, h: Hash, other: int)
    requires other != height
    ensures SameAt(d, RecheckRow(d, env, tip, height, h), other)
  {
    hide LookAgain, AskAgain, SameAt;
    var a := d.(asked := d.asked + 1);
    GoneElsewhere(d, a, env, tip, height, h, other);
    AskElsewhere(d, a, env, tip, height, h, other);
    HeldElsewhere(d, a, height, other);
  }

  lemma {:induction false} RecheckElsewhere(d: Db, env: Env, tip: int, rows: seq<(int, Hash)>, other: int)
    requires forall i | 0 <= i < |rows| :: rows[i].0 != other
    ensures SameAt(d, Recheck(d, env, tip, rows), other)
    decreases |rows|
  {
    if rows != [] {
      hide RecheckRow, SameAt;
      var r := RecheckRow(d, env, tip, rows[0].0, rows[0].1);
      RowElsewhere(d, env, tip, rows[0].0, rows[0].1, other);
      RecheckElsewhere(r, env, tip, rows[1..], other);
      SameAtJoins(d, r, Recheck(r, env, tip, rows[1..]), other);
    }
  }

  lemma {:induction false} RangeElsewhere(d: Db, env: Env, tip: int, height: int, end: int, other: int)
    requires other < height
    ensures SameAt(d, ScanRange(d, env, tip, height, end).0, other)
    decreases end - height
  {
    if height <= end {
      hide ScanBlock, SameAt;
      var (s, ok) := ScanBlock(d, env, height, tip);
      LookElsewhere(d, env, height, tip, other);
      if ok {
        RangeElsewhere(s, env, tip, height + 1, end, other);
        SameAtJoins(d, s, ScanRange(s, env, tip, height + 1, end).0, other);
      }
    }
  }

  lemma {:induction false} RecheckSplits(d: Db, env: Env, tip: int, rows: seq<(int, Hash)>, i: nat)
    requires i < |rows|
    ensures var b := Recheck(d, env, tip, rows[..i]);
      Recheck(d, env, tip, rows) == Recheck(RecheckRow(b, env, tip, rows[i].0, rows[i].1), env, tip, rows[i + 1..])
    decreases |rows|
  {
    hide RecheckRow;
    if i > 0 {
      assert rows[..i][1..] == rows[1..][..i - 1];
      assert rows[1..][i..] == rows[i + 1..];
      RecheckSplits(RecheckRow(d, env, tip, rows[0].0, rows[0].1), env, tip, rows[1..], i - 1);
    } else {
      assert rows[..0] == [];
    }
  }

  /** The tables before held row number `i` is rechecked, in a pass whose tip is `tip`. */
  ghost function BeforeRow(d: Db, env: Env, rows: seq<(int, Hash)>, tip: int, i: nat): Db
    requires i <= |rows|
  {
    Recheck(d.(asked := d.asked + 1), env, tip, rows[..i])
  }

  lemma RowsAreHeld(d: Db, rows: seq<(int, Hash)>)
    requires RowsOf(rows, d.pending)
    ensures StillHeld(rows, d)
  {
  }

  /** Before its turn a held row is as the pass found it. */
  lemma RowBeforeTurn(d: Db, env: Env, rows: seq<(int, Hash)>, tip: int, i: nat)
    requires TablesOk(d, env) && RowsOf(rows, d.pending) && i < |rows|
    ensures var b := BeforeRow(d, env, rows, tip, i);
      HeldAs(b, rows[i]) && BookOk(b.book) && SameAt(d, b, rows[i].0)
  {
    hide TablesOk, Recheck, SameAt;
    var a := d.(asked := d.asked + 1);
    StillOk(d, a, env);
    RowsAreHeld(a, rows);
    assert StillHeld(rows[..i], a);
    RecheckKeeps(a, env, tip, rows[..i]);
    RecheckElsewhere(a, env, tip, rows[..i], rows[i].0);
    TurnIsSame(d, a, BeforeRow(d, env, rows, tip, i), env, rows[i]);
  }

  lemma TurnIsSame(d: Db, a: Db, b: Db, env: Env, row: (int, Hash))
    requires a == d.(asked := a.asked) && SameAt(a, b, row.0) && HeldAs(a, row) && TablesOk(b, env)
    ensures HeldAs(b, row) && BookOk(b.book) && SameAt(d, b, row.0)
  {
  }

  /** After its turn nothing in the pass changes what is said of it. */
  lemma RowAfterTurn(d: Db, env: Env, rows: seq<(int, Hash)>, tip: int, i: nat)
    requires AllInOrder(d, env) && RowsOf(rows, d.pending) && i < |rows| && env.tip(d.asked) == Some(tip) && tip != 0
    ensures var b := BeforeRow(d, env, rows, tip, i);
      SameAt(RecheckRow(b, env, tip, rows[i].0, rows[i].1), ScanPass(d, env, rows), rows[i].0)
  {
    hide InOrder, TablesOk, Explained, RecheckRow, Recheck, ScanRange, SameAt;
    var a := d.(asked := d.asked + 1);
    var r := Recheck(a, env, tip, rows);
    var height := rows[i].0;
    BelowScanHeight(d, env, rows, i);
    RecheckKeepsHeight(d, a, env, tip, rows);
    hide RowsOf, NoGap;
    RecheckSplits(a, env, tip, rows, i);
    var t := RecheckRow(BeforeRow(d, env, rows, tip, i), env, tip, rows[i].0, rows[i].1);
    RecheckElsewhere(t, env, tip, rows[i + 1..], height);
    RangeElsewhere(r, env, tip, ScanStart(r, tip), FoundBlocks.Min(tip, ScanStart(r, tip) + SCAN_BATCH - 1), height);
    RestOfPass(d, env, rows, tip, r, height);
    SameAtJoins(t, r, ScanPass(d, env, rows), height);
  }

  lemma HeldIsBelow(d: Db, height: int)
    requires NoGap(d, d.scanHeight)
    ensures height in d.pending ==> d.scanHeight.Some? && height <= d.scanHeight.value
  {
  }

  lemma BelowScanHeight(d: Db, env: Env, rows: seq<(int, Hash)>, i: nat)
    requires AllInOrder(d, env) && RowsOf(rows, d.pending) && i < |rows|
    ensures TablesOk(d, env) && d.scanHeight.Some? && rows[i].0 <= d.scanHeight.value
    ensures forall j | 0 <= j < |rows| && j != i :: rows[j].0 != rows[i].0
  {
    hide TablesOk, Explained;
    HeldIsBelow(d, rows[i].0);
    forall j | 0 <= j < |rows| && j != i ensures rows[j].0 != rows[i].0 {
      assert if j < i then rows[j].0 < rows[i].0 else rows[i].0 < rows[j].0;
    }
  }

  lemma RecheckKeepsHeight(d: Db, a: Db, env: Env, tip: int, rows: seq<(int, Hash)>)
    requires TablesOk(d, env) && RowsOf(rows, d.pending) && a == d.(asked := d.asked + 1)
    ensures Recheck(a, env, tip, rows).scanHeight == d.scanHeight
  {
    hide TablesOk, Recheck;
    StillOk(d, a, env);
    RowsAreHeld(a, rows);
    RecheckKeeps(a, env, tip, rows);
  }

  lemma RestOfPass(d: Db, env: Env, rows: seq<(int, Hash)>, tip: int, r: Db, height: int)
    requires env.tip(d.asked) == Some(tip) && tip != 0 && r == Recheck(d.(asked := d.asked + 1), env, tip, rows)
    requires var start := ScanStart(r, tip);
      SameAt(r, ScanRange(r, env, tip, start, FoundBlocks.Min(tip, start + SCAN_BATCH - 1)).0, height)
    ensures SameAt(r, ScanPass(d, env, rows), height)
  {
    hide Recheck, ScanRange;
  }

  /** The block is booked, its height has its row, and is not held. */
  ghost predicate IsBooked(s: Db, height: int, h: Hash) {
    (height, h) in s.booked && height in s.found && s.found[height] == h && height !in s.pending
  }

  /**
    A logged block is booked. In any pass that gets a tip, when the row's turn comes - question `q` -
    the node still names the block, the log has it and the node gives it: then it is booked, its height
    has its found row, and it is held no longer.
   */
  lemma LoggedIsBooked(d: Db, env: Env, rows: seq<(int, Hash)>, tip: int, i: nat, q: nat)
    requires AllInOrder(d, env) && RowsOf(rows, d.pending) && i < |rows| && env.tip(d.asked) == Some(tip) && tip != 0
    requires q == BeforeRow(d, env, rows, tip, i).asked
    requires env.hashAt(q, rows[i].0) == Some(rows[i].1) && LogHas(env, q + 1, rows[i].1) && env.getsBlock(q + 2, rows[i].1)
    ensures IsBooked(ScanPass(d, env, rows), rows[i].0, rows[i].1)
  {
    hide *;
    var b := BeforeRow(d, env, rows, tip, i);
    OrderHolds(d, env);
    RowAfterTurn(d, env, rows, tip, i);
    RowBeforeTurn(d, env, rows, tip, i);
    AskBooks(b, env, tip, rows[i].0, rows[i].1);
    StaysBooked(RecheckRow(b, env, tip, rows[i].0, rows[i].1), ScanPass(d, env, rows), rows[i].0, rows[i].1);
  }

  lemma AskBooks(b: Db, env: Env, tip: int, height: int, h: Hash)
    requires BookOk(b.book) && HeldAs(b, (height, h))
    requires env.hashAt(b.asked, height) == Some(h) && LogHas(env, b.asked + 1, h) && env.getsBlock(b.asked + 2, h)
    ensures IsBooked(RecheckRow(b, env, tip, height, h), height, h)
  {
    hide BookOk, RecheckRow, RoundsMove;
    AskIs(b, env, tip, height, h);
  }

  lemma StaysBooked(t: Db, s: Db, height: int, h: Hash)
    requires SameAt(t, s, height) && IsBooked(t, height, h)
    ensures IsBooked(s, height, h)
  {
  }

  /** And a block is still held after a pass exactly when, at its turn, an answer was missing, or the log lacked it and it was not deep yet. */
  lemma StillHeldExactlyWhen(d: Db, env: Env, rows: seq<(int, Hash)>, tip: int, i: nat, q: nat)
    requires AllInOrder(d, env) && RowsOf(rows, d.pending) && i < |rows| && env.tip(d.asked) == Some(tip) && tip != 0
    requires q == BeforeRow(d, env, rows, tip, i).asked
    ensures HeldAs(ScanPass(d, env, rows), rows[i]) <==> StaysHeld(env, q, tip, rows[i].0, rows[i].1)
  {
    hide *;
    var b := BeforeRow(d, env, rows, tip, i);
    OrderHolds(d, env);
    RowAfterTurn(d, env, rows, tip, i);
    RowBeforeTurn(d, env, rows, tip, i);
    HeldExactlyWhen(b, env, tip, rows[i].0, rows[i].1);
    SameHeld(RecheckRow(b, env, tip, rows[i].0, rows[i].1), ScanPass(d, env, rows), rows[i].0, rows[i].1);
  }

  lemma SameHeld(t: Db, s: Db, height: int, h: Hash)
    requires SameAt(t, s, height)
    ensures HeldAs(s, (height, h)) <==> HeldAs(t, (height, h))
  {
  }

  // ---------------------------------------------------------------------------------------
  // How far a pass comes, and over runs

  /** Question `n` on: the node does not name a block at the height, or does not give it. */
  ghost predicate NotAnswered(env: Env, n: nat, height: int) {
    env.hashAt(n, height).None? || !env.getsBlock(n + 1, env.hashAt(n, height).value)
  }

  ghost predicate Stops(env: Env, since: nat, height: int) {
    exists n: nat :: n >= since && NotAnswered(env, n, height)
  }

  lemma {:induction false} RangeReaches(d: Db, env: Env, tip: int, height: int, end: int)
    requires height <= end + 1
    ensures var (s, last) := ScanRange(d, env, tip, height, end);
      height - 1 <= last <= end && (last == end || Stops(env, d.asked, last + 1))
    decreases end - height
  {
    if height <= end {
      hide ScanBlock;
      LookMarks(d, env, height, tip);
      var (s, ok) := ScanBlock(d, env, height, tip);
      if ok {
        RangeReaches(s, env, tip, height + 1, end);
        var last := ScanRange(s, env, tip, height + 1, end).1;
        if Stops(env, s.asked, last + 1) {
          StopsSince(env, d.asked, s.asked, last + 1);
        }
      } else {
        assert NotAnswered(env, d.asked, height);
      }
    }
  }

  lemma StopsSince(env: Env, before: nat, since: nat, height: int)
    requires Stops(env, since, height) && before <= since
    ensures Stops(env, before, height)
  {
  }

  /** The height a pass starts at: after the last one, or at most 80 below the tip and not below 961640. */
  function StartOf(scanHeight: Option<int>, tip: int): int {
    match scanHeight
    case Some(at) => at + 1
    case None => if tip - 80 >= 961640 then tip - 80 else 961640
  }

  /**
    A pass that gets a tip comes as far as the tip, but not more than forty heights; or it stops at the
    first height the node does not answer for, and the next pass begins there.
   */
  lemma PassReaches(d: Db, env: Env, rows: seq<(int, Hash)>, tip: int)
    requires AllInOrder(d, env) && RowsOf(rows, d.pending) && env.tip(d.asked) == Some(tip) && tip != 0
    ensures var start := StartOf(d.scanHeight, tip);
      var next := StartOf(ScanPass(d, env, rows).scanHeight, tip);
      && (start > tip ==> next == start)
      && (start <= tip ==> start <= next && next <= tip + 1 && next <= start + 40)
      && (start <= tip && next != tip + 1 && next != start + 40 ==> Stops(env, d.asked, next))
  {
    hide *;
    OrderHolds(d, env);
    var a := d.(asked := d.asked + 1);
    RecheckKeepsHeight(d, a, env, tip, rows);
    RecheckAsksMore(d, a, env, tip, rows);
    PassFrom(d, env, rows, tip, Recheck(a, env, tip, rows));
  }

  lemma OrderHolds(d: Db, env: Env)
    requires AllInOrder(d, env)
    ensures TablesOk(d, env)
  {
    hide TablesOk, Explained, NoGap;
  }

  lemma PassFrom(d: Db, env: Env, rows: seq<(int, Hash)>, tip: int, r: Db)
    requires env.tip(d.asked) == Some(tip) && tip != 0 && r == Recheck(d.(asked := d.asked + 1), env, tip, rows)
    requires r.scanHeight == d.scanHeight && r.asked >= d.asked
    ensures var start := StartOf(d.scanHeight, tip);
      var next := StartOf(ScanPass(d, env, rows).scanHeight, tip);
      && (start > tip ==> next == start)
      && (start <= tip ==> start <= next && next <= tip + 1 && next <= start + 40)
      && (start <= tip && next != tip + 1 && next != start + 40 ==> Stops(env, d.asked, next))
  {
    hide Recheck, ScanRange, Stops;
    var start := ScanStart(r, tip);
    if start <= tip {
      var end := FoundBlocks.Min(tip, start + SCAN_BATCH - 1);
      RangeReaches(r, env, tip, start, end);
      RangeKeepsHeight(r, env, tip, start, end);
      var last := ScanRange(r, env, tip, start, end).1;
      if last != end {
        StopsSince(env, d.asked, r.asked, last + 1);
      }
    }
  }

  /** Without a tip a pass changes nothing. */
  lemma NoTipNoPass(d: Db, env: Env, rows: seq<(int, Hash)>)
    requires env.tip(d.asked).None? || env.tip(d.asked) == Some(0)
    ensures SameTables(d, ScanPass(d, env, rows))
  {
    hide Recheck, ScanRange;
  }

  lemma {:induction false} RecheckAsksMore(d: Db, a: Db, env: Env, tip: int, rows: seq<(int, Hash)>)
    requires d.asked <= a.asked
    ensures Recheck(a, env, tip, rows).asked >= d.asked
    decreases |rows|
  {
    if rows != [] {
      hide RecheckRow;
      MoreAsked(a, env, tip, rows[0].0, rows[0].1);
      RecheckAsksMore(d, RecheckRow(a, env, tip, rows[0].0, rows[0].1), env, tip, rows[1..]);
    }
  }

  lemma {:induction false} RangeKeepsHeight(d: Db, env: Env, tip: int, height: int, end: int)
    ensures ScanRange(d, env, tip, height, end).0.scanHeight == d.scanHeight
    decreases end - height
  {
    if height <= end {
      hide ScanBlock;
      ScanBlockFrame(d, env, height, tip);
      RangeKeepsHeight(ScanBlock(d, env, height, tip).0, env, tip, height + 1, end);
    }
  }

  /** From question `n` on the node names this block at its height and gives it, and the log has it. */
  ghost predicate Settles(env: Env, n: nat, height: int, h: Hash) {
    forall m: nat | m >= n :: env.hashAt(m, height) == Some(h) && LogHas(env, m, h) && env.getsBlock(m, h)
  }

  /**
    Over any run: when chain and log have come to agree on a held block, the next pass that gets a tip
    books it.
   */
  lemma HeldBlockIsBooked(env: Env, events: seq<Event>, rows: seq<(int, Hash)>, height: int, h: Hash)
    requires Run(Empty(), env, events)
    requires var d := End(Empty(), env, events);
      && RowsOf(rows, d.pending) && HeldAs(d, (height, h)) && Settles(env, d.asked, height, h)
      && env.tip(d.asked).Some? && env.tip(d.asked) != Some(0)
    ensures IsBooked(After(End(Empty(), env, events), env, Scan(rows)), height, h)
  {
    hide *;
    var d := End(Empty(), env, events);
    RunsAreInOrder(env, events);
    var i := RowIs(d, rows, height, h);
    AgreedIsBooked(d, env, rows, env.tip(d.asked).value, i, height, h);
    ScanIsPass(d, env, rows);
  }

  lemma ScanIsPass(d: Db, env: Env, rows: seq<(int, Hash)>)
    ensures After(d, env, Scan(rows)) == ScanPass(d, env, rows)
  {
    hide ScanPass;
  }

  lemma AgreedIsBooked(d: Db, env: Env, rows: seq<(int, Hash)>, tip: int, i: nat, height: int, h: Hash)
    requires AllInOrder(d, env) && RowsOf(rows, d.pending) && env.tip(d.asked) == Some(tip) && tip != 0
    requires i < |rows| && rows[i] == (height, h) && Settles(env, d.asked, height, h)
    ensures IsBooked(ScanPass(d, env, rows), height, h)
  {
    hide *;
    var q := BeforeRow(d, env, rows, tip, i).asked;
    assert q >= d.asked by { TurnIsLater(d, env, rows, tip, i); }
    assert env.hashAt(q, height) == Some(h) && LogHas(env, q + 1, h) && env.getsBlock(q + 2, h) by { SettlesAt(env, d.asked, q, height, h); }
    LoggedIsBooked(d, env, rows, tip, i, q);
  }

  lemma TurnIsLater(d: Db, env: Env, rows: seq<(int, Hash)>, tip: int, i: nat)
    requires i <= |rows|
    ensures BeforeRow(d, env, rows, tip, i).asked >= d.asked
  {
    hide Recheck;
    RecheckAsksMore(d, d.(asked := d.asked + 1), env, tip, rows[..i]);
  }

  lemma SettlesAt(env: Env, n: nat, q: nat, height: int, h: Hash)
    requires Settles(env, n, height, h) && q >= n
    ensures env.hashAt(q, height) == Some(h) && LogHas(env, q + 1, h) && env.getsBlock(q + 2, h)
  {
    hide LogHas;
    assert env.hashAt(q, height) == Some(h);
    assert env.hashAt(q + 1, height) == Some(h);
    assert env.hashAt(q + 2, height) == Some(h);
  }

  lemma RowIs(d: Db, rows: seq<(int, Hash)>, height: int, h: Hash) returns (i: nat)
    requires RowsOf(rows, d.pending) && HeldAs(d, (height, h))
    ensures i < |rows| && rows[i] == (height, h)
  {
    i :| i < |rows| && rows[i].0 == height;
  }

  /**
    Over any run: a block is still held after a pass that got a tip exactly when, at its turn, the node
    did not answer for it, or did not give it though the log has it, or the log lacked it and the tip
    is less than 100 above it.
   */
  lemma HeldForWantOfAnAnswer(env: Env, events: seq<Event>, rows: seq<(int, Hash)>, i: nat)
    requires Run(Empty(), env, events) && i < |rows|
    requires var d := End(Empty(), env, events);
      RowsOf(rows, d.pending) && env.tip(d.asked).Some? && env.tip(d.asked) != Some(0)
    ensures var d := End(Empty(), env, events);
      var tip := env.tip(d.asked).value;
      HeldAs(After(d, env, Scan(rows)), rows[i]) <==> StaysHeld(env, BeforeRow(d, env, rows, tip, i).asked, tip, rows[i].0, rows[i].1)
  {
    hide *;
    var d := End(Empty(), env, events);
    RunsAreInOrder(env, events);
    var tip := env.tip(d.asked).value;
    StillHeldExactlyWhen(d, env, rows, tip, i, BeforeRow(d, env, rows, tip, i).asked);
    ScanIsPass(d, env, rows);
  }
}
