/**
  The found-block scanner of pool/server.py, as functions on the tables it keeps: `_scan_block`,
  `recheck_pending_blocks`, `_book_found_block` and `scan_found_blocks`.

  The node and primed's block log are an environment that may answer differently each time it is
  asked: any RPC may fail, the chain may reorganise between any two questions, and the log may be
  unreadable or late. `asked` counts the questions, and answers depend on the count.
 */
module FoundBlocks {
  import opened Prelude
  import opened Ledger

  const COINBASE_TAG := "Lazarus"
  const SOLO_TAG := "Lazarus/solo"
  const SCAN_PENDING_BLOCKS := 100
  const FIRST_HEIGHT := 961640
  const SCAN_BATCH := 40

  predicate StartsAt(text: string, i: int, needle: string) {
    0 <= i <= |text| - |needle| && text[i..i + |needle|] == needle
  }

  /** `needle in text`. */
  predicate Contains(text: string, needle: string) {
    exists i :: 0 <= i <= |text| && StartsAt(text, i, needle)
  }

  /** A block: its coinbase as text, its outputs with value, and whether a solo block pays the pool's fee. */
  datatype Block = Block(text: string, outputs: nat, paysFee: bool) {
    predicate Solo() { Contains(text, SOLO_TAG) }
    predicate Tagged() { Contains(text, COINBASE_TAG) && !Solo() }
  }

  /** What the node and the log answer to question number `n`. A hash always names the same block. */
  datatype Env = Env(
    tip: nat -> Option<int>,
    hashAt: (nat, int) -> Option<Hash>,
    getsBlock: (nat, Hash) -> bool,
    log: nat -> Option<set<Hash>>,
    content: Hash -> Block)
  {
    /** `_prime_knows_block`: None when there is no log to ask. */
    function Knows(n: nat, h: Hash): Option<bool> {
      match log(n) case None => None case Some(hashes) => Some(h in hashes)
    }
  }

  datatype Held = Held(hash: Hash, firstTip: int)

  /**
    The tables, and the history of what was done: the heights the node answered for; the tagged
    blocks looked at, each with the question that named it last; and what became of them after that
    look. `byHand` are those an operator named (`--also`).
   */
  datatype Db = Db(
    found: map<int, Hash>,
    solo: map<int, Hash>,
    pending: map<int, Held>,
    scanHeight: Option<int>,
    book: Book,
    asked: nat,
    first: Option<int>,
    answered: set<int>,
    seen: map<(int, Hash), nat>,
    booked: set<(int, Hash)>,
    gaveUp: set<(int, Hash)>,
    replaced: set<(int, Hash)>,
    flipped: set<(int, Hash)>,
    byHand: set<(int, Hash)>)

  /** The tables of a site that has just been set up. */
  function Empty(): Db {
    Db(map[], map[], map[], None, Book([], map[], [], 0.0), 0, None, {}, map[], {}, {}, {}, {}, {})
  }

  // ---------------------------------------------------------------------------------------
  // The operations

  ghost function BookBlock(d: Db, height: int, h: Hash, outputs: nat): Db {
    d.(found := d.found[height := h],
       booked := d.booked + {(height, h)},
       book := BookRound(d.book, height in d.found, outputs, height, h))
  }

  function Hold(d: Db, height: int, h: Hash, tip: int): Db {
    d.(pending := d.pending[height := Held(h, tip)])
  }

  /** `DELETE FROM scan_pending WHERE height=? AND hash=?` */
  function Unhold(d: Db, height: int, h: Hash): Db {
    if height in d.pending && d.pending[height].hash == h then d.(pending := d.pending - {height}) else d
  }

  /** A tagged block was named by question `at`: whatever became of it before is past. */
  ghost function Seen(s: Db, height: int, h: Hash, at: nat): Db {
    var e := (height, h);
    s.(seen := s.seen[e := at], gaveUp := s.gaveUp - {e}, replaced := s.replaced - {e}, flipped := s.flipped - {e})
  }

  /** A tagged block: booked, or held when the log is there and does not have it. */
  ghost function Judge(s: Db, env: Env, height: int, h: Hash, at: nat, tip: int): Db {
    var k := Seen(s, height, h, at).(asked := s.asked + 1);
    if env.Knows(s.asked, h) == Some(false) then Hold(k, height, h, tip)
    else BookBlock(k, height, h, env.content(h).outputs)
  }

  /** `_scan_block`: the database after it, and whether the node answered. */
  ghost function ScanBlock(d: Db, env: Env, height: int, tip: int): (Db, bool) {
    match env.hashAt(d.asked, height)
    case None => (d.(asked := d.asked + 1), false)
    case Some(h) =>
      if !env.getsBlock(d.asked + 1, h) then (d.(asked := d.asked + 2), false)
      else
        var blk := env.content(h);
        var a := d.(asked := d.asked + 2, answered := d.answered + {height});
        if blk.Solo() then (if blk.paysFee then a.(solo := a.solo[height := h]) else a, true)
        else if !blk.Tagged() then (a, true)
        else (Judge(a, env, height, h, d.asked, tip), true)
  }

  /** A held block that is not on the chain now: its height is looked at again. */
  ghost function LookAgain(a: Db, env: Env, tip: int, height: int, h: Hash): Db {
    var (s, ok) := ScanBlock(a, env, height, tip);
    if !ok then s
    else
      var gone := Unhold(s, height, h);
      if env.hashAt(a.asked, height) != Some(h) then gone.(replaced := gone.replaced + {(height, h)})
      else if env.Knows(a.asked + 2, h) == Some(false) then gone.(flipped := gone.flipped + {(height, h)})
      else gone
  }

  /** A held block that still is: booked once the log has it, given up when it is too deep. */
  ghost function AskAgain(a: Db, env: Env, tip: int, height: int, h: Hash): Db {
    var k := a.(asked := a.asked + 1);
    if env.Knows(a.asked, h) == Some(true) then
      var g := k.(asked := k.asked + 1);
      if env.getsBlock(k.asked, h) then Unhold(BookBlock(g, height, h, env.content(h).outputs), height, h) else g
    else if tip >= height + SCAN_PENDING_BLOCKS then
      Unhold(k.(gaveUp := k.gaveUp + {(height, h)}), height, h)
    else k
  }

  /** One row of `recheck_pending_blocks`. */
  ghost function RecheckRow(d: Db, env: Env, tip: int, height: int, h: Hash): Db {
    var a := d.(asked := d.asked + 1);
    match env.hashAt(d.asked, height)
    case None => a
    case Some(cur) => if cur != h then LookAgain(a, env, tip, height, h) else AskAgain(a, env, tip, height, h)
  }

  ghost function Recheck(d: Db, env: Env, tip: int, rows: seq<(int, Hash)>): Db
    decreases |rows|
  {
    if rows == [] then d else Recheck(RecheckRow(d, env, tip, rows[0].0, rows[0].1), env, tip, rows[1..])
  }

  /** The heights from `height` to `end`, up to the first the node does not answer for; and the last one it did. */
  ghost function ScanRange(d: Db, env: Env, tip: int, height: int, end: int): (Db, int)
    decreases end - height
  {
    if height > end then (d, height - 1)
    else
      var (s, ok) := ScanBlock(d, env, height, tip);
      if ok then ScanRange(s, env, tip, height + 1, end) else (s, height - 1)
  }

  function Max(x: int, y: int): int { if x >= y then x else y }
  function Min(x: int, y: int): int { if x <= y then x else y }

  function ScanStart(d: Db, tip: int): int {
    match d.scanHeight case Some(s) => s + 1 case None => Max(FIRST_HEIGHT, tip - 80)
  }

  /** The rows of `scan_pending` in order of height. */
  ghost predicate RowsOf(rows: seq<(int, Hash)>, pending: map<int, Held>) {
    && (forall i | 0 <= i < |rows| :: rows[i].0 in pending && pending[rows[i].0].hash == rows[i].1)
    && (forall i, j | 0 <= i < j < |rows| :: rows[i].0 < rows[j].0)
    && (forall h | h in pending :: exists i :: 0 <= i < |rows| && rows[i].0 == h)
  }

  /** `scan_found_blocks`; `rows` are the pending rows it reads. */
  ghost function ScanPass(d: Db, env: Env, rows: seq<(int, Hash)>): Db {
    var a := d.(asked := d.asked + 1);
    match env.tip(d.asked)
    case None => a
    case Some(tip) =>
      if tip == 0 then a
      else
        var r := Recheck(a, env, tip, rows);
        var start := ScanStart(r, tip);
        if start > tip then r
        else
          var (s, last) := ScanRange(r, env, tip, start, Min(tip, start + SCAN_BATCH - 1));
          if last >= start then s.(scanHeight := Some(last), first := if s.first.Some? then s.first else Some(start))
          else s
  }

  // ---------------------------------------------------------------------------------------
  // What is kept

  ghost predicate HeldAs(d: Db, e: (int, Hash)) { e.0 in d.pending && d.pending[e.0].hash == e.1 }

  /** The tagged block was booked, is held, was given up, or was replaced. What the last two mean is said in `ScanHistory`. */
  ghost predicate Settled(d: Db, e: (int, Hash)) {
    e in d.booked || HeldAs(d, e) || e in d.gaveUp || e in d.replaced
  }

  /** Every tagged block looked at is settled, unless a second look held the block it had just been told was gone. */
  ghost predicate Accounted(d: Db) {
    && (forall e | e in d.seen :: Settled(d, e) || e in d.flipped)
    && (forall h | h in d.pending :: HeldOk(d, (h, d.pending[h].hash)))
  }

  ghost predicate Marked(d: Db, e: (int, Hash)) { e in d.gaveUp || e in d.replaced || e in d.flipped }

  /** A block that is held was seen, and nothing has become of it since. */
  ghost predicate HeldOk(d: Db, e: (int, Hash)) { e in d.seen && !Marked(d, e) }

  /** `found_blocks` has a row for every height booked, and nothing else. */
  ghost predicate FoundMatches(d: Db) {
    && (forall e | e in d.booked :: e.0 in d.found)
    && (forall h | h in d.found :: (h, d.found[h]) in d.booked)
  }

  /** Nothing is booked on its tag alone while there is a log to ask, unless an operator named it. */
  ghost predicate Vouched(d: Db, env: Env) {
    forall e | e in d.booked ::
      env.content(e.1).Tagged() && (e in d.byHand || exists n :: 0 <= n < d.asked && env.Knows(n, e.1) != Some(false))
  }

  /** Every height from the first one scanned to `scan_height` was answered for; nothing above it is held. */
  ghost predicate NoGap(d: Db, upTo: Option<int>) {
    && upTo.Some? == d.first.Some?
    && (upTo.Some? ==> forall h | d.first.value <= h <= upTo.value :: h in d.answered)
    && (forall h | h in d.pending :: upTo.Some? && h <= upTo.value)
  }

  ghost predicate TablesOk(d: Db, env: Env) {
    Accounted(d) && FoundMatches(d) && Vouched(d, env) && BookOk(d.book)
    && forall e | e in d.seen :: env.content(e.1).Tagged()
  }

  // ---------------------------------------------------------------------------------------
  // Every operation keeps it

  /** Everything seen is accounted for, but perhaps block `x`. */
  ghost predicate AccountedBut(d: Db, x: (int, Hash)) {
    && (forall e | e in d.seen :: Settled(d, e) || e in d.flipped || e == x)
    && (forall h | h in d.pending && (h, d.pending[h].hash) != x :: HeldOk(d, (h, d.pending[h].hash)))
  }

  /** Booking a block settles it, and leaves the tables matching and the ledger in order. */
  lemma BookingSettles(d: Db, height: int, h: Hash, outputs: nat)
    requires AccountedBut(d, (height, h)) && (HeldAs(d, (height, h)) ==> HeldOk(d, (height, h)))
    requires FoundMatches(d) && BookOk(d.book)
    ensures var s := BookBlock(d, height, h, outputs);
      Accounted(s) && FoundMatches(s) && BookOk(s.book) && s.seen == d.seen
  {
    BookRoundKeeps(d.book, height in d.found, outputs, height, h);
    BookingMatches(d, height, h, outputs);
    hide BookRound, BookOk, FoundMatches, HeldOk;
  }

  lemma BookingMatches(d: Db, height: int, h: Hash, outputs: nat)
    requires FoundMatches(d)
    ensures FoundMatches(BookBlock(d, height, h, outputs))
    ensures forall e :: HeldOk(d, e) ==> HeldOk(BookBlock(d, height, h, outputs), e)
  {
    hide BookRound;
  }

  /** Holding a block settles it; at most the block held at its height before is left over. */
  lemma HoldingSettles(d: Db, height: int, h: Hash, tip: int)
    requires AccountedBut(d, (height, h)) && HeldOk(d, (height, h))
    ensures var s := Hold(d, height, h, tip);
      && (forall e | e in s.seen :: Settled(s, e) || e in s.flipped || (e.0 == height && HeldAs(d, e)))
      && (forall n | n in s.pending :: HeldOk(s, (n, s.pending[n].hash)))
  {
  }

  /** Looked at, and at most a block held at the same height before left unaccounted. */
  ghost predicate LookKeeps(d: Db, s: Db, env: Env, height: int) {
    && (forall e | e in s.seen :: Settled(s, e) || e in s.flipped || (e.0 == height && HeldAs(d, e)))
    && (forall h | h in s.pending :: HeldOk(s, (h, s.pending[h].hash)))
    && FoundMatches(s) && BookOk(s.book) && (forall e | e in s.seen :: env.content(e.1).Tagged())
  }

  lemma SeenLeavesOne(d: Db, env: Env, height: int, h: Hash, at: nat)
    requires TablesOk(d, env) && env.content(h).Tagged()
    ensures var k := Seen(d, height, h, at).(asked := d.asked + 1);
      && AccountedBut(k, (height, h)) && HeldOk(k, (height, h)) && FoundMatches(k) && BookOk(k.book)
      && k.pending == d.pending && (forall e | e in k.seen :: env.content(e.1).Tagged())
  {
    hide BookOk, Contains;
  }

  lemma BookingKeepsLook(d: Db, k: Db, env: Env, height: int, h: Hash)
    requires AccountedBut(k, (height, h)) && HeldOk(k, (height, h)) && FoundMatches(k) && BookOk(k.book)
    requires forall e | e in k.seen :: env.content(e.1).Tagged()
    ensures LookKeeps(d, BookBlock(k, height, h, env.content(h).outputs), env, height)
  {
    BookingSettles(k, height, h, env.content(h).outputs);
    hide BookBlock, BookOk, Contains, AccountedBut, HeldOk, Settled, FoundMatches;
  }

  lemma HoldingKeepsLook(d: Db, k: Db, env: Env, height: int, h: Hash, tip: int)
    requires AccountedBut(k, (height, h)) && HeldOk(k, (height, h)) && FoundMatches(k) && BookOk(k.book)
    requires k.pending == d.pending && forall e | e in k.seen :: env.content(e.1).Tagged()
    ensures LookKeeps(d, Hold(k, height, h, tip), env, height)
  {
    HoldingSettles(k, height, h, tip);
    hide BookOk, Contains, AccountedBut, HeldOk, Settled;
  }

  lemma JudgeKeeps(d: Db, env: Env, height: int, h: Hash, at: nat, tip: int)
    requires TablesOk(d, env) && env.content(h).Tagged()
    ensures LookKeeps(d, Judge(d, env, height, h, at, tip), env, height)
  {
    hide LookKeeps, BookBlock, Hold, BookOk, Contains, Seen, AccountedBut, HeldOk, TablesOk, FoundMatches;
    SeenLeavesOne(d, env, height, h, at);
    var k := Seen(d, height, h, at).(asked := d.asked + 1);
    BookingKeepsLook(d, k, env, height, h);
    HoldingKeepsLook(d, k, env, height, h, tip);
  }

  /** A look that sees no tagged block. */
  lemma NothingSeenKeeps(d: Db, s: Db, env: Env, height: int)
    requires TablesOk(d, env) && s == d.(asked := s.asked, answered := s.answered, solo := s.solo) && s.asked >= d.asked
    ensures LookKeeps(d, s, env, height) && TablesOk(s, env)
  {
    hide BookOk, Contains;
    VouchedLater(d, s, env);
    hide Vouched;
  }

  lemma ScanBlockKeeps(d: Db, env: Env, height: int, tip: int)
    requires TablesOk(d, env)
    ensures LookKeeps(d, ScanBlock(d, env, height, tip).0, env, height)
  {
    hide Judge, LookKeeps, TablesOk, Contains;
    var s := ScanBlock(d, env, height, tip).0;
    if env.hashAt(d.asked, height).Some? && env.getsBlock(d.asked + 1, env.hashAt(d.asked, height).value)
        && env.content(env.hashAt(d.asked, height).value).Tagged() {
      var a := d.(asked := d.asked + 2, answered := d.answered + {height});
      NothingSeenKeeps(d, a, env, height);
      JudgeKeeps(a, env, height, env.hashAt(d.asked, height).value, d.asked, tip);
      assert s == Judge(a, env, height, env.hashAt(d.asked, height).value, d.asked, tip);
      SameLook(d, a, s, env, height);
    } else {
      NothingSeenKeeps(d, s, env, height);
    }
  }

  lemma SameLook(d: Db, a: Db, s: Db, env: Env, height: int)
    requires a.pending == d.pending
    ensures LookKeeps(a, s, env, height) == LookKeeps(d, s, env, height)
  {
  }

  lemma JudgeVouches(a: Db, env: Env, height: int, h: Hash, at: nat, tip: int)
    requires Vouched(a, env) && env.content(h).Tagged()
    ensures Vouched(Judge(a, env, height, h, at, tip), env)
  {
    hide BookRound, Contains;
    var s := Judge(a, env, height, h, at, tip);
    forall e | e in s.booked
      ensures env.content(e.1).Tagged() && (e in s.byHand || exists n :: 0 <= n < s.asked && env.Knows(n, e.1) != Some(false))
    {
      if e in a.booked {
        if e !in a.byHand {
          var n :| 0 <= n < a.asked && env.Knows(n, e.1) != Some(false);
          assert 0 <= n < s.asked && env.Knows(n, e.1) != Some(false);
        }
      } else {
        assert env.Knows(a.asked, e.1) != Some(false);
      }
    }
  }

  lemma ScanBlockVouches(d: Db, env: Env, height: int, tip: int)
    requires Vouched(d, env)
    ensures Vouched(ScanBlock(d, env, height, tip).0, env)
  {
    hide Judge, Vouched, Contains;
    var s := ScanBlock(d, env, height, tip).0;
    var h := match env.hashAt(d.asked, height) case Some(h) => h case None => 0;
    var a := d.(asked := d.asked + 2, answered := d.answered + {height});
    VouchedLater(d, a, env);
    if env.content(h).Tagged() {
      JudgeVouches(a, env, height, h, d.asked, tip);
    }
    if s.booked == d.booked && s.byHand == d.byHand && s.asked >= d.asked {
      VouchedLater(d, s, env);
    }
  }

  lemma JudgeFrame(a: Db, env: Env, height: int, h: Hash, at: nat, tip: int)
    ensures var s := Judge(a, env, height, h, at, tip);
      && s.scanHeight == a.scanHeight && s.first == a.first && s.byHand == a.byHand && s.answered == a.answered && s.asked == a.asked + 1
      && (forall n | n != height :: (n in s.pending <==> n in a.pending) && (n in s.pending ==> s.pending[n] == a.pending[n]))
      && (height in s.pending && s.pending != a.pending ==> s.pending[height].hash == h)
  {
    hide BookRound, Contains;
  }

  /** What a look at one height leaves alone. */
  lemma ScanBlockFrame(d: Db, env: Env, height: int, tip: int)
    ensures var (s, ok) := ScanBlock(d, env, height, tip);
      && s.scanHeight == d.scanHeight && s.first == d.first && s.byHand == d.byHand && s.asked >= d.asked
      && (ok ==> s.answered == d.answered + {height}) && (!ok ==> s.answered == d.answered)
      && (forall h | h != height :: (h in s.pending <==> h in d.pending) && (h in s.pending ==> s.pending[h] == d.pending[h]))
      && (ok ==> env.hashAt(d.asked, height).Some?)
      && (height in s.pending && s.pending != d.pending ==> env.hashAt(d.asked, height) == Some(s.pending[height].hash))
      && (!ok ==> s == d.(asked := s.asked))
  {
    hide Judge, Contains;
    var h := match env.hashAt(d.asked, height) case Some(h) => h case None => 0;
    JudgeFrame(d.(asked := d.asked + 2, answered := d.answered + {height}), env, height, h, d.asked, tip);
  }

  lemma UnholdSettles(d: Db, height: int, h: Hash)
    requires AccountedBut(d, (height, h))
    requires (height, h) in d.booked || (height, h) in d.gaveUp || (height, h) in d.replaced || (height, h) in d.flipped
    ensures Accounted(Unhold(d, height, h))
  {
  }

  lemma RecheckRowKeeps(d: Db, env: Env, tip: int, height: int, h: Hash)
    requires TablesOk(d, env) && HeldAs(d, (height, h))
    ensures TablesOk(RecheckRow(d, env, tip, height, h), env)
  {
    hide TablesOk, LookAgain, AskAgain;
    var a := d.(asked := d.asked + 1);
    StillOk(d, a, env);
    if env.hashAt(d.asked, height).Some? {
      if env.hashAt(d.asked, height).value != h {
        LookAgainKeeps(a, env, tip, height, h);
      } else {
        HeldRowKeeps(a, env, tip, height, h);
      }
    }
  }

  lemma LookAgainKeeps(a: Db, env: Env, tip: int, height: int, h: Hash)
    requires TablesOk(a, env) && HeldAs(a, (height, h))
    ensures TablesOk(LookAgain(a, env, tip, height, h), env)
  {
    assert env.content(h).Tagged() by { assert HeldOk(a, (height, h)); }
    hide BookOk, ScanBlock, BookRound, Contains, Accounted, FoundMatches, Vouched;
    ScanBlockKeeps(a, env, height, tip);
    ScanBlockVouches(a, env, height, tip);
    ScanBlockFrame(a, env, height, tip);
    var s := ScanBlock(a, env, height, tip).0;
    if ScanBlock(a, env, height, tip).1 {
      if env.hashAt(a.asked, height) == Some(h) {
        RelookBooks(a, env, height, h, tip);
      }
      RelookKeeps(a, s, env, tip, height, h);
    } else {
      StillOk(a, s, env);
    }
  }

  lemma RelookKeeps(a: Db, s: Db, env: Env, tip: int, height: int, h: Hash)
    requires ScanBlock(a, env, height, tip) == (s, true) && HeldAs(a, (height, h))
    requires LookKeeps(a, s, env, height) && Vouched(s, env)
    requires env.hashAt(a.asked, height) == Some(h) && env.Knows(a.asked + 2, h) != Some(false) ==> (height, h) in s.booked
    ensures TablesOk(LookAgain(a, env, tip, height, h), env)
  {
    hide ScanBlock, LookKeeps, AccountedBut, Accounted, FoundMatches, Vouched, BookOk, Contains;
    var r := LookAgain(a, env, tip, height, h);
    LookLeavesOne(a, s, env, height, h);
    RelookSettles(s, r, height, h);
    VouchedLater(s, r, env);
    RowsMatchStill(s, r);
  }

  lemma LookLeavesOne(a: Db, s: Db, env: Env, height: int, h: Hash)
    requires LookKeeps(a, s, env, height) && HeldAs(a, (height, h))
    ensures AccountedBut(s, (height, h)) && FoundMatches(s) && BookOk(s.book) && forall e | e in s.seen :: env.content(e.1).Tagged()
  {
    hide BookOk, Contains, Settled, HeldOk, FoundMatches;
  }

  lemma RowsMatchStill(s: Db, r: Db)
    requires FoundMatches(s) && r.found == s.found && r.booked == s.booked
    ensures FoundMatches(r)
  {
  }

  /** A look that finds the held block itself books it, unless the log is there and lacks it. */
  lemma RelookBooks(a: Db, env: Env, height: int, h: Hash, tip: int)
    requires env.content(h).Tagged() && env.hashAt(a.asked, height) == Some(h)
    ensures var (s, ok) := ScanBlock(a, env, height, tip);
      ok && env.Knows(a.asked + 2, h) != Some(false) ==> (height, h) in s.booked
  {
    hide BookRound, Contains;
  }

  lemma VouchedLater(d: Db, s: Db, env: Env)
    requires Vouched(d, env) && s.booked == d.booked && s.byHand == d.byHand && s.asked >= d.asked
    ensures Vouched(s, env)
  {
    forall e | e in s.booked
      ensures env.content(e.1).Tagged() && (e in s.byHand || exists n :: 0 <= n < s.asked && env.Knows(n, e.1) != Some(false))
    {
      if e !in d.byHand {
        var n :| 0 <= n < d.asked && env.Knows(n, e.1) != Some(false);
        assert 0 <= n < s.asked && env.Knows(n, e.1) != Some(false);
      }
    }
  }

  /** A held block the chain has dropped: its height has just been looked at again, and its row goes. */
  lemma RelookSettles(s: Db, r: Db, height: int, h: Hash)
    requires AccountedBut(s, (height, h)) && r == Unhold(s, height, h).(flipped := r.flipped, replaced := r.replaced)
    requires r.flipped == s.flipped || r.flipped == s.flipped + {(height, h)}
    requires r.replaced == s.replaced || r.replaced == s.replaced + {(height, h)}
    requires (height, h) in r.flipped || (height, h) in r.replaced || (height, h) in s.booked
    ensures Accounted(r)
  {
  }

  /** A held block still on the chain: booked once the log has it, dropped once it is too deep. */
  lemma HeldRowKeeps(a: Db, env: Env, tip: int, height: int, h: Hash)
    requires TablesOk(a, env) && HeldAs(a, (height, h))
    ensures TablesOk(AskAgain(a, env, tip, height, h), env)
  {
    hide TablesOk, BookBlock, Unhold, Contains;
    var k := a.(asked := a.asked + 1);
    var g := k.(asked := k.asked + 1);
    StillOk(a, k, env);
    StillOk(k, g, env);
    assert HeldAs(g, (height, h)) && HeldAs(k, (height, h));
    if env.Knows(a.asked, h) == Some(true) {
      LoggedRowKeeps(g, env, height, h);
    } else {
      DeepRowKeeps(k, env, height, h);
    }
  }

  lemma StillOk(d: Db, s: Db, env: Env)
    requires TablesOk(d, env) && s == d.(asked := s.asked) && s.asked >= d.asked
    ensures TablesOk(s, env)
  {
    VouchedLater(d, s, env);
    hide BookOk;
  }

  lemma DeepRowKeeps(k: Db, env: Env, height: int, h: Hash)
    requires TablesOk(k, env) && HeldAs(k, (height, h))
    ensures TablesOk(Unhold(k.(gaveUp := k.gaveUp + {(height, h)}), height, h), env)
  {
    hide BookOk;
    UnholdSettles(k.(gaveUp := k.gaveUp + {(height, h)}), height, h);
  }

  lemma LoggedRowKeeps(g: Db, env: Env, height: int, h: Hash)
    requires TablesOk(g, env) && HeldAs(g, (height, h))
    requires exists n :: 0 <= n < g.asked && env.Knows(n, h) != Some(false)
    ensures TablesOk(Unhold(BookBlock(g, height, h, env.content(h).outputs), height, h), env)
  {
    hide BookOk, BookRound, Contains;
    var b := BookBlock(g, height, h, env.content(h).outputs);
    BookingSettles(g, height, h, env.content(h).outputs);
    UnholdSettles(b, height, h);
    forall e | e in b.booked
      ensures env.content(e.1).Tagged() && (e in b.byHand || exists n :: 0 <= n < b.asked && env.Knows(n, e.1) != Some(false))
    {
      if e in g.byHand {
      } else if e in g.booked {
        var n :| 0 <= n < g.asked && env.Knows(n, e.1) != Some(false);
        assert 0 <= n < b.asked && env.Knows(n, e.1) != Some(false);
      }
    }
  }

  /** Rechecking one row leaves the other rows as they are. */
  ghost predicate RowFrame(d: Db, r: Db, height: int) {
    && r.scanHeight == d.scanHeight && r.first == d.first && d.answered <= r.answered
    && (forall n | n != height :: (n in r.pending <==> n in d.pending) && (n in r.pending ==> r.pending[n] == d.pending[n]))
    && forall n | n in r.pending :: n in d.pending
  }

  lemma LookAgainFrame(d: Db, a: Db, env: Env, tip: int, height: int, h: Hash)
    requires HeldAs(d, (height, h)) && a == d.(asked := a.asked)
    ensures RowFrame(d, LookAgain(a, env, tip, height, h), height)
  {
    hide BookRound, ScanBlock;
    ScanBlockFrame(a, env, height, tip);
  }

  lemma AskAgainFrame(d: Db, a: Db, env: Env, tip: int, height: int, h: Hash)
    requires HeldAs(d, (height, h)) && a == d.(asked := a.asked)
    ensures RowFrame(d, AskAgain(a, env, tip, height, h), height)
  {
    hide BookRound;
  }

  lemma FrameOfCall(d: Db, a: Db, height: int)
    requires a == d.(asked := a.asked)
    ensures RowFrame(d, a, height)
  {
  }

  lemma RecheckRowFrame(d: Db, env: Env, tip: int, height: int, h: Hash)
    requires HeldAs(d, (height, h))
    ensures RowFrame(d, RecheckRow(d, env, tip, height, h), height)
  {
    hide LookAgain, AskAgain, RowFrame, HeldAs;
    var a := d.(asked := d.asked + 1);
    LookAgainFrame(d, a, env, tip, height, h);
    AskAgainFrame(d, a, env, tip, height, h);
    FrameOfCall(d, a, height);
    RowIsOneOfThree(d, env, tip, height, h);
    hide *;
  }

  lemma RowIsOneOfThree(d: Db, env: Env, tip: int, height: int, h: Hash)
    ensures var a := d.(asked := d.asked + 1);
      RecheckRow(d, env, tip, height, h) in [a, LookAgain(a, env, tip, height, h), AskAgain(a, env, tip, height, h)]
  {
    hide LookAgain, AskAgain;
  }

  ghost predicate StillHeld(rows: seq<(int, Hash)>, d: Db) {
    && (forall i | 0 <= i < |rows| :: HeldAs(d, rows[i]))
    && (forall i, j | 0 <= i < j < |rows| :: rows[i].0 < rows[j].0)
  }

  lemma {:induction false} RecheckKeeps(d: Db, env: Env, tip: int, rows: seq<(int, Hash)>)
    requires TablesOk(d, env) && StillHeld(rows, d)
    ensures var r := Recheck(d, env, tip, rows);
      TablesOk(r, env) && r.scanHeight == d.scanHeight && r.first == d.first && d.answered <= r.answered
      && (forall n | n in r.pending :: n in d.pending)
    decreases |rows|
  {
    if rows != [] {
      hide RecheckRow, TablesOk;
      RecheckRowKeeps(d, env, tip, rows[0].0, rows[0].1);
      RecheckRowFrame(d, env, tip, rows[0].0, rows[0].1);
      RecheckKeeps(RecheckRow(d, env, tip, rows[0].0, rows[0].1), env, tip, rows[1..]);
    }
  }

  /** Scanning on from a height nothing at or above which is held. */
  lemma {:induction false} ScanRangeKeeps(d: Db, env: Env, tip: int, height: int, end: int)
    requires TablesOk(d, env) && forall h | h in d.pending :: h < height
    ensures var (s, last) := ScanRange(d, env, tip, height, end);
      && TablesOk(s, env) && s.scanHeight == d.scanHeight && s.first == d.first
      && height - 1 <= last && (last <= end || last == height - 1)
      && d.answered <= s.answered && (forall h | height <= h <= last :: h in s.answered)
      && (forall h | h in s.pending :: h <= last)
      && (last < height ==> s.pending == d.pending)
    decreases end - height
  {
    if height <= end {
      hide TablesOk, ScanBlock;
      ScanBlockInRange(d, env, height, tip);
      ScanBlockFrame(d, env, height, tip);
      var (s, ok) := ScanBlock(d, env, height, tip);
      if ok {
        ScanRangeKeeps(s, env, tip, height + 1, end);
      }
    }
  }

  lemma ScanBlockInRange(d: Db, env: Env, height: int, tip: int)
    requires TablesOk(d, env) && height !in d.pending
    ensures TablesOk(ScanBlock(d, env, height, tip).0, env)
  {
    hide ScanBlock, BookOk, Contains;
    ScanBlockKeeps(d, env, height, tip);
    ScanBlockVouches(d, env, height, tip);
  }

  lemma TablesKeepScanHeight(s: Db, env: Env, at: Option<int>, first: Option<int>)
    requires TablesOk(s, env)
    ensures TablesOk(s.(scanHeight := at, first := first), env)
  {
    hide BookOk, Contains;
    VouchedLater(s, s.(scanHeight := at, first := first), env);
  }
}
