/**
  Whole runs of the pool site's tables: passes of the scanner, credited work, maturing rounds,
  plans and backfills, in any order and number, against a node and a log that answer as they please.
 */
module ScannerRuns {
  import opened Prelude
  import opened Ledger
  import opened FoundBlocks
  import opened ScanHistory
  import opened Backfill

  datatype Event =
    | Scan(rows: seq<(int, Hash)>)
    | Credit(address: Address, diff: int)
    | Matured(due: int -> bool)
    | Planned
    | Filled(blocks: seq<Listed>)

  /**
    A pass reads the pending rows there are. A backfill applies blocks a plan may list: `plan` asks
    for the log at one time and `apply` runs at any later one.
   */
  ghost predicate May(d: Db, env: Env, e: Event) {
    match e
    case Scan(rows) => RowsOf(rows, d.pending)
    case Filled(blocks) => forall b <- blocks ::
      env.content(b.hash).Tagged() && (b.source == PrimeLog ==> exists n :: 0 <= n < d.asked && env.Knows(n, b.hash) == Some(true))
    case _ => true
  }

  ghost function After(d: Db, env: Env, e: Event): Db {
    match e
    case Scan(rows) => ScanPass(d, env, rows)
    case Credit(a, diff) => d.(book := CreditWork(d.book, a, diff))
    case Matured(due) => d.(book := Mature(d.book, due))
    case Planned => d.(asked := d.asked + 1)
    case Filled(blocks) => Apply(d, blocks)
  }

  ghost predicate Run(d: Db, env: Env, events: seq<Event>)
    decreases |events|
  {
    events == [] || (May(d, env, events[0]) && Run(After(d, env, events[0]), env, events[1..]))
  }

  ghost function End(d: Db, env: Env, events: seq<Event>): Db
    decreases |events|
  {
    if events == [] then d else End(After(d, env, events[0]), env, events[1..])
  }

  lemma ApplyOneKeeps(d: Db, env: Env, b: Listed)
    requires AllInOrder(d, env) && env.content(b.hash).Tagged()
    requires b.source == PrimeLog ==> exists n :: 0 <= n < d.asked && env.Knows(n, b.hash) == Some(true)
    ensures AllInOrder(ApplyOne(d, b), env)
  {
    var s := ApplyOne(d, b);
    hide Explained;
    SameMarksLater(d, s, env);
    OneIsVouched(d, env, b);
    OneIsBooked(d, env, b);
    hide BookOk, RecordRoundOnly, Vouched, Accounted, FoundMatches, ApplyOne;
  }

  lemma OneIsBooked(d: Db, env: Env, b: Listed)
    requires AllInOrder(d, env)
    ensures var s := ApplyOne(d, b);
      Accounted(s) && FoundMatches(s) && BookOk(s.book) && s.seen == d.seen && NoGap(s, s.scanHeight)
  {
    LateBlockLeavesTheRunningRound(d.book, b.height, b.hash);
    hide BookOk, RecordRoundOnly, OpenRound, Explained, Vouched;
  }

  lemma OneIsVouched(d: Db, env: Env, b: Listed)
    requires Vouched(d, env) && env.content(b.hash).Tagged()
    requires b.source == PrimeLog ==> exists n :: 0 <= n < d.asked && env.Knows(n, b.hash) == Some(true)
    ensures Vouched(ApplyOne(d, b), env)
  {
    hide RecordRoundOnly, Contains;
    var s := ApplyOne(d, b);
    forall e | e in s.booked
      ensures env.content(e.1).Tagged() && (e in s.byHand || exists n :: 0 <= n < s.asked && env.Knows(n, e.1) != Some(false))
    {
      if e in d.booked && e !in d.byHand {
        var n :| 0 <= n < d.asked && env.Knows(n, e.1) != Some(false);
        assert 0 <= n < s.asked && env.Knows(n, e.1) != Some(false);
      }
    }
  }

  lemma {:induction false} ApplyKeeps(d: Db, env: Env, blocks: seq<Listed>)
    requires AllInOrder(d, env) && May(d, env, Filled(blocks))
    ensures AllInOrder(Apply(d, blocks), env) && Apply(d, blocks).asked == d.asked
  {
    if blocks != [] {
      hide AllInOrder;
      var n := |blocks| - 1;
      ApplyKeeps(d, env, blocks[..n]);
      assert blocks[n] in blocks;
      ApplyOneKeeps(Apply(d, blocks[..n]), env, blocks[n]);
    }
  }

  lemma BookChangeKeeps(d: Db, env: Env, b: Book)
    requires AllInOrder(d, env) && BookOk(b)
    ensures AllInOrder(d.(book := b), env)
  {
    hide BookOk, Contains, Explained;
    VouchedLater(d, d.(book := b), env);
    SameMarksLater(d, d.(book := b), env);
  }

  lemma AskingKeeps(d: Db, env: Env)
    requires AllInOrder(d, env)
    ensures AllInOrder(d.(asked := d.asked + 1), env)
  {
    hide TablesOk, Explained;
    StillOk(d, d.(asked := d.asked + 1), env);
    SameMarksLater(d, d.(asked := d.asked + 1), env);
  }

  lemma EventKeeps(d: Db, env: Env, e: Event)
    requires AllInOrder(d, env) && May(d, env, e)
    ensures AllInOrder(After(d, env, e), env)
  {
    match e
    case Scan(rows) => PassKeepsOrder(d, env, rows);
    case Credit(a, diff) => CreditKeeps(d.book, a, diff); BookChangeKeeps(d, env, CreditWork(d.book, a, diff));
    case Matured(due) => MatureKeeps(d.book, due); BookChangeKeeps(d, env, Mature(d.book, due));
    case Planned => AskingKeeps(d, env);
    case Filled(blocks) => ApplyKeeps(d, env, blocks);
  }

  lemma {:induction false} RunKeeps(d: Db, env: Env, events: seq<Event>)
    requires AllInOrder(d, env) && Run(d, env, events)
    ensures AllInOrder(End(d, env, events), env)
    decreases |events|
  {
    if events != [] {
      hide AllInOrder, May;
      EventKeeps(d, env, events[0]);
      RunKeeps(After(d, env, events[0]), env, events[1..]);
    }
  }

  /** Everything the tables keep, over every run from an empty database. */
  lemma RunsAreInOrder(env: Env, events: seq<Event>)
    requires Run(Empty(), env, events)
    ensures AllInOrder(End(Empty(), env, events), env)
  {
    RunKeeps(Empty(), env, events);
  }

  // ---------------------------------------------------------------------------------------
  // The promises, read off

  /**
    The scanner leaves no gap: for every height from the first start to `scan_height` the node named
    a block and gave it, and a tag in its coinbase was acted upon. The first start is where the tip
    then answered says.
   */
  lemma NoHeightIsSkipped(env: Env, events: seq<Event>, height: int)
    requires Run(Empty(), env, events)
    requires var d := End(Empty(), env, events);
      d.scanHeight.Some? && d.first.Some? && d.first.value <= height <= d.scanHeight.value
    ensures var d := End(Empty(), env, events);
      && (exists n: nat, x :: LookedAt(d, env, n, height, x))
      && (exists n: nat :: n < d.asked && Began(env, n, d.first.value))
  {
    RunsAreInOrder(env, events);
    assert Visited(End(Empty(), env, events), env, height);
  }

  /** What became of a tagged block after question `since`. */
  ghost predicate Outcome(d: Db, env: Env, e: (int, Hash), since: nat) {
    || (e in d.booked && e.0 in d.found)
    || HeldAs(d, e)
    || TooDeep(d, env, e, since)
    || Replaced(d, env, e, since)
  }

  /** Question `at` named the block in a look that began by finding it gone, and the log still lacked it. */
  ghost predicate FlipsBackAt(env: Env, at: nat, height: int, h: Hash) { at > 0 && FlipsBack(env, at - 1, height, h) }

  /**
    Nothing tagged is lost. A tagged block that was looked at was named by the node, at question
    `d.seen[e]` for the last time; and it is booked, or held, or since then the log still did not
    have it under a tip SCAN_PENDING_BLOCKS above it, or since then another block was named at its
    height and looked at. But for one case: at that last look the chain had just flipped back to it,
    while the log lacked it.
   */
  lemma NothingTaggedIsLost(env: Env, events: seq<Event>, height: int, h: Hash)
    requires Run(Empty(), env, events)
    requires var d := End(Empty(), env, events); (height, h) in d.seen && !FlipsBackAt(env, d.seen[(height, h)], height, h)
    ensures var d := End(Empty(), env, events);
      && Outcome(d, env, (height, h), d.seen[(height, h)])
      && d.seen[(height, h)] + 1 < d.asked && Gave(env, d.seen[(height, h)], height, h)
  {
    RunsAreInOrder(env, events);
    var d := End(Empty(), env, events);
    assert SeenIs(d, env, (height, h));
    assert (height, h) in d.flipped ==> FlippedIs(d, env, (height, h));
    assert (height, h) in d.gaveUp ==> GaveUpIs(d, env, (height, h));
    assert (height, h) in d.replaced ==> ReplacedIs(d, env, (height, h));
    hide FlipsBack, TooDeep, Replaced, Gave, Explained, End, Run;
  }

  /** After question `since`, a block without the pool's tag was named at the height and looked at. */
  ghost predicate UntaggedTookOver(d: Db, env: Env, height: int, since: nat) {
    exists n: nat, x :: since < n && !env.content(x).Tagged() && LookedAt(d, env, n, height, x)
  }

  /** So the tagged block looked at last at its height is never the one that was merely replaced, unless by an untagged one. */
  lemma TheLatestIsKept(env: Env, events: seq<Event>, height: int, h: Hash)
    requires Run(Empty(), env, events)
    requires var d := End(Empty(), env, events); (height, h) in d.seen && !FlipsBackAt(env, d.seen[(height, h)], height, h)
    requires var d := End(Empty(), env, events); forall x | (height, x) in d.seen :: d.seen[(height, x)] <= d.seen[(height, h)]
    ensures var d := End(Empty(), env, events);
      var e, since := (height, h), d.seen[(height, h)];
      (e in d.booked && height in d.found) || HeldAs(d, e) || TooDeep(d, env, e, since) || UntaggedTookOver(d, env, height, since)
  {
    NothingTaggedIsLost(env, events, height, h);
    var d := End(Empty(), env, events);
    var e, since := (height, h), d.seen[(height, h)];
    hide End, Run, TooDeep, Gave, FlipsBackAt;
    if Replaced(d, env, e, since) {
      var n: nat, x :| since < n && x != h && LookedAt(d, env, n, height, x);
      assert !env.content(x).Tagged();
    }
  }

  /** An operator named the block to a backfill that was applied. */
  ghost predicate Named(events: seq<Event>, height: int, h: Hash) {
    exists i, b :: 0 <= i < |events| && NamedIn(events[i], b, height, h)
  }

  ghost predicate NamedIn(e: Event, b: Listed, height: int, h: Hash) {
    e.Filled? && b in e.blocks && b.source == Operator && b.height == height && b.hash == h
  }

  lemma {:induction false} ApplyNames(d: Db, blocks: seq<Listed>, height: int, h: Hash)
    requires (height, h) in Apply(d, blocks).byHand && (height, h) !in d.byHand
    ensures exists b :: NamedIn(Filled(blocks), b, height, h)
  {
    if blocks != [] {
      var n := |blocks| - 1;
      if (height, h) in Apply(d, blocks[..n]).byHand {
        ApplyNames(d, blocks[..n], height, h);
        var b :| NamedIn(Filled(blocks[..n]), b, height, h);
        assert NamedIn(Filled(blocks), b, height, h);
      } else {
        assert blocks[n] in blocks;
        assert NamedIn(Filled(blocks), blocks[n], height, h);
      }
    }
  }

  lemma {:induction false} RecheckNamesNone(d: Db, env: Env, tip: int, rows: seq<(int, Hash)>)
    ensures Recheck(d, env, tip, rows).byHand == d.byHand
    decreases |rows|
  {
    if rows != [] {
      RowNamesNone(d, env, tip, rows[0].0, rows[0].1);
      hide RecheckRow;
      RecheckNamesNone(RecheckRow(d, env, tip, rows[0].0, rows[0].1), env, tip, rows[1..]);
    }
  }

  lemma RowNamesNone(d: Db, env: Env, tip: int, height: int, h: Hash)
    ensures RecheckRow(d, env, tip, height, h).byHand == d.byHand
  {
    hide ScanBlock, BookRound;
    ScanBlockFrame(d.(asked := d.asked + 1), env, height, tip);
  }

  lemma {:induction false} RangeNamesNone(d: Db, env: Env, tip: int, height: int, end: int)
    ensures ScanRange(d, env, tip, height, end).0.byHand == d.byHand
    decreases end - height
  {
    if height <= end {
      hide ScanBlock;
      ScanBlockFrame(d, env, height, tip);
      RangeNamesNone(ScanBlock(d, env, height, tip).0, env, tip, height + 1, end);
    }
  }

  lemma EventNames(d: Db, env: Env, e: Event, height: int, h: Hash)
    requires (height, h) in After(d, env, e).byHand && (height, h) !in d.byHand
    ensures exists b :: NamedIn(e, b, height, h)
  {
    match e
    case Scan(rows) =>
      hide Recheck, ScanRange;
      var a := d.(asked := d.asked + 1);
      var tip := env.tip(d.asked);
      if tip.Some? {
        RecheckNamesNone(a, env, tip.value, rows);
        var r := Recheck(a, env, tip.value, rows);
        var start := ScanStart(r, tip.value);
        RangeNamesNone(r, env, tip.value, start, FoundBlocks.Min(tip.value, start + SCAN_BATCH - 1));
      }
    case Filled(blocks) => ApplyNames(d, blocks, height, h);
    case _ =>
  }

  /** Only an operator's `--also` gets a block booked that the log never vouched for. */
  lemma {:induction false} ByHandIsNamed(d: Db, env: Env, events: seq<Event>, height: int, h: Hash)
    requires (height, h) in End(d, env, events).byHand && (height, h) !in d.byHand
    ensures Named(events, height, h)
    decreases |events|
  {
    if events != [] {
      hide After;
      var s := After(d, env, events[0]);
      if (height, h) in s.byHand {
        EventNames(d, env, events[0], height, h);
        var b :| NamedIn(events[0], b, height, h);
        assert 0 <= 0 < |events| && NamedIn(events[0], b, height, h);
      } else {
        ByHandIsNamed(s, env, events[1..], height, h);
        var i, b :| 0 <= i < |events[1..]| && NamedIn(events[1..][i], b, height, h);
        assert NamedIn(events[i + 1], b, height, h);
      }
    }
  }

  /** A block that the log never has, while it can be read, is never booked, unless an operator names it. */
  lemma ForgedTagsAreNotBooked(env: Env, events: seq<Event>, height: int, h: Hash)
    requires Run(Empty(), env, events)
    requires forall n: nat :: env.Knows(n, h) == Some(false)
    requires !Named(events, height, h)
    ensures var d := End(Empty(), env, events);
      (height, h) !in d.booked && !(height in d.found && d.found[height] == h)
  {
    RunsAreInOrder(env, events);
    var d := End(Empty(), env, events);
    if (height, h) in d.byHand {
      ByHandIsNamed(Empty(), env, events, height, h);
    }
    hide Named;
  }

  /** The ledger: at most one open round, one round to a height, rising closings, and no work lost or made up. */
  lemma LedgerIsInOrder(env: Env, events: seq<Event>)
    requires Run(Empty(), env, events)
    ensures var b := End(Empty(), env, events).book;
      && (forall i, j | 0 <= i < j < |b.rounds| :: !(b.rounds[i].status == Open && b.rounds[j].status == Open))
      && (forall i, j | 0 <= i < j < |b.rounds| && b.rounds[i].height.Some? :: b.rounds[i].height != b.rounds[j].height)
      && (forall i, j | 0 <= i < j < |b.closings| :: b.closings[i] < b.closings[j])
      && b.credited == TotalWork(b.work) + ClosedWork(b.rounds)
  {
    RunsAreInOrder(env, events);
  }

  // ---------------------------------------------------------------------------------------
  // The one way a held block is lost

  lemma LookAgainLoses(a: Db, env: Env, tip: int, height: int, h: Hash)
    requires HeldAs(a, (height, h)) && env.content(h).Tagged() && (height, h) !in a.booked && !Marked(a, (height, h))
    ensures !Settled(LookAgain(a, env, tip, height, h), (height, h))
      <==> Gave(env, a.asked, height, h) && env.Knows(a.asked + 2, h) == Some(false)
  {
    hide BookRound, Contains;
  }

  lemma AskAgainLosesNone(a: Db, env: Env, tip: int, height: int, h: Hash)
    requires HeldAs(a, (height, h))
    ensures Settled(AskAgain(a, env, tip, height, h), (height, h))
  {
    hide BookRound;
  }

  /** A recheck drops a held tagged block without a trace exactly when the chain flips back to it while the log lacks it. */
  lemma HeldBlockIsLostExactlyWhen(d: Db, env: Env, tip: int, height: int, h: Hash)
    requires TablesOk(d, env) && HeldAs(d, (height, h)) && (height, h) !in d.booked
    ensures !Settled(RecheckRow(d, env, tip, height, h), (height, h)) <==> FlipsBack(env, d.asked, height, h)
  {
    hide LookAgain, AskAgain, BookOk, Contains;
    assert HeldOk(d, (height, h));
    var a := d.(asked := d.asked + 1);
    LookAgainLoses(a, env, tip, height, h);
    AskAgainLosesNone(a, env, tip, height, h);
    hide Accounted, FoundMatches, Vouched, Settled;
  }

  const EXAMPLE_BLOCK := Block("Lazarus", 1, false)

  /** A chain of one height, where question 5 alone names another block than all the others do; the log stays empty. */
  function Wavering(): Env {
    Env(_ => Some(FIRST_HEIGHT), (n, h) => if n == 5 then Some(2) else Some(1), (n, h) => true, n => Some({}), h => EXAMPLE_BLOCK)
  }

  /** After the first pass: the block is held. */
  function OneHeld(): Db {
    Empty().(pending := map[FIRST_HEIGHT := Held(1, FIRST_HEIGHT)], scanHeight := Some(FIRST_HEIGHT), first := Some(FIRST_HEIGHT),
             answered := {FIRST_HEIGHT}, seen := map[(FIRST_HEIGHT, 1) := 1], asked := 4)
  }

  lemma ExampleIsTagged()
    ensures EXAMPLE_BLOCK.Tagged()
  {
    assert StartsAt("Lazarus", 0, COINBASE_TAG);
  }

  lemma FirstPass()
    ensures RowsOf([], Empty().pending) && ScanPass(Empty(), Wavering(), []) == OneHeld()
  {
    ExampleIsTagged();
    var env := Wavering();
    var a := Empty().(asked := 1);
    hide Contains;
    var s := ScanBlock(a, env, FIRST_HEIGHT, FIRST_HEIGHT).0;
    assert s == OneHeld().(scanHeight := None, first := None);
    assert ScanRange(s, env, FIRST_HEIGHT, FIRST_HEIGHT + 1, FIRST_HEIGHT) == (s, FIRST_HEIGHT);
    assert ScanRange(a, env, FIRST_HEIGHT, FIRST_HEIGHT, FIRST_HEIGHT) == (s, FIRST_HEIGHT);
  }

  lemma SecondPass()
    ensures RowsOf([(FIRST_HEIGHT, 1)], OneHeld().pending)
    ensures var d := ScanPass(OneHeld(), Wavering(), [(FIRST_HEIGHT, 1)]);
      d.pending == map[] && d.booked == {} && d.gaveUp == {} && d.replaced == {} && d.asked == 9
      && d.seen == map[(FIRST_HEIGHT, 1) := 6]
  {
    ExampleIsTagged();
    var env := Wavering();
    var a := OneHeld().(asked := 5);
    hide Contains;
    var s := ScanBlock(a.(asked := 6), env, FIRST_HEIGHT, FIRST_HEIGHT).0;
    assert s == a.(asked := 9, seen := map[(FIRST_HEIGHT, 1) := 6]);
    var r := RecheckRow(a, env, FIRST_HEIGHT, FIRST_HEIGHT, 1);
    assert r == s.(pending := map[], flipped := {(FIRST_HEIGHT, 1)});
    assert [(FIRST_HEIGHT, 1)][1..] == [];
    assert Recheck(a, env, FIRST_HEIGHT, [(FIRST_HEIGHT, 1)]) == Recheck(r, env, FIRST_HEIGHT, []) == r;
    assert RowsOf([(FIRST_HEIGHT, 1)], OneHeld().pending) by { assert [(FIRST_HEIGHT, 1)][0] == (FIRST_HEIGHT, 1); }
  }

  lemma NoOutcome(d: Db)
    requires d.seen == map[(FIRST_HEIGHT, 1) := 6] && d.booked == {} && d.pending == map[]
    ensures !Outcome(d, Wavering(), (FIRST_HEIGHT, 1), 6)
  {
    ExampleIsTagged();
    hide Contains;
    var env := Wavering();
    forall n: nat, x | x != 1 ensures !LookedAt(d, env, n, FIRST_HEIGHT, x) {
      assert env.content(x).Tagged();
    }
  }

  /**
    It happens, in two passes over an empty database: the block is held in the first; in the second
    the chain reorganises away and back between two questions, and its row is dropped. It was never
    booked, is not held, was not given up, and nothing else was ever looked at.
   */
  lemma AHeldBlockCanBeLost()
    ensures var events := [Scan([]), Scan([(FIRST_HEIGHT, 1)])];
      var d := End(Empty(), Wavering(), events);
      && Run(Empty(), Wavering(), events)
      && d.seen == map[(FIRST_HEIGHT, 1) := 6] && !Outcome(d, Wavering(), (FIRST_HEIGHT, 1), 6)
      && FlipsBack(Wavering(), 5, FIRST_HEIGHT, 1)
  {
    FirstPass();
    SecondPass();
    hide ScanPass, Outcome;
    var env := Wavering();
    var e0, e1 := Scan([]), Scan([(FIRST_HEIGHT, 1)]);
    var events := [e0, e1];
    var d := ScanPass(OneHeld(), env, [(FIRST_HEIGHT, 1)]);
    assert events[1..] == [e1] && [e1][1..] == [];
    assert Run(d, env, []) && End(d, env, []) == d;
    assert Run(OneHeld(), env, [e1]) && End(OneHeld(), env, [e1]) == d;
    assert End(Empty(), env, events) == d;
    NoOutcome(d);
  }
}
