/**
  How much work is credited: what each address's counter has gained since the last round was closed,
  told from the samples of a run alone.
 */
module CreditedWork {
  import opened Prelude
  import opened Ledger
  import opened FoundBlocks
  import opened Backfill
  import opened ScannerRuns

  // ---------------------------------------------------------------------------------------
  // The samples of a run

  /** The last event closed the running round. */
  ghost predicate Closes(env: Env, events: seq<Event>)
    requires events != []
  {
    End(Empty(), env, events).book.closings != End(Empty(), env, events[..|events| - 1]).book.closings
  }

  /** The counter an address had in its last sample, if it had one since the last close. */
  ghost function Counter(env: Env, events: seq<Event>, a: Address): Option<int>
    decreases |events|
  {
    if events == [] || Closes(env, events) then None
    else
      var e := events[|events| - 1];
      if e.Credit? && e.address == a then Some(e.diff) else Counter(env, events[..|events| - 1], a)
  }

  /** What a counter now at `cur` has gained: all of it when it is new or has gone back, and never less than nothing. */
  function Gain(last: Option<int>, cur: int): nat {
    if last.Some? && last.value <= cur then cur - last.value
    else if cur > 0 then cur
    else 0
  }

  /** What all counters have gained, sample by sample. */
  ghost function Gained(env: Env, events: seq<Event>): nat
    decreases |events|
  {
    if events == [] then 0
    else
      var before, e := events[..|events| - 1], events[|events| - 1];
      Gained(env, before) + if e.Credit? && e.address != "" then Gain(Counter(env, before, e.address), e.diff) else 0
  }

  // ---------------------------------------------------------------------------------------
  // What the events do to the ledger

  /** The running round goes on as it was, or it was closed and there is no work. */
  ghost predicate BookMoves(b: Book, c: Book) {
    && c.credited == b.credited && |c.closings| >= |b.closings|
    && (if |c.closings| == |b.closings| then c.closings == b.closings && c.work == b.work else c.work == map[])
  }

  lemma MovesJoin(a: Book, b: Book, c: Book)
    requires BookMoves(a, b) && BookMoves(b, c)
    ensures BookMoves(a, c)
  {
  }

  lemma BookRoundMoves(b: Book, existed: bool, outputs: nat, height: int, hash: Hash)
    ensures BookMoves(b, BookRound(b, existed, outputs, height, hash))
  {
    hide HasRound, HasLaterRound, OpenRound, TotalWork;
  }

  lemma LookMoves(d: Db, env: Env, height: int, tip: int)
    ensures BookMoves(d.book, ScanBlock(d, env, height, tip).0.book)
  {
    hide BookRound, BookMoves, Contains;
    var h := match env.hashAt(d.asked, height) case Some(h) => h case None => 0;
    BookRoundMoves(d.book, height in d.found, env.content(h).outputs, height, h);
    assert BookMoves(d.book, d.book) by { StaysIsMove(d.book); }
  }

  lemma StaysIsMove(b: Book)
    ensures BookMoves(b, b)
  {
  }

  lemma RowMoves(d: Db, env: Env, tip: int, height: int, h: Hash)
    ensures BookMoves(d.book, RecheckRow(d, env, tip, height, h).book)
  {
    hide BookRound, BookMoves, ScanBlock;
    LookMoves(d.(asked := d.asked + 1), env, height, tip);
    BookRoundMoves(d.book, height in d.found, env.content(h).outputs, height, h);
    StaysIsMove(d.book);
  }

  lemma {:induction false} RecheckMoves(d: Db, env: Env, tip: int, rows: seq<(int, Hash)>)
    ensures BookMoves(d.book, Recheck(d, env, tip, rows).book)
    decreases |rows|
  {
    hide RecheckRow, BookMoves;
    if rows == [] {
      StaysIsMove(d.book);
    } else {
      var r := RecheckRow(d, env, tip, rows[0].0, rows[0].1);
      RowMoves(d, env, tip, rows[0].0, rows[0].1);
      RecheckMoves(r, env, tip, rows[1..]);
      MovesJoin(d.book, r.book, Recheck(r, env, tip, rows[1..]).book);
    }
  }

  lemma {:induction false} RangeMoves(d: Db, env: Env, tip: int, height: int, end: int)
    ensures BookMoves(d.book, ScanRange(d, env, tip, height, end).0.book)
    decreases end - height
  {
    hide ScanBlock, BookMoves;
    if height > end {
      StaysIsMove(d.book);
    } else {
      var s := ScanBlock(d, env, height, tip).0;
      LookMoves(d, env, height, tip);
      RangeMoves(s, env, tip, height + 1, end);
      MovesJoin(d.book, s.book, ScanRange(s, env, tip, height + 1, end).0.book);
    }
  }

  lemma PassMoves(d: Db, env: Env, rows: seq<(int, Hash)>)
    ensures BookMoves(d.book, ScanPass(d, env, rows).book)
  {
    hide Recheck, ScanRange, BookMoves;
    var a := d.(asked := d.asked + 1);
    StaysIsMove(d.book);
    if env.tip(d.asked).Some? {
      var tip := env.tip(d.asked).value;
      RecheckMoves(a, env, tip, rows);
      var r := Recheck(a, env, tip, rows);
      var start := ScanStart(r, tip);
      var end := FoundBlocks.Min(tip, start + SCAN_BATCH - 1);
      RangeMoves(r, env, tip, start, end);
      MovesJoin(d.book, r.book, ScanRange(r, env, tip, start, end).0.book);
    }
  }

  lemma {:induction false} ApplyMoves(d: Db, blocks: seq<Listed>)
    ensures BookMoves(d.book, Apply(d, blocks).book)
  {
    if blocks != [] {
      ApplyMoves(d, blocks[..|blocks| - 1]);
      hide Apply, HasRound;
      var e := Apply(d, blocks[..|blocks| - 1]);
      assert Apply(d, blocks).book == ApplyOne(e, blocks[|blocks| - 1]).book by { ApplyOneMore(d, blocks); }
      assert BookMoves(e.book, ApplyOne(e, blocks[|blocks| - 1]).book);
      MovesJoin(d.book, e.book, ApplyOne(e, blocks[|blocks| - 1]).book);
    }
  }

  lemma ApplyOneMore(d: Db, blocks: seq<Listed>)
    requires blocks != []
    ensures Apply(d, blocks) == ApplyOne(Apply(d, blocks[..|blocks| - 1]), blocks[|blocks| - 1])
  {
  }

  lemma EventMoves(d: Db, env: Env, e: Event)
    requires !e.Credit?
    ensures BookMoves(d.book, After(d, env, e).book)
  {
    hide BookMoves, ScanPass, Apply;
    match e
    case Scan(rows) => PassMoves(d, env, rows);
    case Matured(due) => MatureMoves(d.book, due);
    case Planned => StaysIsMove(d.book);
    case Filled(blocks) => ApplyMoves(d, blocks);
  }

  lemma MatureMoves(b: Book, due: int -> bool)
    ensures BookMoves(b, Mature(b, due))
  {
  }

  // ---------------------------------------------------------------------------------------
  // Over a run

  lemma {:induction false} EndSplits(d: Db, env: Env, events: seq<Event>)
    requires events != []
    ensures var n := |events| - 1; End(d, env, events) == After(End(d, env, events[..n]), env, events[n])
    decreases |events|
  {
    hide After;
    if |events| == 1 {
      assert events[..0] == [];
      assert End(After(d, env, events[0]), env, events[1..]) == After(d, env, events[0]);
    } else {
      EndSplits(After(d, env, events[0]), env, events[1..]);
      assert events[1..][..|events| - 2] == events[..|events| - 1][1..];
    }
  }

  /** `round_work` has the counters as the samples left them. */
  ghost predicate CountersAre(b: Book, env: Env, events: seq<Event>) {
    forall a: Address | a != "" ::
      && (a in b.work <==> Counter(env, events, a).Some?)
      && (a in b.work ==> Counter(env, events, a) == Some(b.work[a].lastDiff))
  }

  lemma CreditMoves(d: Db, env: Env, events: seq<Event>)
    requires events != [] && events[|events| - 1].Credit?
    requires var d := End(Empty(), env, events[..|events| - 1]);
      CountersAre(d.book, env, events[..|events| - 1]) && d.book.credited == Gained(env, events[..|events| - 1]) as real
    requires d == End(Empty(), env, events[..|events| - 1]) && End(Empty(), env, events) == After(d, env, events[|events| - 1])
    ensures var c := End(Empty(), env, events).book; CountersAre(c, env, events) && c.credited == Gained(env, events) as real
  {
    hide End, OpenRound;
    var e := events[|events| - 1];
    assert !Closes(env, events);
    assert e.address != "" ==>
      Delta(e.diff, if e.address in d.book.work then d.book.work[e.address].lastDiff else 0)
        == Gain(Counter(env, events[..|events| - 1], e.address), e.diff);
  }

  lemma OtherMoves(d: Db, env: Env, events: seq<Event>)
    requires events != [] && !events[|events| - 1].Credit?
    requires CountersAre(d.book, env, events[..|events| - 1]) && d.book.credited == Gained(env, events[..|events| - 1]) as real
    requires d == End(Empty(), env, events[..|events| - 1]) && End(Empty(), env, events) == After(d, env, events[|events| - 1])
    ensures var c := End(Empty(), env, events).book; CountersAre(c, env, events) && c.credited == Gained(env, events) as real
  {
    EventMoves(d, env, events[|events| - 1]);
    hide End, After;
  }

  /** All the work credited is what the counters gained: so that much is in the open round and the closed ones together. */
  lemma {:induction false} CreditedIsGained(env: Env, events: seq<Event>)
    ensures var b := End(Empty(), env, events).book; b.credited == Gained(env, events) as real && CountersAre(b, env, events)
    decreases |events|
  {
    if events != [] {
      var before := events[..|events| - 1];
      CreditedIsGained(env, before);
      EndSplits(Empty(), env, events);
      hide End, After, Gained, CountersAre;
      if events[|events| - 1].Credit? {
        CreditMoves(End(Empty(), env, before), env, events);
      } else {
        OtherMoves(End(Empty(), env, before), env, events);
      }
    }
  }

  /** The open round and the closed ones hold, together, exactly what the counters gained. */
  lemma WorkIsWhatWasGained(env: Env, events: seq<Event>)
    requires Run(Empty(), env, events)
    ensures var b := End(Empty(), env, events).book; TotalWork(b.work) + ClosedWork(b.rounds) == Gained(env, events) as real
  {
    CreditedIsGained(env, events);
    LedgerIsInOrder(env, events);
    hide End, Run, Gained, CountersAre;
  }

  /** A close forgets the counters: the next sample of an address is credited in full, whatever was credited before. */
  lemma CloseForgetsCounters(env: Env, events: seq<Event>, a: Address, diff: nat)
    requires events != [] && Closes(env, events) && a != ""
    ensures Gained(env, events + [Credit(a, diff)]) == Gained(env, events) + diff
  {
    var more := events + [Credit(a, diff)];
    assert more[..|more| - 1] == events;
    hide Closes;
  }
}
