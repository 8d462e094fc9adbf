/**
  pool/tools/backfill_found_blocks.py: `plan` lists the blocks of primed's log that the scanner
  skipped, `apply` writes their rows.
 */
module Backfill {
  import opened Prelude
  import opened Ledger
  import opened FoundBlocks

  /** A line of primed's block log, the last one for its hash. A missing height is 0. */
  datatype Rec = Rec(height: int, hash: Option<Hash>, kind: string)

  /** What the node answers to the one question `plan` asks about a height, and about a hash. */
  datatype Node = Node(hashAt: int -> Option<Hash>, getsBlock: Hash -> bool, content: Hash -> Block)

  datatype Source = PrimeLog | Operator

  datatype Want = Want(hash: Option<Hash>, source: Source, kind: string)

  datatype Listed = Listed(height: int, hash: Hash, source: Source, outputs: nat)

  datatype Why = OtherRowThere | NotSettledYet | NotInMainChain | SoloBlock | NoTag

  datatype Skipped = Skipped(height: int, hash: Option<Hash>, why: Why)

  datatype Incomplete = NoLog | NoTip | NoScanHeight | NoBlockHash(height: int) | NoBlock(hash: Hash)

  datatype Plan = Plan(blocks: seq<Listed>, skipped: seq<Skipped>) | Stopped(why: Incomplete)

  /** What is said of one wanted height. `Quiet`: it has its row already. */
  datatype Verdict = Add(b: Listed) | Skip(s: Skipped) | Quiet | Stop(why: Incomplete)

  /** A log line that names a block to look for. */
  predicate Names(r: Rec) {
    r.height != 0 && r.hash.Some? && !StartsWith(r.kind, "orphan")
  }

  function WantOf(r: Rec): Want { Want(r.hash, PrimeLog, r.kind) }

  /** The wanted heights: those the operator names, and over them the log's, a later line winning. */
  function WantedBy(also: seq<int>, log: seq<Rec>): map<int, Want> {
    if log != [] then
      var before := WantedBy(also, log[..|log| - 1]);
      var r := log[|log| - 1];
      if Names(r) then before[r.height := WantOf(r)] else before
    else if also != [] then
      WantedBy(also[..|also| - 1], [])[also[|also| - 1] := Want(None, Operator, "")]
    else map[]
  }

  /** `_candidate` */
  function Candidate(node: Node, height: int, w: Want): Verdict {
    match node.hashAt(height)
    case None => Stop(NoBlockHash(height))
    case Some(onchain) =>
      if w.hash.Some? && onchain != w.hash.value then Skip(Skipped(height, w.hash, NotInMainChain))
      else if !node.getsBlock(onchain) then Stop(NoBlock(onchain))
      else
        var blk := node.content(onchain);
        if blk.Solo() then Skip(Skipped(height, Some(onchain), SoloBlock))
        else if !Contains(blk.text, COINBASE_TAG) then Skip(Skipped(height, Some(onchain), NoTag))
        else Add(Listed(height, onchain, w.source, blk.outputs))
  }

  /** What `plan` decides about one wanted height. */
  function Judgement(d: Db, node: Node, height: int, w: Want): Verdict
    requires d.scanHeight.Some?
  {
    if height in d.found then
      if w.hash.Some? && d.found[height] != w.hash.value then Skip(Skipped(height, w.hash, OtherRowThere)) else Quiet
    else if height > d.scanHeight.value || height in d.pending then Skip(Skipped(height, w.hash, NotSettledYet))
    else Candidate(node, height, w)
  }

  predicate AllIn(wanted: map<int, Want>, heights: seq<int>) {
    forall i | 0 <= i < |heights| :: heights[i] in wanted
  }

  function BlocksOf(d: Db, node: Node, wanted: map<int, Want>, heights: seq<int>): seq<Listed>
    requires d.scanHeight.Some? && AllIn(wanted, heights)
  {
    if heights == [] then []
    else
      var n := |heights| - 1;
      var rest := BlocksOf(d, node, wanted, heights[..n]);
      match Judgement(d, node, heights[n], wanted[heights[n]])
      case Add(b) => rest + [b]
      case _ => rest
  }

  function SkippedOf(d: Db, node: Node, wanted: map<int, Want>, heights: seq<int>): seq<Skipped>
    requires d.scanHeight.Some? && AllIn(wanted, heights)
  {
    if heights == [] then []
    else
      var n := |heights| - 1;
      var rest := SkippedOf(d, node, wanted, heights[..n]);
      match Judgement(d, node, heights[n], wanted[heights[n]])
      case Skip(s) => rest + [s]
      case _ => rest
  }

  // ---------------------------------------------------------------------------------------
  // plan

  method CollectWanted(also: seq<int>, log: seq<Rec>) returns (wanted: map<int, Want>)
    ensures wanted == WantedBy(also, log)
  {
    wanted := map[];
    for i := 0 to |also|
      invariant wanted == WantedBy(also[..i], [])
    {
      wanted := wanted[also[i] := Want(None, Operator, "")];
      assert also[..i + 1][..i] == also[..i];
    }
    assert also[..|also|] == also;
    for i := 0 to |log|
      invariant wanted == WantedBy(also, log[..i])
    {
      assert log[..i + 1][..i] == log[..i];
      if Names(log[i]) {
        wanted := wanted[log[i].height := WantOf(log[i])];
      }
    }
    assert log[..|log|] == log;
  }

  /** Some wanted height the node does not answer about. */
  ghost predicate Unanswered(d: Db, node: Node, wanted: map<int, Want>, why: Incomplete)
    requires d.scanHeight.Some?
  {
    exists h :: h in wanted && Judgement(d, node, h, wanted[h]) == Stop(why)
  }

  ghost predicate AllAnswered(d: Db, node: Node, wanted: map<int, Want>)
    requires d.scanHeight.Some?
  {
    forall h | h in wanted :: !Judgement(d, node, h, wanted[h]).Stop?
  }

  /** What the plan for these heights, in this order, is. */
  ghost predicate IsPlan(d: Db, node: Node, wanted: map<int, Want>, heights: seq<int>, p: Plan)
    requires d.scanHeight.Some? && p.Plan?
  {
    && AllIn(wanted, heights)
    && p.blocks == BlocksOf(d, node, wanted, heights) && p.skipped == SkippedOf(d, node, wanted, heights)
  }

  /**
    Blocks to add and blocks passed over, in order of height; or, rather than a short list, why
    there is none.
   */
  method MakePlan(d: Db, node: Node, log: Option<seq<Rec>>, tip: Option<int>, also: seq<int>) returns (r: Plan)
    ensures r == Stopped(NoLog) <==> log.None?
    ensures r == Stopped(NoTip) <==> log.Some? && (tip.None? || tip == Some(0))
    ensures r == Stopped(NoScanHeight) <==> log.Some? && tip.Some? && tip != Some(0) && d.scanHeight.None?
    ensures log.Some? && tip.Some? && tip != Some(0) && d.scanHeight.Some? ==>
      var wanted := WantedBy(also, log.value);
      && (r.Stopped? ==> Unanswered(d, node, wanted, r.why))
      && (r.Plan? ==> AllAnswered(d, node, wanted))
      && (r.Plan? ==> exists heights :: Ascending(heights) && (forall h :: h in heights <==> h in wanted) && IsPlan(d, node, wanted, heights, r))
  {
    if log.None? {
      return Stopped(NoLog);
    }
    if tip.None? || tip == Some(0) {
      return Stopped(NoTip);
    }
    if d.scanHeight.None? {
      return Stopped(NoScanHeight);
    }
    hide Judgement, WantedBy, BlocksOf, SkippedOf, IsPlan, AllAnswered;
    var wanted := CollectWanted(also, log.value);
    var heights := SortedKeys(wanted);
    r := JudgeAll(d, node, wanted, heights);
  }

  /** The loop over the wanted heights. */
  method JudgeAll(d: Db, node: Node, wanted: map<int, Want>, heights: seq<int>) returns (r: Plan)
    requires d.scanHeight.Some? && AllIn(wanted, heights) && forall h :: h in heights <==> h in wanted
    ensures r.Stopped? ==> Unanswered(d, node, wanted, r.why)
    ensures r.Plan? ==> AllAnswered(d, node, wanted) && IsPlan(d, node, wanted, heights, r)
  {
    hide Judgement;
    var blocks, skipped := [], [];
    for i := 0 to |heights|
      invariant blocks == BlocksOf(d, node, wanted, heights[..i])
      invariant skipped == SkippedOf(d, node, wanted, heights[..i])
      invariant forall j | 0 <= j < i :: !Judgement(d, node, heights[j], wanted[heights[j]]).Stop?
    {
      assert heights[..i + 1][..i] == heights[..i];
      match Judgement(d, node, heights[i], wanted[heights[i]]) {
        case Add(b) => blocks := blocks + [b];
        case Skip(s) => skipped := skipped + [s];
        case Quiet =>
        case Stop(why) =>
          assert heights[i] in wanted;
          return Stopped(why);
      }
    }
    assert heights[..|heights|] == heights;
    return Plan(blocks, skipped);
  }

  // ---------------------------------------------------------------------------------------
  // apply

  ghost function ApplyOne(d: Db, b: Listed): Db {
    d.(found := d.found[b.height := b.hash],
       booked := d.booked + {(b.height, b.hash)},
       byHand := if b.source == Operator then d.byHand + {(b.height, b.hash)} else d.byHand,
       book := if b.outputs >= 2 then RecordRoundOnly(d.book, b.height, b.hash) else d.book)
  }

  ghost function Apply(d: Db, blocks: seq<Listed>): (s: Db)
    ensures s.scanHeight == d.scanHeight && s.pending == d.pending
  {
    if blocks == [] then d else ApplyOne(Apply(d, blocks[..|blocks| - 1]), blocks[|blocks| - 1])
  }

  // ---------------------------------------------------------------------------------------
  // What they promise

  /** The last line of the log that names a block at `height`. */
  function LastNaming(log: seq<Rec>, height: int): (r: Option<Rec>)
    ensures r.Some? ==> Names(r.value) && r.value.height == height && r.value in log
  {
    if log == [] then None
    else
      var r := log[|log| - 1];
      if Names(r) && r.height == height then Some(r) else LastNaming(log[..|log| - 1], height)
  }

  lemma {:induction false} WantedIsTheLastLine(also: seq<int>, log: seq<Rec>, height: int)
    ensures var w := WantedBy(also, log);
      match LastNaming(log, height)
      case Some(r) => height in w && w[height] == WantOf(r)
      case None => (height in w <==> height in also) && (height in w ==> w[height] == Want(None, Operator, ""))
    decreases |log|, |also|
  {
    if log != [] {
      WantedIsTheLastLine(also, log[..|log| - 1], height);
    } else if also != [] {
      WantedIsTheLastLine(also[..|also| - 1], [], height);
      assert also == also[..|also| - 1] + [also[|also| - 1]];
    }
  }

  lemma OneMoreHeight(d: Db, node: Node, wanted: map<int, Want>, heights: seq<int>, b: Listed)
    requires d.scanHeight.Some? && heights != [] && AllIn(wanted, heights)
    ensures var n := |heights| - 1;
      && AllIn(wanted, heights[..n]) && heights[n] in wanted
      && (b in BlocksOf(d, node, wanted, heights) <==>
            b in BlocksOf(d, node, wanted, heights[..n]) || Judgement(d, node, heights[n], wanted[heights[n]]) == Add(b))
  {
    hide Judgement;
  }

  ghost predicate Lists(d: Db, node: Node, wanted: map<int, Want>, heights: seq<int>, b: Listed)
    requires d.scanHeight.Some? && AllIn(wanted, heights)
  {
    exists i :: 0 <= i < |heights| && Judgement(d, node, heights[i], wanted[heights[i]]) == Add(b)
  }

  lemma ListsOneMore(d: Db, node: Node, wanted: map<int, Want>, heights: seq<int>, b: Listed)
    requires d.scanHeight.Some? && heights != [] && AllIn(wanted, heights)
    ensures var n := |heights| - 1;
      && AllIn(wanted, heights[..n]) && heights[n] in wanted
      && (Lists(d, node, wanted, heights, b) <==>
            Lists(d, node, wanted, heights[..n], b) || Judgement(d, node, heights[n], wanted[heights[n]]) == Add(b))
  {
    hide Judgement;
  }

  lemma {:induction false} ListedExactly(d: Db, node: Node, wanted: map<int, Want>, heights: seq<int>, b: Listed)
    requires d.scanHeight.Some? && AllIn(wanted, heights)
    ensures b in BlocksOf(d, node, wanted, heights) <==> Lists(d, node, wanted, heights, b)
  {
    if heights != [] {
      OneMoreHeight(d, node, wanted, heights, b);
      ListsOneMore(d, node, wanted, heights, b);
      hide BlocksOf, Judgement, Lists;
      ListedExactly(d, node, wanted, heights[..|heights| - 1], b);
    }
  }

  /** The environment in which nothing moves: this node, this log. */
  function Still(node: Node, log: seq<Rec>, tip: int): Env {
    Env(_ => Some(tip), (_, h) => node.hashAt(h), (_, x) => node.getsBlock(x),
        _ => Some(set r | r in log && r.hash.Some? :: r.hash.value), node.content)
  }

  /**
    The backfill and the scanner agree. For a height the log names, `plan` lists the block exactly
    when the scanner has passed the height, does not hold it and has no row for it, and a look at
    that height now would book the very block the log names.
   */
  lemma PlanAgreesWithTheScanner(d: Db, node: Node, log: seq<Rec>, also: seq<int>, tip: int, height: int)
    requires d.scanHeight.Some? && LastNaming(log, height).Some?
    ensures var r := LastNaming(log, height).value;
      var x := r.hash.value;
      var (s, ok) := ScanBlock(d, Still(node, log, tip), height, tip);
      height in WantedBy(also, log) &&
      (Judgement(d, node, height, WantedBy(also, log)[height]).Add?
       <==> height <= d.scanHeight.value && height !in d.pending && height !in d.found
              && ok && height in s.found && s.found[height] == x)
  {
    hide BookRound, Contains;
    WantedIsTheLastLine(also, log, height);
  }

  lemma {:induction false} RowsOfApply(d: Db, blocks: seq<Listed>)
    ensures forall h :: h in Apply(d, blocks).found <==> h in d.found || exists b :: b in blocks && b.height == h
  {
    if blocks != [] {
      var n := |blocks| - 1;
      RowsOfApply(d, blocks[..n]);
      assert blocks == blocks[..n] + [blocks[n]];
      assert Apply(d, blocks).found == Apply(d, blocks[..n]).found[blocks[n].height := blocks[n].hash];
      hide Apply;
    }
  }

  /** `apply` fills the rows, leaves the running round alone, and keeps the tables in order. */
  lemma {:induction false} ApplyFillsTheRows(d: Db, blocks: seq<Listed>)
    requires BookOk(d.book)
    ensures var s := Apply(d, blocks);
      && BookOk(s.book) && SameRunningRound(d.book, s.book)
      && s.scanHeight == d.scanHeight && s.pending == d.pending
      && (forall h :: h in s.found <==> h in d.found || exists b :: b in blocks && b.height == h)
  {
    if blocks != [] {
      var n := |blocks| - 1;
      ApplyFillsTheRows(d, blocks[..n]);
      var e := Apply(d, blocks[..n]);
      LateBlockLeavesTheRunningRound(e.book, blocks[n].height, blocks[n].hash);
      hide BookOk, RecordRoundOnly, OpenRound;
    }
    RowsOfApply(d, blocks);
  }

  /** More rows, and nothing else that `plan` reads: no new question is asked. */
  lemma StaysAnswered(d: Db, s: Db, node: Node, wanted: map<int, Want>)
    requires d.scanHeight.Some? && s.scanHeight == d.scanHeight && s.pending == d.pending && forall h | h in d.found :: h in s.found
    ensures AllAnswered(d, node, wanted) ==> AllAnswered(s, node, wanted)
  {
    hide Candidate;
  }

  /** Where every block listed has a row by now, none is listed again. */
  lemma NoneListedAgain(d: Db, s: Db, node: Node, wanted: map<int, Want>, heights: seq<int>)
    requires d.scanHeight.Some? && s.scanHeight == d.scanHeight && s.pending == d.pending && AllIn(wanted, heights)
    requires forall h | h in d.found :: h in s.found
    requires forall b | b in BlocksOf(d, node, wanted, heights) :: b.height in s.found
    ensures BlocksOf(s, node, wanted, heights) == []
  {
    var again := BlocksOf(s, node, wanted, heights);
    hide BlocksOf;
    if again != [] {
      var b := again[0];
      ListedExactly(s, node, wanted, heights, b);
      var i :| 0 <= i < |heights| && Judgement(s, node, heights[i], wanted[heights[i]]) == Add(b);
      assert Judgement(d, node, heights[i], wanted[heights[i]]) == Add(b);
      ListedExactly(d, node, wanted, heights, b);
      assert false;
    }
  }

  /**
    Nothing of a plan is left to add once it has been applied: on the same chain and log a second
    plan is not stopped either, and it is empty.
   */
  lemma SecondPlanIsEmpty(d: Db, node: Node, wanted: map<int, Want>, heights: seq<int>)
    requires d.scanHeight.Some? && AllIn(wanted, heights)
    ensures BlocksOf(Apply(d, BlocksOf(d, node, wanted, heights)), node, wanted, heights) == []
    ensures AllAnswered(d, node, wanted) ==> AllAnswered(Apply(d, BlocksOf(d, node, wanted, heights)), node, wanted)
  {
    var blocks := BlocksOf(d, node, wanted, heights);
    RowsOfApply(d, blocks);
    hide BlocksOf, Apply, BookOk, AllAnswered;
    StaysAnswered(d, Apply(d, blocks), node, wanted);
    NoneListedAgain(d, Apply(d, blocks), node, wanted, heights);
  }
}
