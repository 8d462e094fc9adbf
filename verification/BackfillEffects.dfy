/**
  What the backfill asks for, says and writes, in figures: which log lines count, the verdict on each
  wanted height answer by answer, and the rows `apply` leaves.
 */
module BackfillEffects {
  import opened Prelude
  import opened Ledger
  import opened FoundBlocks
  import opened Backfill
  import opened PoolSite

  // ---------------------------------------------------------------------------------------
  // What is wanted

  /** The log line names a block at that height that was not orphaned. */
  predicate Counts(r: Rec, height: int) {
    height != 0 && r.height == height && r.hash.Some? && !("orphan" <= r.kind)
  }

  /** The last such line of the log. */
  ghost predicate IsLastLine(log: seq<Rec>, height: int, i: int) {
    0 <= i < |log| && Counts(log[i], height) && forall j | i < j < |log| :: !Counts(log[j], height)
  }

  lemma {:induction false} LastLineIs(log: seq<Rec>, height: int)
    ensures match LastNaming(log, height)
      case None => forall i | 0 <= i < |log| :: !Counts(log[i], height)
      case Some(r) => exists i :: IsLastLine(log, height, i) && log[i] == r
  {
    if log != [] {
      var n := |log| - 1;
      LastLineIs(log[..n], height);
      if Counts(log[n], height) {
        assert IsLastLine(log, height, n);
      } else if LastNaming(log[..n], height).Some? {
        var i :| IsLastLine(log[..n], height, i) && log[..n][i] == LastNaming(log[..n], height).value;
        assert IsLastLine(log, height, i);
      }
    }
  }

  /**
    A height is wanted when some line of the log names a block at it that was not orphaned, or the
    operator names the height. What is wanted there is the block of the last such line, or whatever block the chain has.
   */
  lemma WantedExactly(also: seq<int>, log: seq<Rec>, height: int)
    ensures var w := WantedBy(also, log);
      && (height in w <==> height in also || exists i :: 0 <= i < |log| && Counts(log[i], height))
      && (height in w ==>
            || (exists i :: IsLastLine(log, height, i) && w[height].hash == log[i].hash && w[height].source == PrimeLog)
            || (w[height].hash == None && w[height].source == Operator && forall i | 0 <= i < |log| :: !Counts(log[i], height)))
  {
    WantedIsTheLastLine(also, log, height);
    LastLineIs(log, height);
    hide LastNaming, WantedBy, Counts;
    if LastNaming(log, height).Some? {
      var i :| IsLastLine(log, height, i) && log[i] == LastNaming(log, height).value;
      assert 0 <= i < |log| && Counts(log[i], height);
    }
  }

  // ---------------------------------------------------------------------------------------
  // What is said of it

  /** The scanner has passed the height and neither found a block there nor holds one. */
  predicate Skipped(d: Db, height: int)
    requires d.scanHeight.Some?
  {
    height !in d.found && height <= d.scanHeight.value && height !in d.pending
  }

  /** The chain has a block there, that of the log if the log names one. */
  predicate OnChain(node: Node, height: int, w: Want) {
    node.hashAt(height).Some? && (w.hash.None? || w.hash == node.hashAt(height))
  }

  /**
    A block is listed exactly when the scanner skipped its height, the chain has it there and gives it,
    and its coinbase carries the pool's tag and not the solo one; it is listed with its own hash and
    outputs. The list is stopped exactly when an answer is missing.
   */
  lemma ListedWhen(d: Db, node: Node, height: int, w: Want)
    requires d.scanHeight.Some?
    ensures var v := Judgement(d, node, height, w);
      var x := node.hashAt(height);
      var given := Skipped(d, height) && OnChain(node, height, w) && node.getsBlock(x.value);
      && (v.Add? <==> given && Contains(node.content(x.value).text, "Lazarus") && !Contains(node.content(x.value).text, "Lazarus/solo"))
      && (v.Add? ==> v.b == Listed(height, x.value, w.source, node.content(x.value).outputs))
      && (v.Stop? <==> Skipped(d, height) && (x.None? || (OnChain(node, height, w) && !node.getsBlock(x.value))))
  {
    hide Contains;
  }

  /** Why a height is passed over, and when nothing is said of it. */
  lemma SkippedWhy(d: Db, node: Node, height: int, w: Want)
    requires d.scanHeight.Some?
    ensures var v := Judgement(d, node, height, w);
      var x := node.hashAt(height);
      && (v == Quiet <==> height in d.found && (w.hash.None? || w.hash == Some(d.found[height])))
      && (v.Skip? ==> v.s.height == height)
      && (v.Skip? && v.s.why == OtherRowThere <==> height in d.found && w.hash.Some? && w.hash != Some(d.found[height]))
      && (v.Skip? && v.s.why == NotSettledYet <==> height !in d.found && (height > d.scanHeight.value || height in d.pending))
      && (v.Skip? && v.s.why == NotInMainChain <==> Skipped(d, height) && x.Some? && w.hash.Some? && w.hash != x)
      && (v.Skip? && v.s.why == SoloBlock <==>
            Skipped(d, height) && OnChain(node, height, w) && node.getsBlock(x.value) && Contains(node.content(x.value).text, "Lazarus/solo"))
      && (v.Skip? && v.s.why == NoTag <==>
            Skipped(d, height) && OnChain(node, height, w) && node.getsBlock(x.value)
            && !Contains(node.content(x.value).text, "Lazarus/solo") && !Contains(node.content(x.value).text, "Lazarus"))
  {
    hide Contains;
  }

  // ---------------------------------------------------------------------------------------
  // What is written

  ghost predicate RisingHeights(blocks: seq<Listed>) {
    forall i, j | 0 <= i < j < |blocks| :: blocks[i].height < blocks[j].height
  }

  lemma {:induction false} PlannedBlocks(d: Db, node: Node, wanted: map<int, Want>, heights: seq<int>)
    requires d.scanHeight.Some? && AllIn(wanted, heights) && Ascending(heights)
    ensures var blocks := BlocksOf(d, node, wanted, heights);
      && RisingHeights(blocks)
      && forall i | 0 <= i < |blocks| :: blocks[i].height !in d.found && blocks[i].height in heights
  {
    if heights != [] {
      hide Judgement, Contains;
      var n := |heights| - 1;
      PlannedBlocks(d, node, wanted, heights[..n]);
      ListedWhen(d, node, heights[n], wanted[heights[n]]);
      OneMorePlanned(d, heights, BlocksOf(d, node, wanted, heights[..n]), BlocksOf(d, node, wanted, heights));
    }
  }

  lemma EarlierIsLower(heights: seq<int>, h: int)
    requires heights != [] && Ascending(heights) && h in heights[..|heights| - 1]
    ensures h < heights[|heights| - 1] && h in heights
  {
    var k :| 0 <= k < |heights| - 1 && heights[..|heights| - 1][k] == h;
    assert heights[k] == h;
  }

  lemma OneMorePlanned(d: Db, heights: seq<int>, before: seq<Listed>, blocks: seq<Listed>)
    requires heights != [] && Ascending(heights) && RisingHeights(before)
    requires forall i | 0 <= i < |before| :: before[i].height !in d.found && before[i].height in heights[..|heights| - 1]
    requires blocks == before || (exists b :: blocks == before + [b] && b.height == heights[|heights| - 1] && b.height !in d.found)
    ensures RisingHeights(blocks)
    ensures forall i | 0 <= i < |blocks| :: blocks[i].height !in d.found && blocks[i].height in heights
  {
    var n := |heights| - 1;
    assert heights[n] in heights;
    forall i | 0 <= i < |before| ensures before[i].height < heights[n] && before[i].height in heights {
      EarlierIsLower(heights, before[i].height);
    }
  }

  /** So the blocks of a plan are all new: `apply` adds as many rows as there are blocks. */
  lemma PlanIsAllNew(d: Db, node: Node, wanted: map<int, Want>, heights: seq<int>)
    requires d.scanHeight.Some? && AllIn(wanted, heights) && Ascending(heights)
    ensures AllNew(d.found, BlocksOf(d, node, wanted, heights))
  {
    PlannedBlocks(d, node, wanted, heights);
    hide BlocksOf;
  }

  /** A round a listed block gets: its height and hash, and no work. */
  ghost predicate IsRoundOf(blocks: seq<Listed>, r: Round) {
    exists b :: b in blocks && b.outputs >= 2 && r == Round(Some(b.height), b.hash, 0.0, Immature)
  }

  /** The rounds after it: one more without work for each block of two outputs or more that had none. */
  ghost predicate RoundsAdded(b: Book, c: Book, blocks: seq<Listed>) {
    && |c.rounds| >= |b.rounds| && c == b.(rounds := c.rounds)
    && (forall k | 0 <= k < |b.rounds| :: c.rounds[k] == b.rounds[k])
    && (forall k | |b.rounds| <= k < |c.rounds| :: IsRoundOf(blocks, c.rounds[k]))
    && (forall x | x in blocks && x.outputs >= 2 :: HasRound(c.rounds, x.height))
  }

  lemma NoneAdded(b: Book)
    ensures RoundsAdded(b, b, [])
  {
  }

  lemma RoundsOfMore(blocks: seq<Listed>, x: Listed, r: Round)
    ensures IsRoundOf(blocks, r) ==> IsRoundOf(blocks + [x], r)
    ensures x.outputs >= 2 ==> IsRoundOf(blocks + [x], Round(Some(x.height), x.hash, 0.0, Immature))
  {
    if b :| b in blocks && b.outputs >= 2 && r == Round(Some(b.height), b.hash, 0.0, Immature) {
      assert b in blocks + [x];
    }
    assert x in blocks + [x];
  }

  lemma HasRoundAfter(rounds: seq<Round>, r: Round, h: int)
    ensures HasRound(rounds, h) || r.height == Some(h) ==> HasRound(rounds + [r], h)
  {
    if k :| 0 <= k < |rounds| && rounds[k].height == Some(h) {
      assert (rounds + [r])[k] == rounds[k];
    }
    assert (rounds + [r])[|rounds|] == r;
  }

  lemma RoundsAddedMore(b: Book, c: Book, blocks: seq<Listed>, x: Listed, e: Book)
    requires RoundsAdded(b, c, blocks)
    requires e == (if x.outputs >= 2 then RecordRoundOnly(c, x.height, x.hash) else c)
    ensures RoundsAdded(b, e, blocks + [x])
  {
    hide IsRoundOf, HasRound;
    var r := Round(Some(x.height), x.hash, 0.0, Immature);
    RoundsOfMore(blocks, x, r);
    forall k | |b.rounds| <= k < |e.rounds| ensures IsRoundOf(blocks + [x], e.rounds[k]) {
      if k < |c.rounds| {
        RoundsOfMore(blocks, x, c.rounds[k]);
      }
    }
    forall y | y in blocks + [x] && y.outputs >= 2 ensures HasRound(e.rounds, y.height) {
      HasRoundAfter(c.rounds, r, y.height);
    }
  }

  lemma {:induction false} ApplyAddsRounds(d: Db, blocks: seq<Listed>)
    ensures RoundsAdded(d.book, Apply(d, blocks).book, blocks)
  {
    if blocks == [] {
      NoneAdded(d.book);
    } else {
      var n := |blocks| - 1;
      ApplyAddsRounds(d, blocks[..n]);
      var e := Apply(d, blocks[..n]);
      assert blocks == blocks[..n] + [blocks[n]];
      assert Apply(d, blocks) == ApplyOne(e, blocks[n]);
      hide RoundsAdded, RecordRoundOnly, Apply;
      RoundsAddedMore(d.book, e.book, blocks[..n], blocks[n], ApplyOne(e, blocks[n]).book);
    }
  }

  /**
    What `apply` writes: at each listed height the listed hash, elsewhere what was there; a round
    without work for each block of at least two outputs whose height had none; and nothing else.
   */
  lemma {:induction false} ApplyWrites(d: Db, blocks: seq<Listed>)
    requires RisingHeights(blocks)
    ensures var s := Apply(d, blocks);
      && (forall i | 0 <= i < |blocks| :: blocks[i].height in s.found && s.found[blocks[i].height] == blocks[i].hash)
      && (forall h | forall i | 0 <= i < |blocks| :: blocks[i].height != h ::
            (h in s.found <==> h in d.found) && (h in d.found ==> s.found[h] == d.found[h]))
      && s.solo == d.solo && s.pending == d.pending && s.scanHeight == d.scanHeight
      && RoundsAdded(d.book, s.book, blocks)
  {
    ApplyAddsRounds(d, blocks);
    hide RoundsAdded, RecordRoundOnly;
    if blocks != [] {
      var n := |blocks| - 1;
      ApplyWrites(d, blocks[..n]);
      var e := Apply(d, blocks[..n]);
      assert forall i | 0 <= i < n :: blocks[..n][i] == blocks[i];
      assert Apply(d, blocks) == ApplyOne(e, blocks[n]);
      hide Apply;
    }
  }
}
