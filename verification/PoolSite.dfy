/**
  The tables of the pool site, updated in place: the functions of pool/server.py and of the
  backfill that write them, each proved against the functions of `Ledger`, `FoundBlocks` and
  `Backfill`.
 */
module PoolSite {
  import opened Prelude
  import opened Ledger
  import opened FoundBlocks
  import opened Backfill

  /** No block has a row yet, and no two are at one height: true of what a plan lists. */
  ghost predicate AllNew(found: map<int, Hash>, blocks: seq<Listed>) {
    && (forall i | 0 <= i < |blocks| :: blocks[i].height !in found)
    && (forall i, j | 0 <= i < j < |blocks| :: blocks[i].height != blocks[j].height)
  }

  class PoolDb {
    var found: map<int, Hash>
    var solo: map<int, Hash>
    var pending: map<int, Held>
    var scanHeight: Option<int>
    var rounds: seq<Round>
    var work: map<Address, Effort>
    var asked: nat
    ghost var history: Db

    /** The tables as one value, with their history. */
    ghost function View(): Db
      reads this
    {
      history.(found := found, solo := solo, pending := pending, scanHeight := scanHeight, asked := asked,
               book := history.book.(rounds := rounds, work := work))
    }

    constructor ()
      ensures View() == Empty()
    {
      found, solo, pending, scanHeight, rounds, work, asked := map[], map[], map[], None, [], map[], 0;
      history := Empty();
    }

    method EnsureOpenRound()
      modifies this`rounds
      ensures View() == old(View()).(book := EnsureOpen(old(View()).book))
    {
      if OpenRound(rounds).None? {
        rounds := rounds + [FRESH];
      }
    }

    method CreditRoundWork(address: Address, diff: int)
      modifies this`rounds, this`work, this`history
      ensures View() == old(View()).(book := CreditWork(old(View()).book, address, diff))
    {
      if address == "" {
        return;
      }
      EnsureOpenRound();
      var prev := if address in work then work[address].lastDiff else 0;
      var delta := Delta(diff, prev) as real;
      if address in work {
        work := work[address := Effort(work[address].work + delta, diff)];
      } else {
        work := work[address := Effort(delta, diff)];
      }
      history := history.(book := history.book.(credited := history.book.credited + delta));
    }

    /** The sum `close_round_for_block` takes over the rows with work. */
    method SumOfWork() returns (total: real)
      ensures total == TotalWork(Positive(work))
    {
      total := 0.0;
      var rest := work.Keys;
      assert (map a | a in rest :: work[a]) == work;
      while rest != {}
        invariant rest <= work.Keys
        invariant total + TotalWork(Positive(map a | a in rest :: work[a])) == TotalWork(Positive(work))
        decreases rest
      {
        ghost var left := map a | a in rest :: work[a];
        var a :| a in rest;
        ghost var less := map b | b in rest - {a} :: work[b];
        if work[a].work > 0.0 {
          total := total + work[a].work;
          TotalWithout(Positive(left), a);
          assert Positive(left) - {a} == Positive(less);
        } else {
          assert Positive(left) == Positive(less);
        }
        rest := rest - {a};
      }
    }

    method CloseRoundForBlock(height: int, hash: Hash)
      modifies this`rounds, this`work, this`history
      ensures View() == old(View()).(book := CloseRound(old(View()).book, height, hash))
    {
      EnsureOpenRound();
      if HasRound(rounds, height) {
        return;
      }
      var total := SumOfWork();
      var open := OpenRound(rounds);
      if open.Some? {
        rounds := rounds[open.value := Round(Some(height), hash, total, Immature)];
        work := map[];
        rounds := rounds + [FRESH];
        history := history.(book := history.book.(closings := history.book.closings + [height]));
      }
    }

    method RecordOnly(height: int, hash: Hash)
      modifies this`rounds
      ensures View() == old(View()).(book := RecordRoundOnly(old(View()).book, height, hash))
    {
      if !HasRound(rounds, height) {
        rounds := rounds + [Round(Some(height), hash, 0.0, Immature)];
      }
    }

    /** `mature_rounds`; `matureAt` is the height a block's coinbase can be spent from. */
    method MatureRounds(tip: int, matureAt: int -> int)
      modifies this`rounds
      ensures View() == old(View()).(book := Mature(old(View()).book, h => h != 0 && tip >= matureAt(h)))
    {
      ghost var was := rounds;
      ghost var after := Mature(View().book, h => h != 0 && tip >= matureAt(h)).rounds;
      for i := 0 to |rounds|
        invariant |rounds| == |was| && forall k | 0 <= k < |was| :: rounds[k] == if k < i then after[k] else was[k]
      {
        var r := rounds[i];
        if r.status == Immature && r.height.Some? && r.height.value != 0 && tip >= matureAt(r.height.value) {
          rounds := rounds[i := r.(status := Payable)];
        }
      }
      assert rounds == after;
    }

    /** `insert_found_block` and `_book_found_block` */
    method BookFoundBlock(height: int, hash: Hash, outputs: nat)
      modifies this
      ensures View() == BookBlock(old(View()), height, hash, outputs)
    {
      var existed := height in found;
      found := found[height := hash];
      history := history.(booked := history.booked + {(height, hash)});
      if outputs < 2 {
      } else if existed {
      } else if HasLaterRound(rounds, height) {
        RecordOnly(height, hash);
      } else {
        CloseRoundForBlock(height, hash);
      }
    }

    method LookAt(env: Env, height: int, tip: int) returns (ok: bool)
      modifies this
      ensures (View(), ok) == ScanBlock(old(View()), env, height, tip)
    {
      ghost var at := asked;
      var h := env.hashAt(asked, height);
      asked := asked + 1;
      if h.None? {
        return false;
      }
      var got := env.getsBlock(asked, h.value);
      asked := asked + 1;
      if !got {
        return false;
      }
      var blk := env.content(h.value);
      history := history.(answered := history.answered + {height});
      if blk.Solo() {
        if blk.paysFee {
          solo := solo[height := h.value];
        }
        return true;
      }
      if !blk.Tagged() {
        return true;
      }
      var known := env.Knows(asked, h.value);
      asked := asked + 1;
      history := Seen(history, height, h.value, at);
      if known == Some(false) {
        pending := pending[height := Held(h.value, tip)];
      } else {
        BookFoundBlock(height, h.value, blk.outputs);
      }
      return true;
    }

    method DropPending(height: int, hash: Hash)
      modifies this`pending
      ensures View() == Unhold(old(View()), height, hash)
    {
      if height in pending && pending[height].hash == hash {
        pending := pending - {height};
      }
    }

    method LookAtHeld(env: Env, tip: int, height: int, hash: Hash)
      modifies this
      ensures View() == LookAgain(old(View()), env, tip, height, hash)
    {
      hide ScanBlock, Unhold;
      ghost var again, known := env.hashAt(asked, height), env.Knows(asked + 2, hash);
      var ok := LookAt(env, height, tip);
      if ok {
        DropPending(height, hash);
        if again != Some(hash) {
          history := history.(replaced := history.replaced + {(height, hash)});
        } else if known == Some(false) {
          history := history.(flipped := history.flipped + {(height, hash)});
        }
      }
    }

    method AskForHeld(env: Env, tip: int, height: int, hash: Hash)
      modifies this
      ensures View() == AskAgain(old(View()), env, tip, height, hash)
    {
      hide BookBlock, Unhold;
      var known := env.Knows(asked, hash);
      asked := asked + 1;
      if known == Some(true) {
        var got := env.getsBlock(asked, hash);
        asked := asked + 1;
        if got {
          BookFoundBlock(height, hash, env.content(hash).outputs);
          DropPending(height, hash);
        }
      } else if tip >= height + SCAN_PENDING_BLOCKS {
        history := history.(gaveUp := history.gaveUp + {(height, hash)});
        DropPending(height, hash);
      }
    }

    method RecheckOne(env: Env, tip: int, height: int, hash: Hash)
      modifies this
      ensures View() == RecheckRow(old(View()), env, tip, height, hash)
    {
      hide LookAgain, AskAgain;
      var cur := env.hashAt(asked, height);
      asked := asked + 1;
      if cur.None? {
        return;
      }
      if cur.value != hash {
        LookAtHeld(env, tip, height, hash);
      } else {
        AskForHeld(env, tip, height, hash);
      }
    }

    /** `SELECT height, hash FROM scan_pending ORDER BY height` */
    method PendingRows() returns (rows: seq<(int, Hash)>)
      ensures RowsOf(rows, pending)
    {
      var heights := SortedKeys(pending);
      rows := [];
      for i := 0 to |heights|
        invariant |rows| == i && forall j | 0 <= j < i :: heights[j] in pending && rows[j] == (heights[j], pending[heights[j]].hash)
      {
        assert heights[i] in heights;
        rows := rows + [(heights[i], pending[heights[i]].hash)];
      }
      forall h | h in pending ensures exists i :: 0 <= i < |rows| && rows[i].0 == h {
        assert h in heights;
        var i :| 0 <= i < |heights| && heights[i] == h;
        assert rows[i].0 == h;
      }
    }

    method RecheckPendingBlocks(env: Env, tip: int) returns (ghost rows: seq<(int, Hash)>)
      modifies this
      ensures RowsOf(rows, old(pending))
      ensures View() == Recheck(old(View()), env, tip, rows)
    {
      var order := PendingRows();
      rows := order;
      for i := 0 to |order|
        invariant rows == order
        invariant Recheck(View(), env, tip, order[i..]) == Recheck(old(View()), env, tip, order)
      {
        assert order[i..][1..] == order[i + 1..];
        RecheckOne(env, tip, order[i].0, order[i].1);
      }
    }

    /** The loop over the heights; `last` is the last height the node answered for. */
    method ScanHeights(env: Env, tip: int, start: int, end: int) returns (last: int)
      requires start - 1 <= end
      modifies this
      ensures (View(), last) == ScanRange(old(View()), env, tip, start, end)
    {
      last := start - 1;
      while last < end
        invariant start - 1 <= last <= end
        invariant ScanRange(View(), env, tip, last + 1, end) == ScanRange(old(View()), env, tip, start, end)
        decreases end - last
      {
        var ok := LookAt(env, last + 1, tip);
        if !ok {
          return;
        }
        last := last + 1;
      }
    }

    method ScanFoundBlocks(env: Env) returns (ghost rows: seq<(int, Hash)>)
      modifies this
      ensures RowsOf(rows, old(pending))
      ensures View() == ScanPass(old(View()), env, rows)
    {
      hide ScanRange, Recheck, RowsOf;
      var tip := env.tip(asked);
      asked := asked + 1;
      if tip.None? || tip.value == 0 {
        var order := PendingRows();
        rows := order;
        return;
      }
      rows := RecheckPendingBlocks(env, tip.value);
      var start := match scanHeight case Some(s) => s + 1 case None => FoundBlocks.Max(FIRST_HEIGHT, tip.value - 80);
      if start > tip.value {
        return;
      }
      var last := ScanHeights(env, tip.value, start, FoundBlocks.Min(tip.value, start + SCAN_BATCH - 1));
      if last >= start {
        scanHeight := Some(last);
        history := history.(first := if history.first.Some? then history.first else Some(start));
      }
    }

    /** `apply`: how many rows were added. */
    method ApplyBackfill(blocks: seq<Listed>) returns (added: nat)
      modifies this
      ensures View() == Apply(old(View()), blocks)
      ensures added <= |blocks|
      ensures AllNew(old(found), blocks) ==> added == |blocks|
    {
      added := 0;
      for i := 0 to |blocks|
        invariant View() == Apply(old(View()), blocks[..i])
        invariant forall h | h in found && h !in old(found) :: exists j :: 0 <= j < i && blocks[j].height == h
        invariant added <= i
        invariant AllNew(old(found), blocks) ==> added == i
      {
        assert blocks[..i + 1][..i] == blocks[..i];
        var b := blocks[i];
        if b.height !in found {
          added := added + 1;
        }
        found := found[b.height := b.hash];
        history := history.(booked := history.booked + {(b.height, b.hash)},
                            byHand := if b.source == Operator then history.byHand + {(b.height, b.hash)} else history.byHand);
        if b.outputs >= 2 {
          RecordOnly(b.height, b.hash);
        }
      }
      assert blocks[..|blocks|] == blocks;
    }
  }
}
