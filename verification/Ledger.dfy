/**
  The round ledger of pool/server.py: the `rounds` and `round_work` tables, and the functions
  that credit work, close a round for a block, and record the round of a block booked late.
 */
module Ledger {
  import opened Prelude

  type Hash = int
  type Address = string

  datatype Status = Open | Immature | Payable

  /** A row of `rounds`; the row's id is its index. An open round has no height yet. */
  datatype Round = Round(height: Option<int>, hash: Hash, totalWork: real, status: Status)

  const FRESH := Round(None, 0, 0.0, Open)

  /** A row of `round_work`. */
  datatype Effort = Effort(work: real, lastDiff: int)

  /** The two tables, and what happened to them: the heights that closed the open round, and all work credited. */
  datatype Book = Book(rounds: seq<Round>, work: map<Address, Effort>, closings: seq<int>, credited: real)

  // ---------------------------------------------------------------------------------------
  // Sums over round_work

  /** The work in the table, whatever order its rows are read in. */
  ghost function TotalWork(work: map<Address, Effort>): real
    decreases |work|
  {
    if work == map[] then 0.0
    else
      var a :| a in work;
      work[a].work + TotalWork(work - {a})
  }

  lemma {:induction false} TotalWithout(work: map<Address, Effort>, a: Address)
    requires a in work
    ensures TotalWork(work) == work[a].work + TotalWork(work - {a})
    decreases |work|
  {
    var b :| b in work && TotalWork(work) == work[b].work + TotalWork(work - {b});
    if a != b {
      TotalWithout(work - {b}, a);
      TotalWithout(work - {a}, b);
      assert work - {b} - {a} == work - {a} - {b};
    }
  }

  lemma TotalAfterUpdate(work: map<Address, Effort>, a: Address, e: Effort)
    ensures TotalWork(work[a := e]) == TotalWork(work) - (if a in work then work[a].work else 0.0) + e.work
  {
    TotalWithout(work[a := e], a);
    assert work[a := e] - {a} == work - {a};
    if a in work {
      TotalWithout(work, a);
    } else {
      assert work - {a} == work;
    }
  }

  function Positive(work: map<Address, Effort>): map<Address, Effort> {
    map a | a in work && work[a].work > 0.0 :: work[a]
  }

  /** Rows without work add nothing, so leaving them out of the sum changes nothing. */
  lemma {:induction false} PositiveIsAll(work: map<Address, Effort>)
    requires forall a | a in work :: work[a].work >= 0.0
    ensures TotalWork(Positive(work)) == TotalWork(work)
    decreases |work|
  {
    if work == map[] {
      assert Positive(work) == map[];
    } else {
      var a :| a in work;
      var rest := work - {a};
      TotalWithout(work, a);
      PositiveIsAll(rest);
      if work[a].work > 0.0 {
        assert Positive(rest) == Positive(work) - {a};
        TotalWithout(Positive(work), a);
      } else {
        assert Positive(rest) == Positive(work);
      }
    }
  }

  // ---------------------------------------------------------------------------------------
  // The operations

  /** The open round with the highest id. */
  function OpenRound(rounds: seq<Round>): (r: Option<nat>)
    ensures r.Some? ==> r.value < |rounds| && rounds[r.value].status == Open
    ensures r.None? ==> forall i | 0 <= i < |rounds| :: rounds[i].status != Open
  {
    if rounds == [] then None
    else if rounds[|rounds| - 1].status == Open then Some(|rounds| - 1)
    else OpenRound(rounds[..|rounds| - 1])
  }

  predicate HasRound(rounds: seq<Round>, height: int) {
    exists i :: 0 <= i < |rounds| && rounds[i].height == Some(height)
  }

  predicate HasLaterRound(rounds: seq<Round>, height: int) {
    exists i :: 0 <= i < |rounds| && rounds[i].height.Some? && rounds[i].height.value > height
  }

  function EnsureOpen(b: Book): Book {
    if OpenRound(b.rounds).Some? then b else b.(rounds := b.rounds + [FRESH])
  }

  /** `close_round_for_block`: end the open round, take its work, and open the next one. */
  ghost function CloseRound(b: Book, height: int, hash: Hash): Book {
    var e := EnsureOpen(b);
    if HasRound(e.rounds, height) then e
    else
      var i := OpenRound(e.rounds);
      if i.None? then e
      else
        var closed := Round(Some(height), hash, TotalWork(Positive(e.work)), Immature);
        Book(e.rounds[i.value := closed] + [FRESH], map[], e.closings + [height], e.credited)
  }

  /** `record_round_only`: a closed round without work, beside the open one. */
  function RecordRoundOnly(b: Book, height: int, hash: Hash): Book {
    if HasRound(b.rounds, height) then b
    else b.(rounds := b.rounds + [Round(Some(height), hash, 0.0, Immature)])
  }

  /** What `credit_round_work` adds: the counter's growth, or all of it when the counter restarted. */
  function Delta(cur: int, prev: int): int {
    var d := if cur >= prev then cur - prev else cur;
    if d < 0 then 0 else d
  }

  function CreditWork(b: Book, address: Address, diff: int): Book {
    if address == "" then b
    else
      var e := EnsureOpen(b);
      var prev := if address in e.work then e.work[address].lastDiff else 0;
      var had := if address in e.work then e.work[address].work else 0.0;
      var d := Delta(diff, prev) as real;
      e.(work := e.work[address := Effort(had + d, diff)], credited := e.credited + d)
  }

  /** The round tables' part of `_book_found_block`, for a block of `outputs` outputs with value. */
  ghost function BookRound(b: Book, existed: bool, outputs: nat, height: int, hash: Hash): Book {
    if outputs < 2 then b
    else if existed then b
    else if HasLaterRound(b.rounds, height) then RecordRoundOnly(b, height, hash)
    else CloseRound(b, height, hash)
  }

  /** `mature_rounds`: blocks deep enough under `tip` become payable. */
  function Mature(b: Book, due: int -> bool): Book {
    b.(rounds := seq(|b.rounds|, i requires 0 <= i < |b.rounds| =>
      var r := b.rounds[i];
      if r.status == Immature && r.height.Some? && due(r.height.value) then r.(status := Payable) else r))
  }

  // ---------------------------------------------------------------------------------------
  // What every operation keeps

  /** The work of the rounds that are over. */
  ghost function ClosedWork(rounds: seq<Round>): real {
    if rounds == [] then 0.0 else rounds[0].totalWork + ClosedWork(rounds[1..])
  }

  lemma {:induction false} ClosedWorkAppend(rounds: seq<Round>, r: Round)
    ensures ClosedWork(rounds + [r]) == ClosedWork(rounds) + r.totalWork
  {
    if rounds == [] {
      assert rounds + [r] == [r];
    } else {
      assert (rounds + [r])[1..] == rounds[1..] + [r];
      ClosedWorkAppend(rounds[1..], r);
    }
  }

  lemma {:induction false} ClosedWorkUpdate(rounds: seq<Round>, i: nat, r: Round)
    requires i < |rounds|
    ensures ClosedWork(rounds[i := r]) == ClosedWork(rounds) - rounds[i].totalWork + r.totalWork
  {
    if i == 0 {
      assert rounds[i := r][1..] == rounds[1..];
    } else {
      assert rounds[i := r][1..] == rounds[1..][i - 1 := r];
      ClosedWorkUpdate(rounds[1..], i - 1, r);
    }
  }

  lemma {:induction false} SameWork(xs: seq<Round>, ys: seq<Round>)
    requires |xs| == |ys| && forall i | 0 <= i < |xs| :: xs[i].totalWork == ys[i].totalWork
    ensures ClosedWork(xs) == ClosedWork(ys)
  {
    if xs != [] {
      SameWork(xs[1..], ys[1..]);
    }
  }

  ghost predicate RoundsOk(rounds: seq<Round>) {
    && (forall i, j | 0 <= i < |rounds| && 0 <= j < |rounds| && rounds[i].status == Open && rounds[j].status == Open :: i == j)
    && (forall i | 0 <= i < |rounds| :: (rounds[i].status == Open <==> rounds[i].height.None?))
    && (forall i | 0 <= i < |rounds| :: (rounds[i].status == Open ==> rounds[i].totalWork == 0.0))
    && (forall i, j | 0 <= i < j < |rounds| && rounds[i].height.Some? :: rounds[i].height != rounds[j].height)
  }

  ghost predicate ClosingsOk(b: Book) {
    && (forall i | 0 <= i < |b.closings| :: HasRound(b.rounds, b.closings[i]))
    && (forall i, j | 0 <= i < j < |b.closings| :: b.closings[i] < b.closings[j])
  }

  /**
    At most one round is open; a height has at most one round; the heights that closed the open
    round rise; and no work is lost or made up: all that was credited is in the open round's
    table or in a closed round.
   */
  ghost predicate BookOk(b: Book) {
    && RoundsOk(b.rounds)
    && ClosingsOk(b)
    && (forall a | a in b.work :: b.work[a].work >= 0.0)
    && b.credited == TotalWork(b.work) + ClosedWork(b.rounds)
  }

  predicate ExactlyOneOpen(rounds: seq<Round>) {
    exists i :: 0 <= i < |rounds| && rounds[i].status == Open && forall j | 0 <= j < |rounds| && j != i :: rounds[j].status != Open
  }

  /** Rounds are never dropped and a height, once given, stays. */
  ghost predicate Extends(xs: seq<Round>, ys: seq<Round>) {
    |xs| <= |ys| && forall i | 0 <= i < |xs| && xs[i].height.Some? :: ys[i].height == xs[i].height
  }

  lemma RoundsCarry(xs: seq<Round>, ys: seq<Round>)
    requires Extends(xs, ys)
    ensures forall h :: HasRound(xs, h) ==> HasRound(ys, h)
  {
    forall h | HasRound(xs, h) ensures HasRound(ys, h) {
      var k :| 0 <= k < |xs| && xs[k].height == Some(h);
      assert ys[k].height == Some(h);
    }
  }

  /** A fresh round added where none was open. */
  lemma FreshRoundAdded(rounds: seq<Round>)
    requires RoundsOk(rounds) && forall i | 0 <= i < |rounds| :: rounds[i].status != Open
    ensures var more := rounds + [FRESH];
      && RoundsOk(more) && ExactlyOneOpen(more) && Extends(rounds, more)
      && (forall h :: HasRound(more, h) <==> HasRound(rounds, h))
      && (forall h :: HasLaterRound(more, h) <==> HasLaterRound(rounds, h))
  {
    var more := rounds + [FRESH];
    assert forall i | 0 <= i < |rounds| :: more[i] == rounds[i];
    assert more[|rounds|].status == Open;
    SameHeights(rounds, more);
  }

  lemma SameHeights(rounds: seq<Round>, more: seq<Round>)
    requires |more| == |rounds| + 1 && (forall i | 0 <= i < |rounds| :: more[i] == rounds[i]) && more[|rounds|].height.None?
    ensures forall h :: HasRound(more, h) <==> HasRound(rounds, h)
    ensures forall h :: HasLaterRound(more, h) <==> HasLaterRound(rounds, h)
  {
    RoundsCarry(rounds, more);
    forall h | HasLaterRound(rounds, h) ensures HasLaterRound(more, h) {
      var k :| 0 <= k < |rounds| && rounds[k].height.Some? && rounds[k].height.value > h;
      assert more[k].height.Some? && more[k].height.value > h;
    }
  }

  lemma EnsureOpenKeeps(b: Book)
    requires BookOk(b)
    ensures var e := EnsureOpen(b);
      && BookOk(e) && ExactlyOneOpen(e.rounds) && OpenRound(e.rounds).Some?
      && Extends(b.rounds, e.rounds)
      && (forall h :: HasRound(e.rounds, h) <==> HasRound(b.rounds, h))
      && (forall h :: HasLaterRound(e.rounds, h) <==> HasLaterRound(b.rounds, h))
  {
    if OpenRound(b.rounds).None? {
      FreshRoundAdded(b.rounds);
      ClosedWorkAppend(b.rounds, FRESH);
      LastIsOpen(b.rounds);
      hide TotalWork, ClosedWork, RoundsOk, ExactlyOneOpen, Extends, HasRound, HasLaterRound, OpenRound;
    } else {
      assert b.rounds[OpenRound(b.rounds).value].status == Open;
      hide TotalWork, ClosedWork, HasRound, HasLaterRound;
    }
  }

  lemma LastIsOpen(rounds: seq<Round>)
    ensures OpenRound(rounds + [FRESH]).Some?
  {
  }

  /** Closing open round number `i` of a book in order. */
  lemma CloseOpenRound(e: Book, i: nat, height: int, hash: Hash)
    requires BookOk(e) && i < |e.rounds| && e.rounds[i].status == Open
    requires !HasRound(e.rounds, height) && !HasLaterRound(e.rounds, height)
    ensures var closed := Round(Some(height), hash, TotalWork(Positive(e.work)), Immature);
      var rounds := e.rounds[i := closed] + [FRESH];
      BookOk(Book(rounds, map[], e.closings + [height], e.credited)) && ExactlyOneOpen(rounds)
  {
    var closed := Round(Some(height), hash, TotalWork(Positive(e.work)), Immature);
    var rounds := e.rounds[i := closed] + [FRESH];
    ClosedWorkUpdate(e.rounds, i, closed);
    ClosedWorkAppend(e.rounds[i := closed], FRESH);
    PositiveIsAll(e.work);
    RoundsCarry(e.rounds, rounds);
    hide TotalWork, ClosedWork, Positive;
    assert rounds[|e.rounds|] == FRESH && rounds[i].height == Some(height);
  }

  /**
    Closing a round leaves exactly one round open, moves the whole of the open round's work into
    the round it closes, and is done only for a block above every block that has a round.
   */
  lemma CloseKeeps(b: Book, height: int, hash: Hash)
    requires BookOk(b) && !HasLaterRound(b.rounds, height)
    ensures var c := CloseRound(b, height, hash);
      && BookOk(c) && ExactlyOneOpen(c.rounds) && c.credited == b.credited
      && (!HasRound(b.rounds, height) ==> c.closings == b.closings + [height] && c.work == map[])
      && (HasRound(b.rounds, height) ==> c.closings == b.closings && c.work == b.work)
  {
    EnsureOpenKeeps(b);
    var e := EnsureOpen(b);
    if !HasRound(e.rounds, height) {
      CloseOpenRound(e, OpenRound(e.rounds).value, height, hash);
    }
  }

  /** The round that is running: what `round_work` holds and which round is open. */
  ghost predicate SameRunningRound(b: Book, c: Book) {
    && c.work == b.work
    && c.closings == b.closings
    && c.credited == b.credited
    && OpenRound(c.rounds) == OpenRound(b.rounds)
  }

  lemma {:induction false} OpenIsTheOnlyOne(rounds: seq<Round>, i: nat)
    requires i < |rounds| && rounds[i].status == Open
    requires forall j | 0 <= j < |rounds| && rounds[j].status == Open :: j == i
    ensures OpenRound(rounds) == Some(i)
  {
    var r := OpenRound(rounds);
    assert r.None? || rounds[r.value].status == Open;
  }

  /** A block booked late changes neither the open round nor its work. */
  lemma LateBlockLeavesTheRunningRound(b: Book, height: int, hash: Hash)
    requires BookOk(b)
    ensures var c := RecordRoundOnly(b, height, hash);
      BookOk(c) && SameRunningRound(b, c) && HasRound(c.rounds, height)
  {
    var c := RecordRoundOnly(b, height, hash);
    if !HasRound(b.rounds, height) {
      ClosedWorkAppend(b.rounds, Round(Some(height), hash, 0.0, Immature));
      assert c.rounds[|b.rounds|].height == Some(height);
      RoundsCarry(b.rounds, c.rounds);
      assert c.rounds[..|c.rounds| - 1] == b.rounds;
    }
  }

  /** No block at or above the height has a round. */
  predicate AboveAllRounds(rounds: seq<Round>, height: int) {
    forall i | 0 <= i < |rounds| && rounds[i].height.Some? :: rounds[i].height.value < height
  }

  /** The running round, or one begun and ended at once, is over: it has the height, the hash and all the work there was. */
  ghost predicate RunningRoundClosed(b: Book, c: Book, height: int, hash: Hash) {
    var closed := Round(Some(height), hash, TotalWork(b.work), Immature);
    && c.closings == b.closings + [height] && c.work == map[] && c.credited == b.credited
    && |c.rounds| >= |b.rounds| + 1
    && (forall i | 0 <= i < |b.rounds| :: c.rounds[i] == if b.rounds[i].status == Open then closed else b.rounds[i])
    && (if exists i :: 0 <= i < |b.rounds| && b.rounds[i].status == Open
        then |c.rounds| == |b.rounds| + 1
        else |c.rounds| == |b.rounds| + 2 && c.rounds[|b.rounds|] == closed)
    && c.rounds[|c.rounds| - 1] == Round(None, 0, 0.0, Open)
  }

  /** The block has a round of its own without work, and that is all that changed. */
  ghost predicate RecordedApart(b: Book, c: Book, height: int, hash: Hash) {
    c == b.(rounds := b.rounds + [Round(Some(height), hash, 0.0, Immature)])
  }

  /** Nothing changed, but a round was begun where none was running. */
  ghost predicate OnlyBegun(b: Book, c: Book) {
    c == b || ((forall i | 0 <= i < |b.rounds| :: b.rounds[i].status != Open) && c == b.(rounds := b.rounds + [Round(None, 0, 0.0, Open)]))
  }

  lemma CloseIs(b: Book, height: int, hash: Hash)
    requires BookOk(b) && AboveAllRounds(b.rounds, height)
    ensures RunningRoundClosed(b, CloseRound(b, height, hash), height, hash)
  {
    PositiveIsAll(b.work);
    hide TotalWork, ClosedWork, ClosingsOk, Positive;
    var e := EnsureOpen(b);
    var i := OpenRound(b.rounds);
    if i.Some? {
      assert b.rounds[i.value].status == Open;
      CloseOneIs(b, b, i.value, height, hash);
    } else {
      assert OpenRound(e.rounds) == Some(|b.rounds|);
      CloseOneIs(b, e, |b.rounds|, height, hash);
    }
  }

  lemma CloseOneIs(b: Book, e: Book, i: nat, height: int, hash: Hash)
    requires e == EnsureOpen(b) && i < |e.rounds| && OpenRound(e.rounds) == Some(i) && e.rounds[i].status == Open
    requires RoundsOk(b.rounds) && AboveAllRounds(b.rounds, height) && TotalWork(Positive(b.work)) == TotalWork(b.work)
    ensures RunningRoundClosed(b, CloseRound(b, height, hash), height, hash)
  {
    hide TotalWork, Positive, OpenRound;
    assert !HasRound(e.rounds, height);
    var c := CloseRound(b, height, hash);
    assert c.rounds == e.rounds[i := Round(Some(height), hash, TotalWork(b.work), Immature)] + [FRESH];
  }

  /**
    What booking a block does to the rounds, case by case. A block just found, with at least two
    outputs, a height without a found row and no round at or above it, closes the running round; one
    below another block's round is recorded apart; all others change nothing.
   */
  ghost predicate RoundsMove(b: Book, c: Book, existed: bool, outputs: nat, height: int, hash: Hash) {
    if outputs < 2 || existed then c == b
    else if AboveAllRounds(b.rounds, height) then RunningRoundClosed(b, c, height, hash)
    else if exists i :: 0 <= i < |b.rounds| && b.rounds[i].height == Some(height) then OnlyBegun(b, c)
    else RecordedApart(b, c, height, hash)
  }

  lemma BookRoundIs(b: Book, existed: bool, outputs: nat, height: int, hash: Hash)
    requires BookOk(b)
    ensures RoundsMove(b, BookRound(b, existed, outputs, height, hash), existed, outputs, height, hash)
  {
    if outputs >= 2 && !existed {
      if AboveAllRounds(b.rounds, height) {
        CloseIs(b, height, hash);
      } else {
        NotAboveAll(b, height);
      }
      hide RunningRoundClosed, BookOk, TotalWork;
    }
  }

  lemma NotAboveAll(b: Book, height: int)
    requires BookOk(b) && !AboveAllRounds(b.rounds, height)
    ensures HasRound(b.rounds, height) || HasLaterRound(b.rounds, height)
    ensures HasRound(b.rounds, height) ==> HasRound(EnsureOpen(b).rounds, height)
  {
    hide TotalWork, ClosedWork;
    EnsureOpenKeeps(b);
    var i :| 0 <= i < |b.rounds| && b.rounds[i].height.Some? && b.rounds[i].height.value >= height;
    assert b.rounds[i].height == Some(height) || b.rounds[i].height.value > height;
  }

  /**
    Booking a block keeps the ledger in order. It closes the running round exactly when the block has
    at least two outputs, its height had no row, and no block at or above it has a round; and then
    there is exactly one open round, with no work yet.
   */
  lemma BookRoundKeeps(b: Book, existed: bool, outputs: nat, height: int, hash: Hash)
    requires BookOk(b)
    ensures var c := BookRound(b, existed, outputs, height, hash);
      && BookOk(c)
      && c.credited == b.credited
      && (HasLaterRound(b.rounds, height) || existed || outputs < 2 ==> SameRunningRound(b, c))
      && (c.closings != b.closings <==> outputs >= 2 && !existed && AboveAllRounds(b.rounds, height))
      && (c.closings != b.closings ==>
            RunningRoundClosed(b, c, height, hash) && ExactlyOneOpen(c.rounds) && !HasLaterRound(b.rounds, height) && !HasRound(b.rounds, height))
  {
    BookRoundIs(b, existed, outputs, height, hash);
    if outputs >= 2 && !existed {
      if HasLaterRound(b.rounds, height) {
        LateBlockLeavesTheRunningRound(b, height, hash);
      } else {
        CloseKeeps(b, height, hash);
      }
    }
    hide TotalWork, ClosedWork, BookOk, OpenRound, CloseRound;
  }

  /**
    Crediting keeps the ledger in order, and adds what the address's counter gained: the growth since
    its last sample, or all of it when it is new or has gone back, and never less than nothing. It is
    the address's own row that changes, and a round is open afterwards.
   */
  lemma CreditKeeps(b: Book, address: Address, diff: int)
    requires BookOk(b)
    ensures BookOk(CreditWork(b, address, diff))
    ensures var gain := CreditWork(b, address, diff).credited - b.credited;
      && (address == "" ==> gain == 0.0)
      && (address != "" && address in b.work && b.work[address].lastDiff <= diff ==> gain == (diff - b.work[address].lastDiff) as real)
      && (address != "" && !(address in b.work && b.work[address].lastDiff <= diff) ==> gain == (if diff > 0 then diff else 0) as real)
    ensures CreditWork(b, address, diff).closings == b.closings
    ensures var c := CreditWork(b, address, diff);
      && (forall a | a != address :: (a in c.work <==> a in b.work) && (a in c.work ==> c.work[a] == b.work[a]))
      && (address != "" ==> ExactlyOneOpen(c.rounds) && address in c.work && c.work[address].lastDiff == diff)
  {
    EnsureOpenKeeps(b);
    var e := EnsureOpen(b);
    if address != "" {
      TotalAfterUpdate(e.work, address, CreditWork(b, address, diff).work[address]);
    }
  }

  /** Maturing keeps the ledger in order; exactly the rounds of blocks that are due become payable, and only their status changes. */
  lemma MatureKeeps(b: Book, due: int -> bool)
    requires BookOk(b)
    ensures BookOk(Mature(b, due)) && SameRunningRound(b, Mature(b, due))
    ensures var xs, ys := b.rounds, Mature(b, due).rounds;
      && |ys| == |xs|
      && forall i | 0 <= i < |xs| ::
        && ys[i] == xs[i].(status := ys[i].status)
        && (ys[i].status == Payable <==> xs[i].status == Payable || (xs[i].height.Some? && due(xs[i].height.value)))
  {
    var c := Mature(b, due);
    MatureTouchesStatus(b, due);
    DueArePayable(b, due);
    hide Mature, TotalWork, ClosedWork, HasRound, OpenRound;
    SameWork(b.rounds, c.rounds);
    RoundsCarry(b.rounds, c.rounds);
    SameOpenRound(b.rounds, c.rounds);
  }

  /** Two lists of rounds that differ in their closed rounds' status alone. */
  ghost predicate StatusAside(xs: seq<Round>, ys: seq<Round>) {
    && |ys| == |xs|
    && forall i | 0 <= i < |xs| :: ys[i] == xs[i].(status := ys[i].status) && (ys[i].status == Open <==> xs[i].status == Open)
  }

  lemma MatureTouchesStatus(b: Book, due: int -> bool)
    ensures StatusAside(b.rounds, Mature(b, due).rounds) && Mature(b, due) == b.(rounds := Mature(b, due).rounds)
  {
  }

  lemma DueArePayable(b: Book, due: int -> bool)
    requires RoundsOk(b.rounds)
    ensures var ys := Mature(b, due).rounds;
      && |ys| == |b.rounds|
      && forall i | 0 <= i < |b.rounds| ::
           ys[i].status == Payable <==> b.rounds[i].status == Payable || (b.rounds[i].height.Some? && due(b.rounds[i].height.value))
  {
  }

  lemma SameOpenRound(rounds: seq<Round>, after: seq<Round>)
    requires |after| == |rounds| && RoundsOk(rounds)
    requires forall i | 0 <= i < |rounds| :: after[i].status == Open <==> rounds[i].status == Open
    ensures OpenRound(after) == OpenRound(rounds)
  {
    match OpenRound(rounds) {
      case Some(i) => OpenIsTheOnlyOne(after, i);
      case None =>
    }
  }
}
