/**
  Make-goods of pool/server.py: what a block's coinbase left unpaid out of the split issued for
  it, the custody fee on such a payment, and what the two say together.
 */
module Makegood {
  import opened Prelude

  /** An item of the split as the record has it; one that cannot be read is skipped. */
  datatype Raw = Raw(address: string, sats: int) | Unreadable

  datatype Entry = Entry(address: string, sats: nat)

  /** `_split_items` */
  function SplitItems(raw: seq<Raw>): seq<Entry> {
    if raw == [] then []
    else if raw[0].Raw? && raw[0].address != "" && raw[0].sats > 0
    then [Entry(raw[0].address, raw[0].sats)] + SplitItems(raw[1..])
    else SplitItems(raw[1..])
  }

  /** Read item by item: one that names nobody, has no positive value or cannot be read counts for nothing. */
  lemma {:induction false} SplitItemsIs(raw: seq<Raw>, r: Raw)
    ensures SplitItems([]) == []
    ensures SplitItems(raw + [r]) == SplitItems(raw) + match r
      case Raw(a, sats) => if a == "" || sats <= 0 then [] else [Entry(a, sats)]
      case Unreadable => []
  {
    if raw == [] {
      assert [] + [r] == [r] && [r][1..] == [];
      assert SplitItems([]) == [];
    } else {
      assert (raw + [r])[1..] == raw[1..] + [r];
      SplitItemsIs(raw[1..], r);
    }
  }

  function Left(remaining: map<string, int>, a: string): int {
    if a in remaining then remaining[a] else 0
  }

  /** The entries left unpaid, with `remaining` on-chain value to cover them. */
  function Unpaid(items: seq<Entry>, remaining: map<string, int>, pool: string): seq<Entry>
    decreases |items|
  {
    if items == [] then []
    else
      var a := items[0].address;
      if a == pool then Unpaid(items[1..], remaining, pool)
      else if Left(remaining, a) <= 0 then [items[0]] + Unpaid(items[1..], remaining, pool)
      else Unpaid(items[1..], remaining[a := Left(remaining, a) - items[0].sats], pool)
  }

  method MakegoodUnpaid(raw: seq<Raw>, onchain: map<string, int>, pool: string) returns (unpaid: seq<Entry>)
    ensures unpaid == Unpaid(SplitItems(raw), onchain, pool)
  {
    var items := SplitItems(raw);
    var remaining := onchain;
    unpaid := [];
    for i := 0 to |items|
      invariant unpaid + Unpaid(items[i..], remaining, pool) == Unpaid(items, onchain, pool)
    {
      var x := items[i];
      assert items[i..][1..] == items[i + 1..];
      if x.address != pool {
        if Left(remaining, x.address) <= 0 {
          unpaid := unpaid + [x];
        } else {
          remaining := remaining[x.address := Left(remaining, x.address) - x.sats];
        }
      }
    }
  }

  // ---------------------------------------------------------------------------------------
  // Address by address

  function Total(xs: seq<nat>): nat {
    if xs == [] then 0 else xs[0] + Total(xs[1..])
  }

  /** One address's entries, in order. */
  function Of(items: seq<Entry>, a: string): seq<nat> {
    if items == [] then [] else (if items[0].address == a then [items[0].sats] else []) + Of(items[1..], a)
  }

  /** How many of its entries an address's on-chain value covers: the fewest that reach it. */
  function Covered(entries: seq<nat>, value: int): (k: nat)
    ensures k <= |entries|
  {
    if entries == [] || value <= 0 then 0 else 1 + Covered(entries[1..], value - entries[0])
  }

  lemma {:induction false} TotalSplits(xs: seq<nat>, k: nat)
    requires k <= |xs|
    ensures Total(xs) == Total(xs[..k]) + Total(xs[k..])
  {
    if k == 0 {
      assert xs[k..] == xs;
    } else {
      TotalSplits(xs[1..], k - 1);
      assert xs[..k][1..] == xs[1..][..k - 1] && xs[1..][k - 1..] == xs[k..];
    }
  }

  lemma OfOneMore(x: Entry, rest: seq<Entry>, a: string)
    ensures Of([x] + rest, a) == if x.address == a then [x.sats] + Of(rest, a) else Of(rest, a)
  {
    assert ([x] + rest)[1..] == rest;
  }

  /** What is left of the on-chain value after an entry, and whether it is paid. */
  function AfterEntry(x: Entry, remaining: map<string, int>, pool: string): map<string, int> {
    if x.address != pool && Left(remaining, x.address) > 0 then remaining[x.address := Left(remaining, x.address) - x.sats]
    else remaining
  }

  lemma UnpaidStep(x: Entry, rest: seq<Entry>, remaining: map<string, int>, pool: string)
    ensures Unpaid([x] + rest, remaining, pool)
         == (if x.address != pool && Left(remaining, x.address) <= 0 then [x] else []) + Unpaid(rest, AfterEntry(x, remaining, pool), pool)
  {
    assert ([x] + rest)[1..] == rest;
  }

  lemma CoveredStep(e: nat, rest: seq<nat>, value: int)
    ensures Covered([e] + rest, value) == if value <= 0 then 0 else 1 + Covered(rest, value - e)
    ensures value > 0 ==> ([e] + rest)[Covered([e] + rest, value)..] == rest[Covered(rest, value - e)..]
  {
    assert ([e] + rest)[1..] == rest;
  }

  lemma NothingCovered(rest: seq<nat>, value: int)
    requires value <= 0
    ensures Covered(rest, value) == 0 && rest[Covered(rest, value)..] == rest
  {
  }

  /** What is left to an address: the entries after the covered ones; to the pool nothing. */
  function Owed(entries: seq<nat>, value: int, isPool: bool): seq<nat> {
    if isPool then [] else entries[Covered(entries, value)..]
  }

  lemma OtherEntry(x: Entry, rest: seq<Entry>, remaining: map<string, int>, pool: string, a: string)
    requires x.address != a
    ensures var left := AfterEntry(x, remaining, pool);
      && Left(left, a) == Left(remaining, a) && Of([x] + rest, a) == Of(rest, a)
      && Of(Unpaid([x] + rest, remaining, pool), a) == Of(Unpaid(rest, left, pool), a)
  {
    var left := AfterEntry(x, remaining, pool);
    assert Left(left, a) == Left(remaining, a);
    UnpaidStep(x, rest, remaining, pool);
    hide *;
    OfOneMore(x, rest, a);
    OfOneMore(x, Unpaid(rest, left, pool), a);
    assert [] + Unpaid(rest, left, pool) == Unpaid(rest, left, pool);
  }

  lemma OwnEntry(x: Entry, rest: seq<Entry>, remaining: map<string, int>, pool: string)
    ensures var a, left := x.address, AfterEntry(x, remaining, pool);
      && Of([x] + rest, a) == [x.sats] + Of(rest, a)
      && Of(Unpaid([x] + rest, remaining, pool), a)
         == (if a != pool && Left(remaining, a) <= 0 then [x.sats] else []) + Of(Unpaid(rest, left, pool), a)
      && Left(left, a) == if a != pool && Left(remaining, a) > 0 then Left(remaining, a) - x.sats else Left(remaining, a)
  {
    var a, left := x.address, AfterEntry(x, remaining, pool);
    assert Left(left, a) == if a != pool && Left(remaining, a) > 0 then Left(remaining, a) - x.sats else Left(remaining, a);
    UnpaidStep(x, rest, remaining, pool);
    hide *;
    OfOneMore(x, rest, a);
    OfOneMore(x, Unpaid(rest, left, pool), a);
    assert [] + Unpaid(rest, left, pool) == Unpaid(rest, left, pool);
    assert [] + Of(Unpaid(rest, left, pool), a) == Of(Unpaid(rest, left, pool), a);
  }

  lemma OwedStep(e: nat, rest: seq<nat>, value: int, isPool: bool)
    ensures Owed([e] + rest, value, isPool)
         == if isPool then [] else if value <= 0 then [e] + Owed(rest, value, isPool) else Owed(rest, value - e, isPool)
  {
    if value <= 0 {
      NothingCovered(rest, value);
      NothingCovered([e] + rest, value);
    } else {
      CoveredStep(e, rest, value);
    }
  }

  lemma OwnStep(x: Entry, rest: seq<Entry>, remaining: map<string, int>, pool: string)
    requires var a, left := x.address, AfterEntry(x, remaining, pool);
      Of(Unpaid(rest, left, pool), a) == Owed(Of(rest, a), Left(left, a), a == pool)
    ensures var a := x.address;
      Of(Unpaid([x] + rest, remaining, pool), a) == Owed(Of([x] + rest, a), Left(remaining, a), a == pool)
  {
    hide *;
    var a, left := x.address, AfterEntry(x, remaining, pool);
    OwnEntry(x, rest, remaining, pool);
    OwedStep(x.sats, Of(rest, a), Left(remaining, a), a == pool);
    PoolIsOwedNothing(Of(rest, a), Left(left, a));
    assert [] + Owed(Of(rest, a), Left(left, a), a == pool) == Owed(Of(rest, a), Left(left, a), a == pool);
  }

  /** The walk leaves an address exactly the entries after the covered ones; the pool is owed nothing. */
  lemma {:induction false} UnpaidOfAddress(items: seq<Entry>, remaining: map<string, int>, pool: string, a: string)
    ensures Of(Unpaid(items, remaining, pool), a) == Owed(Of(items, a), Left(remaining, a), a == pool)
    decreases |items|
  {
    if items == [] {
      assert Of([], a) == [] && Unpaid([], remaining, pool) == [];
    } else {
      hide *;
      var x, rest := items[0], items[1..];
      UnpaidOfAddress(rest, AfterEntry(x, remaining, pool), pool, a);
      assert items == [x] + rest;
      if x.address == a {
        OwnStep(x, rest, remaining, pool);
      } else {
        OtherEntry(x, rest, remaining, pool, a);
      }
    }
  }

  lemma PoolIsOwedNothing(entries: seq<nat>, value: int)
    ensures Owed(entries, value, true) == [] == Owed(entries, value, true) + []
  {
  }

  /** `xs` is what is left of `ys` when some elements are taken out. */
  ghost predicate LeftOf<T>(xs: seq<T>, ys: seq<T>) {
    if ys == [] then xs == []
    else LeftOf(xs, ys[1..]) || (xs != [] && xs[0] == ys[0] && LeftOf(xs[1..], ys[1..]))
  }

  /** The unpaid entries are in the order of the split, whoever's they are. */
  lemma {:induction false} UnpaidInOrder(items: seq<Entry>, remaining: map<string, int>, pool: string)
    ensures LeftOf(Unpaid(items, remaining, pool), items)
    decreases |items|
  {
    if items != [] {
      var x, rest := items[0], items[1..];
      UnpaidInOrder(rest, AfterEntry(x, remaining, pool), pool);
      UnpaidStep(x, rest, remaining, pool);
      assert items == [x] + rest;
      var left := Unpaid(rest, AfterEntry(x, remaining, pool), pool);
      assert ([x] + left)[1..] == left && [] + left == left;
      hide Unpaid, AfterEntry;
    }
  }

  /** The covered entries are the shortest prefix that reaches the on-chain value, or all of them. */
  lemma {:induction false} CoveredIsShortest(entries: seq<nat>, value: int)
    ensures var k := Covered(entries, value);
      && (Total(entries[..k]) >= value || k == |entries|)
      && forall j | 0 <= j < k :: Total(entries[..j]) < value
  {
    if entries != [] && value > 0 {
      CoveredIsShortest(entries[1..], value - entries[0]);
      var k := Covered(entries, value);
      assert forall j | 1 <= j <= |entries| :: entries[..j][1..] == entries[1..][..j - 1];
      forall j | 0 <= j < k ensures Total(entries[..j]) < value {
        if j > 0 {
          assert Total(entries[1..][..j - 1]) < value - entries[0];
        }
      }
    }
  }

  function UnpaidSats(entries: seq<nat>, value: nat): nat { Total(entries[Covered(entries, value)..]) }

  function Max(a: nat, b: nat): nat { if a < b then b else a }

  /** The on-chain value pays a whole number of the entries: it covers them all, or it is just what the first few come to. */
  ghost predicate PaysWhole(entries: seq<nat>, value: nat) {
    value >= Total(entries) || exists k :: 0 <= k <= |entries| && Total(entries[..k]) == value
  }

  lemma TotalOfOneMore(xs: seq<nat>, j: nat)
    requires 0 < j <= |xs|
    ensures Total(xs[..j]) == Total(xs[..j - 1]) + xs[j - 1]
  {
    TotalSplits(xs[..j], j - 1);
    assert xs[..j][..j - 1] == xs[..j - 1] && xs[..j][j - 1..] == [xs[j - 1]];
    assert [xs[j - 1]][1..] == [];
  }

  lemma {:induction false} TotalsRise(xs: seq<nat>, i: nat, j: nat)
    requires i <= j <= |xs| && forall x <- xs :: x > 0
    ensures Total(xs[..i]) <= Total(xs[..j]) && (i < j ==> Total(xs[..i]) < Total(xs[..j]))
    decreases j
  {
    if i < j {
      TotalsRise(xs, i, j - 1);
      TotalOfOneMore(xs, j);
      assert xs[j - 1] in xs;
    }
  }

  /**
    On-chain and unpaid together never exceed the larger of what was issued and what was paid,
    fall short of it by less than the last entry covered, and reach it exactly when the on-chain
    value pays whole entries.
   */
  lemma TwoFigures(entries: seq<nat>, value: nat)
    requires forall x <- entries :: x > 0
    ensures var k, sum, most := Covered(entries, value), value + UnpaidSats(entries, value), Max(Total(entries), value);
      && sum <= most
      && sum > most - (if k > 0 then entries[k - 1] else 1)
      && (sum == most <==> PaysWhole(entries, value))
  {
    var k := Covered(entries, value);
    CoveredIsShortest(entries, value);
    TotalSplits(entries, k);
    if k > 0 {
      TotalOfOneMore(entries, k);
      assert entries[k - 1] in entries;
      assert Total(entries[..k - 1]) < value;
    }
    hide Covered, Total;
    if k == |entries| {
      assert entries[..k] == entries;
    }
    if value < Total(entries) && PaysWhole(entries, value) {
      var j :| 0 <= j <= |entries| && Total(entries[..j]) == value;
      TotalsRise(entries, if j < k then j else k, if j < k then k else j);
    }
  }

  /** Entries of a split are positive. */
  lemma {:induction false} ItemsArePositive(raw: seq<Raw>, a: string)
    ensures forall x <- Of(SplitItems(raw), a) :: x > 0
  {
    if raw != [] {
      ItemsArePositive(raw[1..], a);
    }
  }

  // ---------------------------------------------------------------------------------------
  // A window of blocks

  /** A block: the split issued for it, and what its coinbase paid each address. */
  datatype Paid = Paid(split: seq<Raw>, onchain: map<string, int>)

  function Entries(b: Paid, a: string): seq<nat> { Of(SplitItems(b.split), a) }

  /** What a block's coinbase paid the address; an output's value is never negative. */
  function PaidTo(b: Paid, a: string): nat {
    if Left(b.onchain, a) > 0 then Left(b.onchain, a) else 0
  }

  /** The two figures of `earned_window`: coinbase outputs, and the make-goods `makegood_unpaid` finds. */
  function CoinbaseSats(blocks: seq<Paid>, a: string): nat {
    if blocks == [] then 0 else PaidTo(blocks[0], a) + CoinbaseSats(blocks[1..], a)
  }

  function MakegoodSats(blocks: seq<Paid>, a: string, pool: string): nat {
    if blocks == [] then 0
    else Total(Of(Unpaid(SplitItems(blocks[0].split), blocks[0].onchain, pool), a)) + MakegoodSats(blocks[1..], a, pool)
  }

  /** What the blocks owed the address, or paid it where that is more. */
  function OwedSats(blocks: seq<Paid>, a: string): nat {
    if blocks == [] then 0 else Max(Total(Entries(blocks[0], a)), PaidTo(blocks[0], a)) + OwedSats(blocks[1..], a)
  }

  lemma UnpaidIsUnpaidSats(b: Paid, a: string, pool: string)
    ensures Total(Of(Unpaid(SplitItems(b.split), b.onchain, pool), a)) == if a == pool then 0 else UnpaidSats(Entries(b, a), PaidTo(b, a))
  {
    UnpaidOfAddress(SplitItems(b.split), b.onchain, pool, a);
    if Left(b.onchain, a) <= 0 {
      NothingCovered(Entries(b, a), Left(b.onchain, a));
      NothingCovered(Entries(b, a), 0);
    }
    PoolIsOwedNothing(Entries(b, a), Left(b.onchain, a));
    assert Total([]) == 0;
    hide Covered, Unpaid, SplitItems, Of;
  }

  /**
    The two figures of a window never count a satoshi twice; and they add up to what the blocks
    owed exactly when every one of them paid the address whole entries. The pool's own address is
    never owed anything.
   */
  lemma {:induction false} FiguresDoNotOverlap(blocks: seq<Paid>, a: string, pool: string)
    ensures CoinbaseSats(blocks, a) + MakegoodSats(blocks, a, pool) <= OwedSats(blocks, a)
    ensures var sum := CoinbaseSats(blocks, a) + MakegoodSats(blocks, a, pool);
      a != pool ==> (sum == OwedSats(blocks, a) <==> forall b | b in blocks :: PaysWhole(Entries(b, a), PaidTo(b, a)))
    ensures a == pool ==> MakegoodSats(blocks, a, pool) == 0
  {
    if blocks != [] {
      ItemsArePositive(blocks[0].split, a);
      TwoFigures(Entries(blocks[0], a), PaidTo(blocks[0], a));
      UnpaidIsUnpaidSats(blocks[0], a, pool);
      FiguresDoNotOverlap(blocks[1..], a, pool);
      hide Entries, UnpaidSats, PaysWhole, Max, PaidTo, Unpaid, SplitItems, Of;
      assert forall b :: b in blocks <==> b == blocks[0] || b in blocks[1..];
    }
  }

  /** They can fall short: a coinbase that pays part of an entry is taken to have paid all of it. */
  lemma PartOfAnEntryIsLost()
    ensures var b := Paid([Raw("a", 10)], map["a" := 4]);
      CoinbaseSats([b], "a") + MakegoodSats([b], "a", "p") == 4 && OwedSats([b], "a") == 10
  {
    var b := Paid([Raw("a", 10)], map["a" := 4]);
    assert SplitItems(b.split) == [Entry("a", 10)];
    assert Entries(b, "a") == [10];
    assert Covered([10], 4) == 1;
    assert Total([10]) == 10;
    assert "a" != "p" by { assert "a"[0] != "p"[0]; }
    UnpaidIsUnpaidSats(b, "a", "p");
    assert [b][1..] == [];
  }

  // ---------------------------------------------------------------------------------------
  // The custody fee

  /** The smallest output the fee wallet pays to an address. */
  function DustFloor(address: string): int {
    if StartsWith(address, "1") then 546
    else if StartsWith(address, "3") then 540
    else if StartsWith(address, "bc1p") then 330
    else 294
  }

  function CustodyCut(address: string, sats: int, bps: int): int {
    if bps <= 0 then 0
    else
      var cut := sats * bps / 10000;
      if sats - cut < DustFloor(address) then 0 else cut
  }

  lemma FloorOf(n: int, d: int)
    requires d > 0
    ensures d * (n / d) <= n < d * (n / d) + d
  {
  }

  /** The least each kind of address can be paid, in satoshis. */
  lemma FloorIs(address: string)
    ensures DustFloor(address) ==
      if address == "" then 294
      else if address[0] == '1' then 546
      else if address[0] == '3' then 540
      else if |address| >= 4 && address[..4] == "bc1p" then 330
      else 294
  {
    assert StartsWith(address, "1") <==> address != "" && address[0] == '1';
    assert StartsWith(address, "3") <==> address != "" && address[0] == '3';
    assert StartsWith(address, "bc1p") <==> |address| >= 4 && address[..4] == "bc1p";
  }

  /**
    The fee is a whole part of the payment, never more than its rate, and is taken exactly when
    its own rounding leaves a satoshi and the rest can still be paid to the address.
   */
  lemma CustodySplits(address: string, sats: nat, bps: int)
    ensures var fee, rate := CustodyCut(address, sats, bps), sats * bps / 10000;
      && 0 <= fee <= sats && (fee > 0 ==> sats - fee >= DustFloor(address) && fee == rate)
      && 10000 * fee <= sats * (if bps > 0 then bps else 0)
      && (fee > 0 <==> bps > 0 && sats * bps >= 10000 && sats - rate >= DustFloor(address))
  {
    FloorOf(sats * bps, 10000);
    if bps > 0 {
      assert sats * bps >= 0;
    }
  }

  /** A rate of all or more takes nothing: there would be nothing left to pay. */
  lemma NoFeeAtFullRate(address: string, sats: nat, bps: int)
    requires bps >= 10000
    ensures CustodyCut(address, sats, bps) == 0
  {
    FloorOf(sats * bps, 10000);
    assert sats * bps >= sats * 10000;
  }
}
