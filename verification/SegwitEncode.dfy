/**
  Writing a segwit address as BIP 173 and BIP 350 say, and that `segwit` accepts exactly what is
  written: for each 20- or 32-byte program of version 0 and each 32-byte program of version 1.
 */
module SegwitEncode {
  import opened Prelude
  import opened Bits
  import opened Checksum
  import opened Regroup
  import opened Segwit

  // ---------------------------------------------------------------------------------------
  // Bytes into groups of five bits

  /** The bytes one after the other, as one number. */
  function Number(p: seq<nat>): nat {
    if p == [] then 0 else 256 * Number(p[..|p| - 1]) + p[|p| - 1]
  }

  /** The `n` lowest groups of a number, highest first. */
  function GroupsOf(q: nat, n: nat): (s: seq<nat>)
    ensures |s| == n && AreGroups(s)
  {
    if n == 0 then [] else GroupsOf(q / 32, n - 1) + [q % 32]
  }

  /** How many zero bits fill up the last group. */
  function Padding(n: nat): nat { (5 - 8 * n % 5) % 5 }

  /** The program in groups of five bits, filled up with zeros. */
  function Grouped(p: seq<nat>): (s: seq<nat>)
    ensures AreGroups(s) && 5 * |s| == 8 * |p| + Padding(|p|)
  {
    GroupsOf(Number(p) * Pow2(Padding(|p|)), (8 * |p| + Padding(|p|)) / 5)
  }

  lemma {:induction false} JoinedGroups(q: nat, n: nat)
    requires q < Pow2(5 * n)
    ensures Joined(GroupsOf(q, n)) == q
    decreases n
  {
    if n > 0 {
      Pow2Sum(5 * (n - 1), 5);
      Pow32();
      assert q / 32 < Pow2(5 * (n - 1));
      JoinedGroups(q / 32, n - 1);
      assert GroupsOf(q, n)[..n - 1] == GroupsOf(q / 32, n - 1);
    }
  }

  lemma {:induction false} NumberFits(p: seq<nat>)
    requires AreBytes(p)
    ensures Number(p) < Pow2(8 * |p|)
  {
    if p != [] {
      NumberFits(p[..|p| - 1]);
      Pow2Sum(8 * (|p| - 1), 8);
      assert Pow2(8) == 256 by { Pow256IsPow2(1); assert Pow256(0) == 1 && Pow256(1) == 256; }
    }
  }

  lemma {:induction false} BytesAgain(p: seq<nat>)
    requires AreBytes(p)
    ensures BigEndian(Number(p), |p|) == p
  {
    if p != [] {
      var n := |p| - 1;
      BytesAgain(p[..n]);
      assert Number(p) / 256 == Number(p[..n]) && Number(p) % 256 == p[n];
      assert p == p[..n] + [p[n]];
    }
  }

  lemma Filled(a: nat, m: nat)
    requires m > 0
    ensures a * m % m == 0 && a * m / m == a
  {
    DivModIs(a * m, m, a, 0);
  }

  lemma LeftOver(n: nat, pad: nat, whole: nat)
    requires 5 * n == 8 * whole + pad && pad < 5
    ensures 5 * n % 8 == pad && 5 * n / 8 == whole
  {
  }

  lemma WholeBytes(d: seq<nat>, q: nat, pad: nat, whole: nat)
    requires 5 * |d| == 8 * whole + pad && pad < 5 && Joined(d) == q * Pow2(pad)
    ensures Regrouped(d) == Some(BigEndian(q, whole))
  {
    LeftOver(|d|, pad, whole);
    Filled(q, Pow2(pad));
    hide Joined, BigEndian, Pow2;
  }

  lemma Scaled(x: nat, a: nat, m: nat)
    requires x < a && m > 0
    ensures x * m < a * m
  {
  }

  /** Grouping a program and taking the bytes out again gives the program. */
  lemma GroupedIsRegrouped(p: seq<nat>)
    requires AreBytes(p)
    ensures Regrouped(Grouped(p)) == Some(p)
  {
    hide *;
    var pad := Padding(|p|);
    var n := |Grouped(p)|;
    NumberFits(p);
    BytesAgain(p);
    Pow2Sum(8 * |p|, pad);
    Scaled(Number(p), Pow2(8 * |p|), Pow2(pad));
    GroupedIs(p);
    JoinedGroups(Number(p) * Pow2(pad), n);
    WholeBytes(Grouped(p), Number(p), pad, |p|);
  }

  lemma GroupedIs(p: seq<nat>)
    ensures Grouped(p) == GroupsOf(Number(p) * Pow2(Padding(|p|)), |Grouped(p)|) && Padding(|p|) < 5
  {
    hide Number, Pow2, GroupsOf;
  }

  // ---------------------------------------------------------------------------------------
  // Checksum symbols

  /** The number whose pattern this is, for patterns of `k` bits. */
  function SymbolOf(b: bv32, k: nat): nat {
    if k == 0 then 0 else 2 * SymbolOf(b >> 1, k - 1) + if b & 1 == 1 then 1 else 0
  }

  predicate FitsIn(b: bv32, k: nat) { if k == 0 then b == 0 else FitsIn(b >> 1, k - 1) }

  lemma Halves(b: bv32)
    ensures ((b >> 1) << 1) | (if b & 1 == 1 then 1 else 0) == b
  {
  }

  lemma PatternOfDouble(n: nat, r: nat)
    requires r < 2
    ensures Pattern(2 * n + r) == (Pattern(n) << 1) | (if r == 1 then 1 else 0)
  {
    if n == 0 {
      assert Pattern(0) << 1 == 0;
    }
  }

  lemma {:induction false} PatternOfSymbol(b: bv32, k: nat)
    requires FitsIn(b, k)
    ensures Pattern(SymbolOf(b, k)) == b && SymbolOf(b, k) < Pow2(k)
    decreases k
  {
    hide Pattern;
    if k > 0 {
      PatternOfSymbol(b >> 1, k - 1);
      PatternOfDouble(SymbolOf(b >> 1, k - 1), if b & 1 == 1 then 1 else 0);
      Halves(b);
    } else {
      assert Pattern(0) == 0 by { PatternOfNothing(); }
    }
  }

  lemma PatternOfNothing()
    ensures Pattern(0) == 0
  {
  }

  lemma SmallFits(b: bv32)
    requires b < 32
    ensures FitsIn(b, 5)
  {
    assert b >> 1 >> 1 >> 1 >> 1 >> 1 == 0;
    assert FitsIn(b >> 1 >> 1 >> 1 >> 1 >> 1, 0);
    assert FitsIn(b >> 1 >> 1 >> 1 >> 1, 1);
    assert FitsIn(b >> 1 >> 1 >> 1, 2);
  }

  /** A state without its `k` lowest symbols. */
  function Down(c: bv32, k: nat): bv32 { if k == 0 then c else Down(c, k - 1) >> 5 }

  /** Symbol number `k` of a state, from the lowest. */
  function Digit(c: bv32, k: nat): nat { SymbolOf(Low(Down(c, k)), 5) }

  lemma LowIsSmall(c: bv32)
    ensures Low(c) < 32
  {
  }

  lemma DigitIs(c: bv32, k: nat)
    ensures Pattern(Digit(c, k)) == Low(Down(c, k)) && Digit(c, k) < 32
  {
    hide *;
    LowIsSmall(Down(c, k));
    SmallFits(Low(Down(c, k)));
    PatternOfSymbol(Low(Down(c, k)), 5);
    Pow32();
    DigitOf(c, k);
  }

  lemma DigitOf(c: bv32, k: nat)
    ensures Digit(c, k) == SymbolOf(Low(Down(c, k)), 5)
  {
    hide Low, Down, SymbolOf;
  }

  function Up(e: bv32): bv32 { e << 5 }

  lemma DownAndUp(e: bv32)
    ensures Xor(Up(e >> 5), Low(e)) == e
  {
  }

  /** At most `k` symbols. */
  predicate HasAtMost(c: bv32, k: nat) { c < Lim(k) }

  lemma DownFits(e: bv32, k: nat)
    requires k <= 5 && HasAtMost(e, k + 1)
    ensures HasAtMost(e >> 5, k)
  {
  }

  lemma MoreFits(c: bv32, k: nat)
    requires k <= 5 && HasAtMost(c, k)
    ensures c < 0x2000000
  {
  }

  lemma StateFits(c: bv32)
    requires c < LIMIT
    ensures HasAtMost(c, 6)
  {
  }

  lemma NothingFits(c: bv32)
    requires HasAtMost(c, 0)
    ensures c == 0
  {
  }

  lemma {:induction false} DownIsSmall(z: bv32, k: nat)
    requires z < LIMIT && k <= 6
    ensures HasAtMost(Down(z, k), 6 - k)
    decreases k
  {
    hide HasAtMost;
    if k == 0 {
      StateFits(z);
    } else {
      DownIsSmall(z, k - 1);
      DownFits(Down(z, k - 1), 6 - k);
    }
  }

  lemma TopOfSum(x: bv32, e: bv32)
    requires e < 0x2000000
    ensures Top(Xor(x, e)) == Top(x)
  {
  }

  lemma LiftedSum(x: bv32, e: bv32)
    requires e < 0x2000000
    ensures Lifted(Xor(x, e)) == Xor(Lifted(x), Up(e))
  {
  }

  /** What has been added below the top moves up untouched. */
  lemma StepOfSum(x: bv32, e: bv32, v: bv32)
    requires e < 0x2000000
    ensures Step(Xor(x, e), v) == Xor(Step(x, 0), Xor(Up(e), v))
  {
    hide Step, Folded, Xor, Lifted, Top, Up;
    StepIs(Xor(x, e), v);
    StepIs(x, 0);
    TopOfSum(x, e);
    LiftedSum(x, e);
    var l, u, f := Lifted(x), Up(e), Folded(0, Top(x));
    XorNothing(l);
    XorMoves(l, u, v);
    XorMoves(l, Xor(u, v), f);
    XorSwaps(Xor(u, v), f);
    XorMoves(l, f, Xor(u, v));
  }

  /** The state `n` zero symbols later. */
  function Zeros(c: bv32, n: nat): bv32 { if n == 0 then c else Step(Zeros(c, n - 1), 0) }

  /** What the six symbols have to add up to, for the checksum to come to `goal`. */
  function Missing(values: seq<nat>, goal: bv32): bv32 { Xor(Zeros(Polymod(values), 6), goal) }

  /** The checksum, BIP 173 and BIP 350: six zeros are appended, and `goal` added to what comes out. */
  function CheckSymbols(values: seq<nat>, goal: bv32): (s: seq<nat>)
    ensures |s| == 6
  {
    var z := Missing(values, goal);
    [Digit(z, 5), Digit(z, 4), Digit(z, 3), Digit(z, 2), Digit(z, 1), Digit(z, 0)]
  }

  lemma CheckSymbolAt(values: seq<nat>, goal: bv32, i: nat)
    requires i < 6
    ensures CheckSymbols(values, goal)[i] == Digit(Missing(values, goal), 5 - i)
  {
    hide Missing, Digit;
  }

  lemma ChecksAreSymbols(values: seq<nat>, goal: bv32)
    ensures AreSymbols(CheckSymbols(values, goal))
  {
    hide *;
    forall i | 0 <= i < 6 ensures CheckSymbols(values, goal)[i] < 32 {
      CheckSymbolAt(values, goal, i);
      DigitIs(Missing(values, goal), 5 - i);
    }
    SixSymbols(CheckSymbols(values, goal));
  }

  lemma SixSymbols(s: seq<nat>)
    requires |s| == 6 && forall i | 0 <= i < 6 :: s[i] < 32
    ensures AreSymbols(s)
  {
  }

  lemma {:induction false} ZerosFit(c: bv32, n: nat)
    requires c < LIMIT
    ensures Zeros(c, n) < LIMIT
    decreases n
  {
    hide Step;
    if n > 0 {
      StepFits(Zeros(c, n - 1), 0);
    }
  }

  lemma MissingFits(values: seq<nat>, goal: bv32)
    requires AreSymbols(values) && goal < LIMIT
    ensures Missing(values, goal) < LIMIT
  {
    hide Polymod, Zeros, Xor;
    PolymodFits(values);
    ZerosFit(Polymod(values), 6);
    XorFits(Zeros(Polymod(values), 6), goal);
  }

  /** One more of the six symbols. */
  lemma OneMoreCheck(x: bv32, z: bv32, i: nat)
    requires z < LIMIT && i < 6
    ensures Step(Xor(x, Down(z, 6 - i)), Pattern(Digit(z, 5 - i))) == Xor(Step(x, 0), Down(z, 5 - i))
  {
    hide *;
    DownIsSmall(z, 6 - i);
    MoreFits(Down(z, 6 - i), i);
    DigitIs(z, 5 - i);
    DownOnce(z, 5 - i);
    SumMovesUp(x, Down(z, 6 - i), Down(z, 5 - i));
  }

  lemma DownOnce(z: bv32, k: nat)
    ensures Down(z, k + 1) == Down(z, k) >> 5
  {
  }

  lemma SumMovesUp(x: bv32, e: bv32, d: bv32)
    requires e < 0x2000000 && e == d >> 5
    ensures Step(Xor(x, e), Low(d)) == Xor(Step(x, 0), d)
  {
    hide *;
    StepOfSum(x, e, Low(d));
    DownAndUp(d);
  }

  lemma NoneYet(p: bv32, z: bv32)
    requires z < LIMIT
    ensures p == Xor(p, Down(z, 6))
  {
    hide Down, Xor, HasAtMost;
    DownIsSmall(z, 6);
    NothingFits(Down(z, 6));
    XorNothing(p);
  }

  /** After `i` of the six symbols: what the zeros would give, and the symbols so far added. */
  lemma {:induction false} AfterSome(values: seq<nat>, goal: bv32, i: nat)
    requires AreSymbols(values) && goal < LIMIT && i <= 6
    ensures Polymod(values + CheckSymbols(values, goal)[..i]) == Xor(Zeros(Polymod(values), i), Down(Missing(values, goal), 6 - i))
    decreases i
  {
    hide Polymod, Missing, CheckSymbols, Step, Xor, Down, Pattern, Digit, AreSymbols;
    var p, z, c := Polymod(values), Missing(values, goal), CheckSymbols(values, goal);
    MissingFits(values, goal);
    if i == 0 {
      assert values + c[..0] == values;
      NoneYet(p, z);
    } else {
      AfterSome(values, goal, i - 1);
      OneMoreSymbol(values, c[..i]);
      assert c[..i][..i - 1] == c[..i - 1];
      CheckSymbolAt(values, goal, i - 1);
      OneMoreCheck(Zeros(p, i - 1), z, i - 1);
    }
  }

  /** With its six symbols the payload's checksum is the one wanted. */
  lemma ChecksOut(values: seq<nat>, goal: bv32)
    requires AreSymbols(values) && goal < LIMIT
    ensures Polymod(values + CheckSymbols(values, goal)) == goal
  {
    AfterSome(values, goal, 6);
    var c, x := CheckSymbols(values, goal), Zeros(Polymod(values), 6);
    hide Polymod, CheckSymbols, Xor, Zeros;
    assert c[..6] == c;
    XorMoves(x, x, goal);
    XorItself(x, x);
    XorSwaps(0, goal);
    XorNothing(goal);
  }

  // ---------------------------------------------------------------------------------------
  // Characters

  /** What a character of the character set stands for. */
  function ValueOf(c: char): nat {
    if c == 'q' then 0 else if c == 'p' then 1 else if c == 'z' then 2 else if c == 'r' then 3 else if c == 'y' then 4 else if c == '9' then 5
    else if c == 'x' then 6 else if c == '8' then 7 else if c == 'g' then 8 else if c == 'f' then 9 else if c == '2' then 10 else if c == 't' then 11
    else if c == 'v' then 12 else if c == 'd' then 13 else if c == 'w' then 14 else if c == '0' then 15 else if c == 's' then 16 else if c == '3' then 17
    else if c == 'j' then 18 else if c == 'n' then 19 else if c == '5' then 20 else if c == '4' then 21 else if c == 'k' then 22 else if c == 'h' then 23
    else if c == 'c' then 24 else if c == 'e' then 25 else if c == '6' then 26 else if c == 'm' then 27 else if c == 'u' then 28 else if c == 'a' then 29
    else if c == '7' then 30 else 31
  }

  lemma CharsetIs(i: nat)
    requires i < 32
    ensures |CHARSET| == 32 && ValueOf(CHARSET[i]) == i
  {
  }

  lemma CharsetIsLower(i: nat)
    requires i < 32
    ensures CHARSET[i] != '1' && LowerChar(CHARSET[i]) == CHARSET[i]
  {
  }

  lemma IndexIs(n: nat)
    requires n < 32
    ensures IndexOf(CHARSET, CHARSET[n], 0) == n
  {
    hide ValueOf;
    forall j | 0 <= j < n ensures CHARSET[j] != CHARSET[n] {
      CharsetIs(j);
      CharsetIs(n);
    }
    FirstIndex(CHARSET, n, 0);
  }

  /** The symbols as characters. */
  function Text(d: seq<nat>): (s: string)
    requires AreSymbols(d)
    ensures |s| == |d|
  {
    seq(|d|, i requires 0 <= i < |d| => CHARSET[d[i]])
  }

  lemma {:induction false} TextIsRead(d: seq<nat>)
    requires AreSymbols(d)
    ensures Symbols(Text(d)) == Some(d)
  {
    if d == [] {
      assert Text(d) == "";
    } else {
      var n := |d| - 1;
      TextIsRead(d[..n]);
      IndexIs(d[n]);
      assert Text(d)[..n] == Text(d[..n]);
      assert d == d[..n] + [d[n]];
      hide IndexOf;
    }
  }

  lemma TextIsLower(d: seq<nat>, i: nat)
    requires AreSymbols(d) && i < |d|
    ensures Text(d)[i] != '1' && LowerChar(Text(d)[i]) == Text(d)[i]
  {
    CharsetIsLower(d[i]);
  }

  lemma {:induction false} LastIs(s: string, c: char, n: nat)
    requires n < |s| && s[n] == c && forall j | n < j < |s| :: s[j] != c
    ensures LastIndexOf(s, c) == n
    decreases |s|
  {
    if n < |s| - 1 {
      LastIs(s[..|s| - 1], c, n);
    }
  }

  // ---------------------------------------------------------------------------------------
  // Addresses

  function AddressOf(d: seq<nat>): string
    requires AreSymbols(d)
  {
    "bc1" + Text(d)
  }

  lemma AddressIsRead(d: seq<nat>)
    requires AreSymbols(d)
    ensures var a := AddressOf(d); Lower(a) == a && Payload(a) == Some(d) && |a| == |d| + 3
  {
    var a := AddressOf(d);
    forall i | 0 <= i < |a| ensures LowerChar(a[i]) == a[i] && (i > 2 ==> a[i] != '1') {
      if i > 2 {
        TextIsLower(d, i - 3);
        assert a[i] == Text(d)[i - 3];
      } else {
        assert a[i] == "bc1"[i];
      }
    }
    LastIs(a, '1', 2);
    TextIsRead(d);
    hide LastIndexOf, Symbols, Text;
    assert a[..2] == "bc" && a[3..] == Text(d);
  }

  /** An address whose symbols make a program is accepted as it is. */
  lemma AddressIsAccepted(d: seq<nat>)
    requires AreSymbols(d) && 11 <= |d| <= 87 && Program(d).Some?
    ensures var a := AddressOf(d); SegwitOf(a) == Some(a) && DataOf(a) == d && VersionOf(a) == d[0]
  {
    hide Program, Payload, Lower, AddressOf, AreSymbols;
    AddressIsRead(d);
  }

  /** The symbols of a program: its version, its groups and the checksum. */
  function DataFor(version: nat, p: seq<nat>): (d: seq<nat>)
    requires version < 32
    ensures AreSymbols(d)
  {
    ChecksAreSymbols(HRP + ([version] + Grouped(p)), if version == 0 then 1 else 0x2bc830a3);
    [version] + Grouped(p) + CheckSymbols(HRP + ([version] + Grouped(p)), if version == 0 then 1 else 0x2bc830a3)
  }

  /** The address of a program: Bech32 for version 0, Bech32m above. */
  function Encoded(version: nat, p: seq<nat>): string
    requires version < 32
  {
    AddressOf(DataFor(version, p))
  }

  lemma DataParts(version: nat, g: seq<nat>, c: seq<nat>)
    requires |c| == 6
    ensures var d := [version] + g + c; d[0] == version && d[1..|d| - 6] == g && HRP + d == (HRP + ([version] + g)) + c
  {
  }

  lemma GroupCount(n: nat)
    requires n == 20 || n == 32
    ensures (8 * n + Padding(n)) / 5 == if n == 20 then 32 else 52
  {
  }

  lemma DataMakesProgram(version: nat, p: seq<nat>)
    requires AreBytes(p) && ((version == 0 && (|p| == 20 || |p| == 32)) || (version == 1 && |p| == 32))
    ensures var d := DataFor(version, p); 11 <= |d| <= 87 && d[0] == version && Program(d) == Some(p)
  {
    hide CheckSymbols, Polymod, Regrouped, Grouped, AreBytes, AreSymbols;
    var goal: bv32 := if version == 0 then 1 else 0x2bc830a3;
    var g := Grouped(p);
    var c := CheckSymbols(HRP + ([version] + g), goal);
    assert AreSymbols(HRP + ([version] + g)) by { HeadIsSymbols(version, g); }
    GroupCount(|p|);
    ChecksOut(HRP + ([version] + g), goal);
    DataParts(version, g, c);
    GroupedIsRegrouped(p);
  }

  lemma HeadIsSymbols(version: nat, g: seq<nat>)
    requires version < 32 && AreGroups(g)
    ensures AreSymbols(HRP + ([version] + g))
  {
  }

  /**
    What the standards write is accepted. For each program of 20 or 32 bytes and version 0, and each of
    32 bytes and version 1, its encoding is accepted as it is, and decodes to that version and program.
   */
  lemma EncodedIsAccepted(version: nat, p: seq<nat>)
    requires AreBytes(p) && ((version == 0 && (|p| == 20 || |p| == 32)) || (version == 1 && |p| == 32))
    ensures var a := Encoded(version, p);
      SegwitOf(a) == Some(a) && VersionOf(a) == version && |DataOf(a)| >= 7 && Program(DataOf(a)) == Some(p)
  {
    hide SegwitOf, VersionOf, DataOf, Program, DataFor, AreBytes, AddressOf;
    DataMakesProgram(version, p);
    AddressIsAccepted(DataFor(version, p));
  }

  lemma ProgramsAre(a: string)
    requires SegwitOf(a).Some?
    ensures |DataOf(a)| >= 7 && Program(DataOf(a)).Some? && VersionOf(a) == DataOf(a)[0]
    ensures var p := Program(DataOf(a)).value;
      AreBytes(p) && ((VersionOf(a) == 0 && (|p| == 20 || |p| == 32)) || (VersionOf(a) == 1 && |p| == 32))
  {
    hide Polymod, Decoded;
  }

  /** Nothing else is accepted: an accepted address is the encoding of its version and program, in lower or in upper case. */
  lemma AcceptedIsEncoded(a: string)
    requires SegwitOf(a).Some?
    ensures |DataOf(a)| >= 7 && Program(DataOf(a)).Some? && VersionOf(a) <= 1
    ensures SegwitOf(a) == Some(Encoded(VersionOf(a), Program(DataOf(a)).value))
  {
    ProgramsAre(a);
    hide SegwitOf, VersionOf, DataOf, Program, Encoded, AreBytes;
    var v, p := VersionOf(a), Program(DataOf(a)).value;
    EncodedIsAccepted(v, p);
    OneSpelling(a, Encoded(v, p));
  }
}
