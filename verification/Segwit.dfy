/** `segwit` of cloudflare/mcp/src/address.js: mainnet addresses of BIP 173 and BIP 350. */
module Segwit {
  import opened Prelude
  import opened Checksum
  import opened Regroup

  const CHARSET := "qpzry9x8gf2tvdw0s3jn54khce6mua7l"
  const BECH32M: bv32 := 0x2bc830a3

  // ---------------------------------------------------------------------------------------
  // Strings

  function UpperChar(c: char): char { if 'a' <= c <= 'z' then (c as int - 32) as char else c }

  function Upper(s: string): string { seq(|s|, i requires 0 <= i < |s| => UpperChar(s[i])) }

  /** `s.indexOf(c)` from place `from` on. */
  function IndexOf(s: string, c: char, from: nat): (i: int)
    requires from <= |s|
    ensures i == -1 || (from <= i < |s| && s[i] == c)
    decreases |s| - from
  {
    if from == |s| then -1 else if s[from] == c then from else IndexOf(s, c, from + 1)
  }

  lemma {:induction false} FirstIndex(s: string, n: nat, from: nat)
    requires from <= n < |s| && forall j | from <= j < n :: s[j] != s[n]
    ensures IndexOf(s, s[n], from) == n
    decreases n - from
  {
    if from < n {
      FirstIndex(s, n, from + 1);
    }
  }

  /** `s.lastIndexOf(c)` */
  function LastIndexOf(s: string, c: char): (i: int)
    ensures i == -1 || (0 <= i < |s| && s[i] == c && forall j | i < j < |s| :: s[j] != c)
    ensures i == -1 ==> c !in s
  {
    if s == "" then -1 else if s[|s| - 1] == c then |s| - 1 else LastIndexOf(s[..|s| - 1], c)
  }

  /** The symbols of the characters, if all are in the character set. */
  function Symbols(s: string): (r: Option<seq<nat>>)
    ensures r.Some? ==> |r.value| == |s| && AreSymbols(r.value)
  {
    if s == "" then Some([])
    else
      var front, i := Symbols(s[..|s| - 1]), IndexOf(CHARSET, s[|s| - 1], 0);
      if front == None || i < 0 then None else Some(front.value + [i])
  }

  /** `hrpExpand("bc")` */
  const HRP: seq<nat> := [3, 3, 0, 2, 3]

  // ---------------------------------------------------------------------------------------
  // The address

  /** The program of a decoded string, when version, checksum and length go together. */
  function Program(data: seq<nat>): Option<seq<nat>>
    requires |data| >= 7
  {
    var check, prog := Polymod(HRP + data), Regrouped(data[1..|data| - 6]);
    if prog == None then None
    else if data[0] == 0 && check == 1 && (|prog.value| == 20 || |prog.value| == 32) then prog
    else if data[0] == 1 && check == BECH32M && |prog.value| == 32 then prog
    else None
  }

  /** The symbols after the separator of a lower-cased address with the right prefix. */
  function Payload(a: string): Option<seq<nat>> {
    var sep := LastIndexOf(a, '1');
    if sep != 2 || a[..2] != "bc" then None else Symbols(a[3..])
  }

  predicate OneCase(addr: string) { addr == Lower(addr) || addr == Upper(addr) }

  function Decoded(addr: string): Option<seq<nat>> {
    if |addr| < 14 || |addr| > 90 || !OneCase(addr) then None else Payload(Lower(addr))
  }

  /** An address in its one spelling, or nothing. */
  function SegwitOf(addr: string): Option<string> {
    match Decoded(addr)
    case None => None
    case Some(data) => if |data| >= 7 && Program(data).Some? then Some(Lower(addr)) else None
  }

  method DecodeSymbols(s: string) returns (r: Option<seq<nat>>)
    ensures r == Symbols(s)
  {
    var data: seq<nat> := [];
    for k := 0 to |s|
      invariant Symbols(s[..k]) == Some(data)
    {
      assert s[..k + 1][..k] == s[..k];
      var i := IndexOf(CHARSET, s[k], 0);
      if i < 0 {
        NoSymbols(s, k + 1);
        return None;
      }
      data := data + [i];
    }
    assert s[..|s|] == s;
    r := Some(data);
  }

  lemma {:induction false} NoSymbols(s: string, k: nat)
    requires k <= |s| && Symbols(s[..k]) == None
    ensures Symbols(s) == None
    decreases |s|
  {
    if k < |s| {
      assert s[..|s| - 1][..k] == s[..k];
      NoSymbols(s[..|s| - 1], k);
    } else {
      assert s[..k] == s;
    }
  }

  method Segwit(addr: string) returns (r: Option<string>)
    ensures r == SegwitOf(addr)
  {
    hide Symbols, LastIndexOf, Polymod, Regrouped, Lower, Upper, LowerChar, UpperChar;
    if |addr| < 14 || |addr| > 90 {
      return None;
    }
    if addr != Lower(addr) && addr != Upper(addr) {
      return None;
    }
    var a := Lower(addr);
    SameSize(addr);
    var sep := LastIndexOf(a, '1');
    var prefix := if sep < 0 then a[..|a| - 1] else a[..sep];
    if prefix != "bc" || |a| - sep - 1 < 6 {
      return None;
    }
    var data := DecodeSymbols(a[sep + 1..]);
    if data == None {
      return None;
    }
    var check := ComputePolymod(HRP + data.value);
    var ver := data.value[0];
    var groups := data.value[1..|data.value| - 6];
    assert AreGroups(groups) by {
      assert AreSymbols(data.value);
    }
    var prog := ConvertBits(groups);
    if prog == None || ver > 16 {
      return None;
    }
    if ver == 0 && (check != 1 || (|prog.value| != 20 && |prog.value| != 32)) {
      return None;
    }
    if ver == 1 && (check != BECH32M || |prog.value| != 32) {
      return None;
    }
    if ver > 1 {
      return None;
    }
    r := Some(a);
  }

  lemma SameSize(s: string)
    ensures |Lower(s)| == |s|
  {
  }

  // ---------------------------------------------------------------------------------------
  // Case

  lemma LowerTwice(s: string)
    ensures Lower(Lower(s)) == Lower(s) && Lower(Upper(s)) == Lower(s) && Upper(Upper(s)) == Upper(s)
  {
  }

  /** All lower or all upper case, an address is the same; in mixed case it is none. */
  lemma CaseDoesNotMatter(s: string)
    ensures SegwitOf(Lower(s)) == SegwitOf(Upper(s))
    ensures SegwitOf(s) == if OneCase(s) then SegwitOf(Lower(s)) else None
  {
    LowerTwice(s);
    SameSize(s);
    assert |Upper(s)| == |s|;
    hide Lower, Upper, Payload, Program;
  }

  /** What is accepted is accepted again, unchanged. */
  lemma AcceptedIsKept(s: string)
    requires SegwitOf(s).Some?
    ensures SegwitOf(SegwitOf(s).value) == SegwitOf(s)
  {
    LowerTwice(s);
    SameSize(s);
    hide Lower, Upper, Payload, Program;
  }

  // ---------------------------------------------------------------------------------------
  // Errors

  lemma {:induction false} SymbolAt(s: string, i: nat)
    requires Symbols(s).Some? && i < |s|
    ensures Symbols(s).value[i] == IndexOf(CHARSET, s[i], 0) && CHARSET[Symbols(s).value[i]] == s[i]
  {
    if i < |s| - 1 {
      SymbolAt(s[..|s| - 1], i);
    }
  }

  /** The symbols of an accepted address, in its one spelling. */
  function DataOf(a: string): seq<nat> {
    match Decoded(a) case Some(data) => data case None => []
  }

  /** The witness version, 0 or 1, of an accepted address. */
  function VersionOf(a: string): nat { if DataOf(a) == [] then 0 else DataOf(a)[0] }

  /** What an accepted address is made of. */
  lemma AcceptedIs(a: string)
    requires SegwitOf(a) == Some(a)
    ensures 14 <= |a| <= 90 && a[..3] == "bc1" && Symbols(a[3..]) == Some(DataOf(a)) && |DataOf(a)| >= 7
    ensures AreSymbols(DataOf(a)) && Program(DataOf(a)).Some? && DataOf(a)[0] <= 1
    ensures Polymod(HRP + DataOf(a)) == if DataOf(a)[0] == 0 then 1 else BECH32M
  {
    SameSize(a);
    assert Lower(a) == a;
    assert LastIndexOf(a, '1') == 2;
    assert a[..3] == a[..2] + [a[2]];
    hide Lower, Upper, Polymod, Regrouped, Symbols;
  }

  ghost predicate DifferInOne(a: string, b: string, k: nat) {
    k < |a| == |b| && a[k] != b[k] && forall i | 0 <= i < |a| && i != k :: a[i] == b[i]
  }

  lemma OneSymbolDiffers(x: string, y: string, j: nat)
    requires Symbols(x).Some? && Symbols(y).Some? && DifferInOne(x, y, j)
    ensures DifferAt(Symbols(x).value, Symbols(y).value, j)
  {
    hide IndexOf, Symbols;
    forall i | 0 <= i < |x| ensures (Symbols(x).value[i] == Symbols(y).value[i]) == (x[i] == y[i]) {
      SymbolAt(x, i);
      SymbolAt(y, i);
    }
  }

  lemma DifferAfter(h: seq<nat>, d: seq<nat>, e: seq<nat>, j: nat)
    requires DifferAt(d, e, j)
    ensures DifferAt(h + d, h + e, |h| + j)
  {
  }

  lemma DifferInTail(a: string, b: string, k: nat)
    requires DifferInOne(a, b, k) && |a| >= 3 && a[..3] == b[..3]
    ensures k >= 3 && DifferInOne(a[3..], b[3..], k - 3)
  {
    assert a[..3][0] == b[..3][0] && a[..3][1] == b[..3][1] && a[..3][2] == b[..3][2];
  }

  lemma SymbolsAfterPrefix(d: seq<nat>)
    requires AreSymbols(d)
    ensures AreSymbols(HRP + d)
  {
  }

  lemma OneWrongLowerCharacter(a: string, b: string, k: nat)
    requires SegwitOf(a) == Some(a) && SegwitOf(b) == Some(b) && VersionOf(a) == VersionOf(b)
    ensures !DifferInOne(a, b, k)
  {
    AcceptedIs(a);
    AcceptedIs(b);
    hide SegwitOf, Symbols, Polymod, IndexOf, DataOf, Program, Decoded, DifferInOne, DifferAt, AreSymbols;
    if DifferInOne(a, b, k) {
      DifferInTail(a, b, k);
      OneSymbolDiffers(a[3..], b[3..], k - 3);
      DifferAfter(HRP, DataOf(a), DataOf(b), k - 3);
      SymbolsAfterPrefix(DataOf(a));
      SymbolsAfterPrefix(DataOf(b));
      OneErrorIsSeen(HRP + DataOf(a), HRP + DataOf(b), |HRP| + k - 3);
    }
  }

  /** The one spelling of an accepted address is accepted, and has the same symbols. */
  lemma LowerIsAccepted(s: string)
    requires SegwitOf(s).Some?
    ensures SegwitOf(s) == Some(Lower(s)) && SegwitOf(Lower(s)) == Some(Lower(s)) && DataOf(Lower(s)) == DataOf(s)
    ensures OneCase(s) && |s| >= 14 && Lower(s)[..2] == "bc"
  {
    AcceptedIsKept(s);
    AcceptedIs(Lower(s));
    LowerTwice(s);
    SameSize(s);
    assert Lower(s)[..3][..2] == Lower(s)[..2];
    hide Lower, Upper, Payload, Program;
  }

  /** Two accepted strings that differ in one place are written in one case: they share their first or second letter. */
  lemma OneCaseIsShared(a: string, b: string, k: nat)
    requires OneCase(a) && OneCase(b) && |a| >= 2 && |b| >= 2 && Lower(a)[..2] == "bc" && Lower(b)[..2] == "bc" && DifferInOne(a, b, k)
    ensures (a == Lower(a) && b == Lower(b)) || (a == Upper(a) && b == Upper(b))
  {
    var i := if k == 0 then 1 else 0;
    assert a[i] == b[i];
    assert Lower(a)[..2][i] == LowerChar(a[i]);
    assert "bc"[i] != UpperChar("bc"[i]);
  }

  /** Where the case is shared, lower-casing keeps the difference. */
  lemma DifferenceStays(a: string, b: string, k: nat)
    requires DifferInOne(a, b, k) && ((a == Lower(a) && b == Lower(b)) || (a == Upper(a) && b == Upper(b)))
    ensures DifferInOne(Lower(a), Lower(b), k)
  {
    assert Upper(a)[k] == UpperChar(a[k]) && Upper(b)[k] == UpperChar(b[k]);
    assert Lower(a)[k] == LowerChar(a[k]) && Lower(b)[k] == LowerChar(b[k]);
    forall i | 0 <= i < |a| && i != k ensures Lower(a)[i] == Lower(b)[i] {
      assert a[i] == b[i];
    }
  }

  /** No two accepted addresses of one witness version differ in just one character, in whichever case they are written. */
  lemma OneWrongCharacterIsSeen(a: string, b: string, k: nat)
    requires SegwitOf(a).Some? && SegwitOf(b).Some? && VersionOf(a) == VersionOf(b)
    ensures !DifferInOne(a, b, k)
  {
    LowerIsAccepted(a);
    LowerIsAccepted(b);
    hide SegwitOf, DataOf, DifferInOne, OneCase, Lower, Upper;
    if DifferInOne(a, b, k) {
      OneCaseIsShared(a, b, k);
      DifferenceStays(a, b, k);
      OneWrongLowerCharacter(Lower(a), Lower(b), k);
    }
  }

  // ---------------------------------------------------------------------------------------
  // One spelling

  lemma SameSymbolsSameString(x: string, y: string)
    requires Symbols(x).Some? && Symbols(x) == Symbols(y)
    ensures x == y
  {
    forall i | 0 <= i < |x| ensures x[i] == y[i] {
      SymbolAt(x, i);
      SymbolAt(y, i);
    }
  }

  lemma PayloadSplits(d: seq<nat>)
    requires |d| >= 7
    ensures var m := |d| - 6; HRP + d == (HRP + ([d[0]] + d[1..m])) + d[m..] && d == ([d[0]] + d[1..m]) + d[m..]
  {
  }

  lemma PayloadSymbols(d: seq<nat>)
    requires |d| >= 7 && AreSymbols(d)
    ensures var m := |d| - 6; AreSymbols(HRP + ([d[0]] + d[1..m])) && AreSymbols(d[m..]) && AreGroups(d[1..m])
  {
  }

  /** Version and program tell the symbols: the groups are those of the program, and a payload has one checksum. */
  lemma ProgramTells(d: seq<nat>, e: seq<nat>)
    requires |d| >= 7 && |e| >= 7 && AreSymbols(d) && AreSymbols(e) && d[0] == e[0]
    requires Program(d).Some? && Program(d) == Program(e) && Polymod(HRP + d) == Polymod(HRP + e)
    ensures d == e
  {
    hide Polymod, Regrouped, AreSymbols, AreGroups;
    var m, n := |d| - 6, |e| - 6;
    PayloadSymbols(d);
    PayloadSymbols(e);
    RegroupedTells(d[1..m], e[1..n]);
    assert |d[1..m]| == m - 1 && |e[1..n]| == n - 1;
    hide Program;
    PayloadSplits(d);
    PayloadSplits(e);
    ChecksumIsUnique(HRP + ([d[0]] + d[1..m]), d[m..], e[n..]);
  }

  lemma OneLowerSpelling(a: string, b: string)
    requires SegwitOf(a) == Some(a) && SegwitOf(b) == Some(b)
    requires |DataOf(a)| >= 7 && |DataOf(b)| >= 7
    requires VersionOf(a) == VersionOf(b) && Program(DataOf(a)) == Program(DataOf(b))
    ensures a == b
  {
    AcceptedIs(a);
    AcceptedIs(b);
    hide SegwitOf, Symbols, Polymod, DataOf, Program, Decoded;
    ProgramTells(DataOf(a), DataOf(b));
    SameSymbolsSameString(a[3..], b[3..]);
    assert a == a[..3] + a[3..] && b == b[..3] + b[3..];
  }

  /** Accepted addresses of one witness version and program have one spelling. */
  lemma OneSpelling(a: string, b: string)
    requires SegwitOf(a).Some? && SegwitOf(b).Some?
    requires |DataOf(a)| >= 7 && |DataOf(b)| >= 7
    requires VersionOf(a) == VersionOf(b) && Program(DataOf(a)) == Program(DataOf(b))
    ensures SegwitOf(a) == SegwitOf(b)
  {
    LowerIsAccepted(a);
    LowerIsAccepted(b);
    hide SegwitOf, DataOf, Program, OneCase, Lower;
    OneLowerSpelling(Lower(a), Lower(b));
  }
}
