/**
  `base58check` of cloudflare/mcp/src/address.js. A string of digits is a number with its leading
  zeros; base 58 and base 256 are two ways to write it down.
 */
module Base58 {
  import opened Prelude
  import opened Bits
  import opened Segwit

  // ---------------------------------------------------------------------------------------
  // Digits

  function Value(ds: seq<nat>, base: nat): nat {
    if ds == [] then 0 else Value(ds[..|ds| - 1], base) * base + ds[|ds| - 1]
  }

  predicate AreDigits(ds: seq<nat>, base: nat) { forall i | 0 <= i < |ds| :: ds[i] < base }

  /** A number without leading zeros; zero has no digits at all. */
  function Digits(n: nat, base: nat): (ds: seq<nat>)
    requires base >= 2
    ensures AreDigits(ds, base) && (ds != [] ==> ds[0] != 0)
  {
    if n == 0 then [] else Digits(n / base, base) + [n % base]
  }

  function Zeros(k: nat): (z: seq<nat>)
    ensures |z| == k && forall i | 0 <= i < k :: z[i] == 0
  {
    seq(k, _ => 0)
  }

  /** How many zeros it starts with. */
  function Leading(ds: seq<nat>): (k: nat)
    ensures k <= |ds| && (forall i | 0 <= i < k :: ds[i] == 0) && (k < |ds| ==> ds[k] != 0)
  {
    if ds == [] || ds[0] != 0 then 0 else 1 + Leading(ds[1..])
  }

  /** The same zeros and the same number in another base. */
  function Convert(ds: seq<nat>, from: nat, to: nat): seq<nat>
    requires to >= 2
  {
    Zeros(Leading(ds)) + Digits(Value(ds, from), to)
  }

  lemma OneMoreDigit(ds: seq<nat>, d: nat, base: nat)
    ensures Value(ds + [d], base) == Value(ds, base) * base + d
  {
    assert (ds + [d])[..|ds|] == ds;
  }

  lemma SmallerQuotient(n: nat, base: nat)
    requires n > 0 && base >= 2
    ensures n / base < n
  {
    DivModIs(n, base, n / base, n % base);
  }

  lemma WholeAgain(n: nat, base: nat)
    requires base >= 2
    ensures (n / base) * base + n % base == n
  {
  }

  lemma {:induction false} DigitsHaveValue(n: nat, base: nat)
    requires base >= 2
    ensures Value(Digits(n, base), base) == n
  {
    if n > 0 {
      var q, r := n / base, n % base;
      assert q < n by {
        SmallerQuotient(n, base);
      }
      DigitsHaveValue(q, base);
      assert Digits(n, base) == Digits(q, base) + [r];
      hide *;
      OneMoreDigit(Digits(q, base), r, base);
      WholeAgain(n, base);
    }
  }

  /** Without a leading zero the value is not zero, so that no digit is lost. */
  lemma {:induction false} ValueIsPositive(ds: seq<nat>, base: nat)
    requires base >= 2 && ds != [] && ds[0] != 0
    ensures Value(ds, base) > 0
    decreases |ds|
  {
    if |ds| > 1 {
      ValueIsPositive(ds[..|ds| - 1], base);
      AtLeastOnce(Value(ds[..|ds| - 1], base), base);
    }
  }

  lemma {:induction false} ValueHasDigits(ds: seq<nat>, base: nat)
    requires base >= 2 && AreDigits(ds, base) && (ds != [] ==> ds[0] != 0)
    ensures Digits(Value(ds, base), base) == ds
    decreases |ds|
  {
    if ds != [] {
      var front, last := ds[..|ds| - 1], ds[|ds| - 1];
      ValueIsPositive(ds, base);
      ValueHasDigits(front, base);
      DivModIs(Value(ds, base), base, Value(front, base), last);
      assert ds == front + [last];
    }
  }

  lemma {:induction false} LeadingZerosAddNothing(k: nat, ds: seq<nat>, base: nat)
    ensures Value(Zeros(k) + ds, base) == Value(ds, base)
    decreases k + |ds|
  {
    var all := Zeros(k) + ds;
    if ds != [] {
      LeadingZerosAddNothing(k, ds[..|ds| - 1], base);
      assert all[..|all| - 1] == Zeros(k) + ds[..|ds| - 1];
    } else if k > 0 {
      LeadingZerosAddNothing(k - 1, ds, base);
      assert all[..|all| - 1] == Zeros(k - 1) + ds;
    }
  }

  lemma {:induction false} LeadingOf(k: nat, ds: seq<nat>)
    requires ds != [] ==> ds[0] != 0
    ensures Leading(Zeros(k) + ds) == k
  {
    if k > 0 {
      LeadingOf(k - 1, ds);
      assert (Zeros(k) + ds)[1..] == Zeros(k - 1) + ds;
    } else {
      assert Zeros(0) + ds == ds;
    }
  }

  /** Converting there and back gives the digits there were. */
  lemma ConvertsBack(ds: seq<nat>, from: nat, to: nat)
    requires from >= 2 && to >= 2 && AreDigits(ds, from)
    ensures Convert(Convert(ds, from, to), to, from) == ds
  {
    var k := Leading(ds);
    var rest, other := ds[k..], Digits(Value(ds, from), to);
    LeadingOf(k, other);
    LeadingZerosAddNothing(k, other, to);
    DigitsHaveValue(Value(ds, from), to);
    assert ds == Zeros(k) + rest;
    LeadingZerosAddNothing(k, rest, from);
    ValueHasDigits(rest, from);
  }

  // ---------------------------------------------------------------------------------------
  // The address

  /** Digits and letters without 0, I, O and l. */
  const ALPHABET := "123456789" + "ABCDEFGH" + "JKLMN" + "PQRSTUVWXYZ" + "abcdefghijk" + "mnopqrstuvwxyz"

  /** The digits of the characters, if all are in the alphabet. */
  function DigitsOf(s: string): (r: Option<seq<nat>>)
    ensures r.Some? ==> |r.value| == |s| && AreDigits(r.value, 58)
  {
    if s == "" then Some([])
    else
      var front, i := DigitsOf(s[..|s| - 1]), IndexOf(ALPHABET, s[|s| - 1], 0);
      if front == None || i < 0 then None else Some(front.value + [i])
  }

  /** Which digit a character is: 1 to 9, then the capitals without I and O, then the small letters without l. */
  function DigitFor(c: char): int {
    if '1' <= c <= '9' then c as int - '1' as int
    else if 'A' <= c <= 'H' then c as int - 'A' as int + 9
    else if 'J' <= c <= 'N' then c as int - 'J' as int + 17
    else if 'P' <= c <= 'Z' then c as int - 'P' as int + 22
    else if 'a' <= c <= 'k' then c as int - 'a' as int + 33
    else if 'm' <= c <= 'z' then c as int - 'm' as int + 44
    else -1
  }

  /** SHA-256 twice. */
  type Digest = seq<nat> -> seq<nat>

  predicate Checked(bytes: seq<nat>, digest: Digest) {
    && |bytes| == 25 && (bytes[0] == 0 || bytes[0] == 5)
    && |digest(bytes[..21])| >= 4 && digest(bytes[..21])[..4] == bytes[21..]
  }

  predicate Addressed(addr: string) {
    26 <= |addr| <= 35 && (addr[0] == '1' || addr[0] == '3')
  }

  /** The 25 bytes an address stands for, if it is one. */
  function Decode(addr: string, digest: Digest): Option<seq<nat>> {
    if !Addressed(addr) || DigitsOf(addr) == None then None
    else
      var bytes := Convert(DigitsOf(addr).value, 58, 256);
      if Checked(bytes, digest) then Some(bytes) else None
  }

  method DecodeNumber(addr: string) returns (n: Option<nat>)
    ensures n == match DigitsOf(addr) case None => None case Some(ds) => Some(Value(ds, 58))
  {
    var v: nat := 0;
    ghost var ds: seq<nat> := [];
    for k := 0 to |addr|
      invariant DigitsOf(addr[..k]) == Some(ds) && v == Value(ds, 58)
    {
      assert addr[..k + 1][..k] == addr[..k];
      var i := IndexOf(ALPHABET, addr[k], 0);
      if i < 0 {
        NoDigits(addr, k + 1);
        return None;
      }
      assert (ds + [i])[..|ds|] == ds;
      ds := ds + [i];
      v := v * 58 + i;
    }
    assert addr[..|addr|] == addr;
    n := Some(v);
  }

  lemma {:induction false} NoDigits(s: string, k: nat)
    requires k <= |s| && DigitsOf(s[..k]) == None
    ensures DigitsOf(s) == None
    decreases |s|
  {
    if k < |s| {
      assert s[..|s| - 1][..k] == s[..k];
      NoDigits(s[..|s| - 1], k);
    } else {
      assert s[..k] == s;
    }
  }

  /** `bytes.unshift(n & 0xff); n >>= 8` until nothing is left. */
  method BytesOf(n: nat) returns (bytes: seq<nat>)
    ensures bytes == Digits(n, 256)
  {
    bytes := [];
    var left := n;
    while left > 0
      invariant Digits(left, 256) + bytes == Digits(n, 256)
    {
      assert Digits(left, 256) + bytes == Digits(left / 256, 256) + ([left % 256] + bytes);
      bytes := [left % 256] + bytes;
      left := left / 256;
    }
  }

  lemma {:induction false} DigitAt(s: string, i: nat)
    requires DigitsOf(s).Some? && i < |s|
    ensures DigitsOf(s).value[i] == IndexOf(ALPHABET, s[i], 0) && ALPHABET[DigitsOf(s).value[i]] == s[i]
  {
    if i < |s| - 1 {
      DigitAt(s[..|s| - 1], i);
    }
  }

  lemma ZeroIsOne(c: char)
    ensures IndexOf(ALPHABET, c, 0) == 0 <==> c == '1'
  {
    assert ALPHABET[0] == '1';
  }

  method PrependZeros(addr: string, bytes: seq<nat>) returns (all: seq<nat>)
    requires DigitsOf(addr).Some?
    ensures all == Zeros(Leading(DigitsOf(addr).value)) + bytes
  {
    ghost var ds := DigitsOf(addr).value;
    all := bytes;
    var k := 0;
    while k < |addr| && addr[k] == '1'
      invariant k <= |addr| && all == Zeros(k) + bytes && forall j | 0 <= j < k :: ds[j] == 0
    {
      DigitAt(addr, k);
      ZeroIsOne(addr[k]);
      assert [0] + (Zeros(k) + bytes) == Zeros(k + 1) + bytes;
      all := [0] + all;
      k := k + 1;
    }
    if k < |addr| {
      DigitAt(addr, k);
      ZeroIsOne(addr[k]);
    }
    assert Leading(ds) == k;
  }

  method Base58Check(addr: string, digest: Digest) returns (r: Option<string>)
    ensures r == if Decode(addr, digest).Some? then Some(addr) else None
  {
    hide DigitsOf, Value, Digits, Leading, Zeros;
    if |addr| < 26 || |addr| > 35 || (addr[0] != '1' && addr[0] != '3') {
      return None;
    }
    var n := DecodeNumber(addr);
    if n == None {
      return None;
    }
    var bytes := BytesOf(n.value);
    bytes := PrependZeros(addr, bytes);
    if |bytes| != 25 || (bytes[0] != 0 && bytes[0] != 5) {
      return None;
    }
    var h := digest(bytes[..21]);
    if |h| < 4 || h[..4] != bytes[21..] {
      return None;
    }
    r := Some(addr);
  }

  // ---------------------------------------------------------------------------------------
  // One spelling

  function Char(d: nat): char { if d < 58 then ALPHABET[d] else '1' }

  function Spelled(ds: seq<nat>): string { seq(|ds|, i requires 0 <= i < |ds| => Char(ds[i])) }

  /** The canonical encoder. */
  function Encode(bytes: seq<nat>): string { Spelled(Convert(bytes, 256, 58)) }

  /** An accepted address is what the encoder makes of its bytes. */
  lemma DecodedIsEncoded(addr: string, digest: Digest)
    requires Decode(addr, digest).Some?
    ensures Encode(Decode(addr, digest).value) == addr
  {
    var ds := DigitsOf(addr).value;
    ConvertsBack(ds, 58, 256);
    hide DigitsOf, Convert;
    forall i | 0 <= i < |addr| ensures Char(ds[i]) == addr[i] {
      DigitAt(addr, i);
    }
  }

  lemma Numerals(d: nat)
    requires d < 9
    ensures DigitFor(ALPHABET[d]) == d
  {
  }

  lemma ToH(d: nat)
    requires 9 <= d < 17
    ensures DigitFor(ALPHABET[d]) == d
  {
  }

  lemma ToN(d: nat)
    requires 17 <= d < 22
    ensures DigitFor(ALPHABET[d]) == d
  {
  }

  lemma ToZ(d: nat)
    requires 22 <= d < 33
    ensures DigitFor(ALPHABET[d]) == d
  {
  }

  lemma SmallToK(d: nat)
    requires 33 <= d < 44
    ensures DigitFor(ALPHABET[d]) == d
  {
  }

  lemma SmallToZ(d: nat)
    requires 44 <= d < 58
    ensures DigitFor(ALPHABET[d]) == d
  {
  }

  lemma AlphabetHas(d: nat)
    requires d < 58
    ensures |ALPHABET| == 58 && DigitFor(ALPHABET[d]) == d
  {
    hide DigitFor;
    if d < 9 {
      Numerals(d);
    } else if d < 17 {
      ToH(d);
    } else if d < 22 {
      ToN(d);
    } else if d < 33 {
      ToZ(d);
    } else if d < 44 {
      SmallToK(d);
    } else {
      SmallToZ(d);
    }
  }

  /** Every character has its own digit. */
  lemma CharHasDigit(d: nat)
    requires d < 58
    ensures IndexOf(ALPHABET, ALPHABET[d], 0) == d
  {
    hide DigitFor;
    AlphabetHas(d);
    forall j | 0 <= j < d ensures ALPHABET[j] != ALPHABET[d] {
      AlphabetHas(j);
    }
    FirstIndex(ALPHABET, d, 0);
  }

  lemma {:induction false} StringHasDigits(ds: seq<nat>)
    requires AreDigits(ds, 58)
    ensures DigitsOf(Spelled(ds)) == Some(ds)
  {
    if ds != [] {
      var n := |ds| - 1;
      StringHasDigits(ds[..n]);
      assert Spelled(ds)[..n] == Spelled(ds[..n]);
      CharHasDigit(ds[n]);
      assert ds == ds[..n] + [ds[n]];
    }
  }

  /** The encoder and the decoder are inverse to each other: 25 bytes that check out are the bytes of their encoding. */
  lemma EncodedIsDecoded(bytes: seq<nat>, digest: Digest)
    requires AreDigits(bytes, 256)
    ensures Decode(Encode(bytes), digest) == if Checked(bytes, digest) && Addressed(Encode(bytes)) then Some(bytes) else None
  {
    ConvertsBack(bytes, 256, 58);
    ConvertedDigits(bytes, 256, 58);
    StringHasDigits(Convert(bytes, 256, 58));
    hide DigitsOf, Convert, Checked, Addressed;
  }

  lemma ConvertedDigits(ds: seq<nat>, from: nat, to: nat)
    requires to >= 2
    ensures AreDigits(Convert(ds, from, to), to)
  {
  }

  lemma DigitsDiffer(c: char, e: char)
    requires DigitFor(c) == DigitFor(e) >= 0
    ensures c == e
  {
  }

  lemma DigitForBounds(c: char)
    ensures -1 <= DigitFor(c) < 58
  {
  }

  /** The alphabet is that. */
  lemma AlphabetIs(c: char)
    ensures IndexOf(ALPHABET, c, 0) == DigitFor(c)
  {
    DigitForBounds(c);
    var i := IndexOf(ALPHABET, c, 0);
    hide DigitFor;
    AlphabetHas(0);
    if i >= 0 {
      AlphabetHas(i);
    } else if DigitFor(c) >= 0 {
      AlphabetHas(DigitFor(c));
      DigitsDiffer(c, ALPHABET[DigitFor(c)]);
      CharHasDigit(DigitFor(c));
    }
  }

  /**
    A string is accepted, and stands for these bytes, exactly when it is what the encoder makes of them,
    has 26 to 35 characters and begins with 1 or 3, and they are 25 bytes, the first of them 0 or 5 and
    the last four the beginning of the others' digest.
   */
  lemma AcceptedExactly(addr: string, bytes: seq<nat>, digest: Digest)
    requires AreDigits(bytes, 256)
    ensures Decode(addr, digest) == Some(bytes) <==>
      && addr == Encode(bytes) && 26 <= |addr| <= 35 && (addr[0] == '1' || addr[0] == '3')
      && |bytes| == 25 && (bytes[0] == 0x00 || bytes[0] == 0x05)
      && |digest(bytes[..21])| >= 4 && digest(bytes[..21])[..4] == bytes[21..]
  {
    EncodedIsDecoded(bytes, digest);
    if Decode(addr, digest).Some? {
      DecodedIsEncoded(addr, digest);
    }
    hide Decode, Encode;
  }

  /** An address is the only spelling of its version and hash: the rest of its bytes is their checksum. */
  lemma OneSpelling58(a: string, b: string, digest: Digest)
    requires Decode(a, digest).Some? && Decode(b, digest).Some?
    requires Decode(a, digest).value[..21] == Decode(b, digest).value[..21]
    ensures a == b
  {
    DecodedIsEncoded(a, digest);
    DecodedIsEncoded(b, digest);
    var x, y := Decode(a, digest).value, Decode(b, digest).value;
    assert x == x[..21] + x[21..] && y == y[..21] + y[21..];
  }
}
