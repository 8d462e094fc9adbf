/**
  The two parsers of a DATUM coinbase: `is_datum_coinbase` and `datum_names` of
  node/pools/pools-sync.py, and `secondary_coinbase_tag` of pool/server.py. A coinbase script
  starts with pushes of the height, of `<primary> 0x0F <secondary> 0x00`, and of the gateway's id.
 */
module CoinbaseTag {
  import opened Prelude

  type Byte = b: int | 0 <= b < 256
  type Script = seq<Byte>

  const SEPARATOR: Byte := 0x0F
  const PUSHDATA1: Byte := 0x4C

  // ---------------------------------------------------------------------------------------
  // is_datum_coinbase

  /** A byte of a name: no control character. */
  predicate InName(c: Byte) { c >= 0x20 && c != 0x7F }

  /** One separator, with something on either side of it, and a zero at the end. */
  ghost predicate TagsOk(tags: Script) {
    && |tags| >= 4 && tags[|tags| - 1] == 0
    && exists k :: SeparatorAt(tags, k)
  }

  ghost predicate SeparatorAt(tags: Script, k: int) {
    && 0 < k < |tags| - 2 && tags[k] == SEPARATOR
    && forall j | 0 <= j < |tags| - 1 && j != k :: InName(tags[j])
  }

  /** Where the tag push starts and how long it is. */
  function TagPush(b: Script): Option<(nat, nat)> {
    if b == [] || b[0] < 1 || b[0] > 8 || 1 + b[0] >= |b| then None
    else
      var i := 1 + b[0];
      if b[i] != PUSHDATA1 then Some((i + 1, b[i]))
      else if i + 1 >= |b| then None else Some((i + 2, b[i + 1]))
  }

  /** The next push is of 4 to 75 bytes: a pooled gateway's id. */
  predicate PooledId(b: Script, at: nat) {
    at < |b| && 3 < b[at] <= 75 && at + 1 + b[at] <= |b|
  }

  ghost predicate IsDatum(b: Script) {
    match TagPush(b)
    case None => false
    case Some((start, n)) => n >= 4 && start + n <= |b| && TagsOk(b[start..start + n]) && PooledId(b, start + n)
  }

  method IsDatumCoinbase(b: Script) returns (ok: bool)
    ensures ok == IsDatum(b)
  {
    if b == [] {
      return false;
    }
    var heightLen := b[0];
    if heightLen < 1 || heightLen > 8 {
      return false;
    }
    var i: int := 1 + heightLen;
    if i >= |b| {
      return false;
    }
    var tagsLen := b[i];
    if tagsLen == PUSHDATA1 {
      i := i + 1;
      if i >= |b| {
        return false;
      }
      tagsLen := b[i];
    }
    var start := i + 1;
    if tagsLen < 4 || start + tagsLen > |b| {
      return false;
    }
    var tags := b[start..start + tagsLen];
    if tags[|tags| - 1] != 0 {
      return false;
    }
    var uid := start + tagsLen;
    if uid >= |b| {
      return false;
    }
    var uidLen := b[uid];
    if uidLen <= 3 || uidLen > 75 || uid + 1 + uidLen > |b| {
      return false;
    }
    ok := OneSeparator(tags);
  }

  lemma BadByte(tags: Script, k: nat)
    requires k < |tags| - 1 && !InName(tags[k]) && (tags[k] != SEPARATOR || k == 0 || k >= |tags| - 2)
    ensures forall j :: !SeparatorAt(tags, j)
  {
  }

  lemma TwoSeparators(tags: Script, i: nat, k: nat)
    requires i < k < |tags| - 1 && tags[i] == SEPARATOR == tags[k]
    ensures forall j :: !SeparatorAt(tags, j)
  {
  }

  lemma NoSeparator(tags: Script)
    requires forall j | 0 <= j < |tags| - 1 :: InName(tags[j])
    ensures forall j :: !SeparatorAt(tags, j)
  {
  }

  /** The loop that counts the separators. */
  method OneSeparator(tags: Script) returns (ok: bool)
    requires |tags| >= 4 && tags[|tags| - 1] == 0
    ensures ok == TagsOk(tags)
  {
    var separators: nat := 0;
    ghost var at := 0;
    for k := 0 to |tags| - 1
      invariant separators == 0 ==> forall j | 0 <= j < k :: InName(tags[j])
      invariant separators > 0 ==> 0 < at < |tags| - 2 && at < k && tags[at] == SEPARATOR
      invariant separators == 1 ==> forall j | 0 <= j < k && j != at :: InName(tags[j])
      invariant separators > 1 ==> forall j :: !SeparatorAt(tags, j)
    {
      if tags[k] == SEPARATOR {
        if k == 0 || k == |tags| - 2 {
          BadByte(tags, k);
          return false;
        }
        if separators == 0 {
          at := k;
        } else {
          TwoSeparators(tags, at, k);
        }
        separators := separators + 1;
      } else if tags[k] < 0x20 || tags[k] == 0x7F {
        BadByte(tags, k);
        return false;
      }
    }
    if separators == 0 {
      NoSeparator(tags);
    } else if separators == 1 {
      assert SeparatorAt(tags, at);
    }
    ok := separators == 1;
  }

  // ---------------------------------------------------------------------------------------
  // datum_names

  /** `text.replace(c, "", 1)` */
  function WithoutFirst(text: Script, c: Byte): Script {
    if text == [] then [] else if text[0] == c then text[1..] else [text[0]] + WithoutFirst(text[1..], c)
  }

  /** `text.split(sep)` */
  function Split(text: Script, sep: Byte): (parts: seq<Script>)
    ensures |parts| >= 1
  {
    if text == [] then [[]]
    else
      var rest := Split(text[1..], sep);
      if text[0] == sep then [[]] + rest else [[text[0]] + rest[0]] + rest[1..]
  }

  /** The part up to the first `sep`, and the part after it. */
  function UpTo(text: Script, sep: Byte): Script {
    if text == [] || text[0] == sep then [] else [text[0]] + UpTo(text[1..], sep)
  }

  function After(text: Script, sep: Byte): Script {
    if text == [] then [] else if text[0] == sep then text[1..] else After(text[1..], sep)
  }

  predicate Plain(c: Byte) { 'a' as int <= c <= 'z' as int || 'A' as int <= c <= 'Z' as int || '0' as int <= c <= '9' as int || c == 0x20 }

  /** `re.sub("[^a-zA-Z0-9 ]", "", name)` */
  function Sanitized(name: Script): Script {
    if name == [] then [] else (if Plain(name[0]) then [name[0]] else []) + Sanitized(name[1..])
  }

  /** Byte by byte: letters, digits and blanks stay, and all else goes. */
  lemma {:induction false} SanitizedIs(name: Script, c: Byte)
    ensures Sanitized([]) == []
    ensures Sanitized(name + [c]) == Sanitized(name) +
      if 97 <= c <= 122 || 65 <= c <= 90 || 48 <= c <= 57 || c == 32 then [c] else []
  {
    if name == [] {
      assert [] + [c] == [c] && [c][1..] == [];
      assert Sanitized([]) == [];
    } else {
      assert (name + [c])[1..] == name[1..] + [c];
      SanitizedIs(name[1..], c);
    }
  }

  function RawNames(b: Script): seq<Script> {
    match TagPush(b)
    case None => []
    case Some((start, n)) => if start + n <= |b| then Split(WithoutFirst(b[start..start + n], 0), SEPARATOR) else []
  }

  function DatumNames(b: Script): seq<Script> {
    seq(|RawNames(b)|, i requires 0 <= i < |RawNames(b)| => Sanitized(RawNames(b)[i]))
  }

  // ---------------------------------------------------------------------------------------
  // secondary_coinbase_tag

  /** The bytes the site reads the operator's name from; empty when it finds none. */
  function SecondaryBytes(raw: Script): Script {
    if raw == [] || !(1 <= raw[0] <= 8) || |raw| <= 1 + raw[0] then []
    else
      var i := 1 + raw[0];
      if raw[i] == PUSHDATA1 && i + 1 >= |raw| then []
      else
        var at := if raw[i] == PUSHDATA1 then i + 1 else i;
        var push := raw[at];
        var end := if at + 1 + push <= |raw| then at + 1 + push else |raw|;
        var tags := raw[at + 1..end];
        if |tags| != push then [] else SecondaryOf(tags)
  }

  function SecondaryOf(tags: Script): Script {
    if SEPARATOR !in tags then [] else UpTo(After(tags, SEPARATOR), 0)
  }

  // ---------------------------------------------------------------------------------------
  // The layout

  /** What a gateway writes. `wide` is a push with a length byte of its own. */
  datatype Coinbase = Coinbase(height: Script, wide: bool, primary: Script, secondary: Script, id: Script, rest: Script)

  ghost predicate IsName(s: Script) { s != [] && forall i | 0 <= i < |s| :: InName(s[i]) }

  function TagsOf(c: Coinbase): Script { c.primary + [SEPARATOR] + c.secondary + [0] }

  ghost predicate Writable(c: Coinbase) {
    && 1 <= |c.height| <= 8 && IsName(c.primary) && IsName(c.secondary)
    && |TagsOf(c)| < 256 && (!c.wide ==> |TagsOf(c)| != PUSHDATA1)
    && 4 <= |c.id| <= 75
  }

  function Write(c: Coinbase): Script
    requires |c.height| < 256 && |TagsOf(c)| < 256 && |c.id| < 256
  {
    [|c.height|] + c.height + (if c.wide then [PUSHDATA1] else []) + [|TagsOf(c)|] + TagsOf(c) + [|c.id|] + c.id + c.rest
  }

  /**
    In figures: one to eight bytes of height; two names without control characters, and with the
    separator and the final zero shorter than 256 bytes; 4 to 75 bytes of id. A tag push of 0x4C bytes
    needs the form with a length byte of its own.
   */
  lemma LayoutIs(c: Coinbase)
    ensures Writable(c) <==>
      && 1 <= |c.height| <= 8
      && c.primary != [] && (forall i | 0 <= i < |c.primary| :: c.primary[i] >= 0x20 && c.primary[i] != 0x7F)
      && c.secondary != [] && (forall i | 0 <= i < |c.secondary| :: c.secondary[i] >= 0x20 && c.secondary[i] != 0x7F)
      && |c.primary| + |c.secondary| <= 253 && (|c.primary| + |c.secondary| == 0x4A ==> c.wide)
      && 4 <= |c.id| <= 75
    ensures Writable(c) ==>
      var n := |c.primary| + |c.secondary| + 2;
      && Write(c)[0] == |c.height| && Write(c)[1..1 + |c.height|] == c.height
      && (var at := 1 + |c.height|;
          if c.wide then Write(c)[at] == 0x4C && Write(c)[at + 1..] == [n] + (c.primary + [0x0F] + c.secondary + [0x00]) + [|c.id|] + c.id + c.rest
          else Write(c)[at..] == [n] + (c.primary + [0x0F] + c.secondary + [0x00]) + [|c.id|] + c.id + c.rest)
  {
    assert |TagsOf(c)| == |c.primary| + |c.secondary| + 2;
    if Writable(c) {
      assert Write(c)[1..1 + |c.height|] == c.height;
    }
  }

  lemma TagsHaveSeparator(c: Coinbase)
    requires IsName(c.primary) && IsName(c.secondary)
    ensures SeparatorAt(TagsOf(c), |c.primary|) && TagsOk(TagsOf(c))
  {
    var tags, k := TagsOf(c), |c.primary|;
    forall j | 0 <= j < |tags| - 1 && j != k ensures InName(tags[j]) {
      assert tags[j] == if j < k then c.primary[j] else c.secondary[j - k - 1];
    }
    assert SeparatorAt(tags, k);
  }

  /** Where the parts of a written script are. */
  lemma WrittenParts(c: Coinbase)
    requires Writable(c)
    ensures var b, start, n := Write(c), 2 + |c.height| + (if c.wide then 1 else 0), |TagsOf(c)|;
      && TagPush(b) == Some((start, n)) && start + n < |b| && b[start..start + n] == TagsOf(c) && PooledId(b, start + n)
  {
    var b, start, n := Write(c), 2 + |c.height| + (if c.wide then 1 else 0), |TagsOf(c)|;
    var head := [|c.height|] + c.height + (if c.wide then [PUSHDATA1] else []) + [n];
    assert |head| == start && b == head + TagsOf(c) + [|c.id|] + c.id + c.rest;
    hide TagsOf;
    assert b[0] == |c.height|;
    assert b[start - 1] == n;
    assert c.wide ==> b[start - 2] == PUSHDATA1;
  }

  // ---------------------------------------------------------------------------------------
  // Reading names back

  /** Neither byte is in a name, so the first one found is the one after the name. */
  lemma {:induction false} PastName(s: Script, c: Byte, more: Script)
    requires (s == [] || IsName(s)) && !InName(c)
    ensures WithoutFirst(s + [c] + more, c) == s + more
    ensures UpTo(s + [c] + more, c) == s && After(s + [c] + more, c) == more
  {
    if s == [] {
      assert s + [c] + more == [c] + more;
      assert ([c] + more)[1..] == more;
      assert s + more == more;
    } else {
      assert s + [c] + more == [s[0]] + (s[1..] + [c] + more);
      assert (s + [c] + more)[1..] == s[1..] + [c] + more;
      assert s + more == [s[0]] + (s[1..] + more);
      PastName(s[1..], c, more);
    }
  }

  lemma {:induction false} NameIsOnePart(s: Script)
    requires s == [] || IsName(s)
    ensures Split(s, SEPARATOR) == [s]
  {
    if s != [] {
      NameIsOnePart(s[1..]);
      assert s == [s[0]] + s[1..];
    }
  }

  lemma {:induction false} TwoNamesAreTwoParts(p: Script, s: Script)
    requires (p == [] || IsName(p)) && IsName(s)
    ensures Split(p + [SEPARATOR] + s, SEPARATOR) == [p, s]
  {
    var text := p + [SEPARATOR] + s;
    if p == [] {
      assert text[1..] == s;
      NameIsOnePart(s);
    } else {
      assert text[1..] == p[1..] + [SEPARATOR] + s;
      TwoNamesAreTwoParts(p[1..], s);
      assert p == [p[0]] + p[1..];
    }
  }

  lemma {:induction false} PastTwoNames(p: Script, s: Script)
    requires (p == [] || IsName(p)) && IsName(s)
    ensures WithoutFirst(p + [SEPARATOR] + s + [0], 0) == p + [SEPARATOR] + s
  {
    var text := p + [SEPARATOR] + s + [0];
    if p == [] {
      PastName(s, 0, []);
      assert s + [0] + [] == s + [0] && s + [] == s;
      assert text[1..] == s + [0];
      assert p + [SEPARATOR] + s == [SEPARATOR] + s;
    } else {
      PastTwoNames(p[1..], s);
      assert text[1..] == p[1..] + [SEPARATOR] + s + [0];
      assert p + [SEPARATOR] + s == [p[0]] + (p[1..] + [SEPARATOR] + s);
    }
  }

  lemma SecondaryOfTags(c: Coinbase)
    requires IsName(c.primary) && IsName(c.secondary)
    ensures SecondaryOf(TagsOf(c)) == c.secondary
  {
    assert TagsOf(c)[|c.primary|] == SEPARATOR;
    PastName(c.primary, SEPARATOR, c.secondary + [0]);
    assert TagsOf(c) == c.primary + [SEPARATOR] + (c.secondary + [0]);
    PastName(c.secondary, 0, []);
    assert c.secondary + [0] + [] == c.secondary + [0];
  }

  lemma NamesOfTags(c: Coinbase)
    requires IsName(c.primary) && IsName(c.secondary)
    ensures Split(WithoutFirst(TagsOf(c), 0), SEPARATOR) == [c.primary, c.secondary]
  {
    PastTwoNames(c.primary, c.secondary);
    TwoNamesAreTwoParts(c.primary, c.secondary);
  }

  lemma WrittenIsAccepted(c: Coinbase)
    requires Writable(c)
    ensures IsDatum(Write(c))
  {
    WrittenParts(c);
    TagsHaveSeparator(c);
    assert |TagsOf(c)| >= 4;
    hide Write, TagsOk, PooledId, TagPush, TagsOf;
  }

  lemma WrittenNames(c: Coinbase)
    requires Writable(c)
    ensures RawNames(Write(c)) == [c.primary, c.secondary]
  {
    WrittenParts(c);
    NamesOfTags(c);
    hide Write, Split, WithoutFirst, PooledId, TagPush, TagsOf;
  }

  lemma WrittenSecondary(c: Coinbase)
    requires Writable(c)
    ensures SecondaryBytes(Write(c)) == c.secondary
  {
    hide IsName, Write, TagsOf, TagPush, PooledId, SecondaryOf, SecondaryBytes;
    WrittenParts(c);
    SecondaryOfTags(c);
    var start, n := 2 + |c.height| + (if c.wide then 1 else 0), |TagsOf(c)|;
    hide *;
    SameSlice(Write(c), start, n);
  }

  /** What a gateway writes is accepted, and both parsers read the names that were written. */
  lemma WrittenIsRead(c: Coinbase)
    requires Writable(c)
    ensures IsDatum(Write(c)) && RawNames(Write(c)) == [c.primary, c.secondary]
    ensures SecondaryBytes(Write(c)) == c.secondary
  {
    hide IsDatum, RawNames, SecondaryBytes, Write, TagsOf;
    WrittenIsAccepted(c);
    WrittenNames(c);
    WrittenSecondary(c);
  }

  /** The two parsers find the same push. */
  lemma SameSlice(b: Script, start: nat, n: nat)
    requires TagPush(b) == Some((start, n)) && start + n <= |b|
    ensures SecondaryBytes(b) == SecondaryOf(b[start..start + n])
  {
    hide SecondaryOf;
  }

  lemma NamesAround(tags: Script, k: nat)
    requires |tags| >= 4 && tags[|tags| - 1] == 0 && SeparatorAt(tags, k)
    ensures var p, s := tags[..k], tags[k + 1..|tags| - 1];
      IsName(p) && IsName(s) && p + [SEPARATOR] + s + [0] == tags
  {
  }

  /** Every accepted script is one that a gateway could have written. */
  lemma AcceptedIsWritten(b: Script) returns (c: Coinbase)
    requires IsDatum(b)
    ensures Writable(c) && Write(c) == b
  {
    var (start, n) := TagPush(b).value;
    var h, tags, at := b[0], b[start..start + n], start + n;
    var k: nat :| SeparatorAt(tags, k);
    NamesAround(tags, k);
    hide TagsOk, SeparatorAt, IsName;
    c := Coinbase(b[1..1 + h], b[1 + h] == PUSHDATA1, tags[..k], tags[k + 1..n - 1], b[at + 1..at + 1 + b[at]], b[at + 1 + b[at]..]);
    assert TagsOf(c) == tags;
    WrittenAgain(b, c, start, n);
  }

  /** The bytes before the tags. */
  lemma HeadIs(b: Script, start: nat, n: nat)
    requires TagPush(b) == Some((start, n)) && start <= |b| && n < 256
    ensures var wide := b[1 + b[0]] == PUSHDATA1;
      b[..start] == [b[0]] + b[1..1 + b[0]] + (if wide then [PUSHDATA1] else []) + [n]
  {
    var h := b[0];
    assert b[..1 + h] == [h] + b[1..1 + h];
    if b[1 + h] == PUSHDATA1 {
      assert b[..start] == b[..1 + h] + [b[1 + h], b[2 + h]];
    } else {
      assert b[..start] == b[..1 + h] + [b[1 + h]];
    }
  }

  lemma WrittenAgain(b: Script, c: Coinbase, start: nat, n: nat)
    requires TagPush(b) == Some((start, n)) && start + n < |b| && PooledId(b, start + n) && n < 256
    requires TagsOf(c) == b[start..start + n] && c.height == b[1..1 + b[0]] && c.wide == (b[1 + b[0]] == PUSHDATA1)
    requires var at := start + n; c.id == b[at + 1..at + 1 + b[at]] && c.rest == b[at + 1 + b[at]..]
    ensures |c.height| < 256 && |c.id| < 256 && Write(c) == b
  {
    var at := start + n;
    var end := at + 1 + b[at];
    HeadIs(b, start, n);
    hide TagsOf;
    assert |c.height| == b[0] && |c.id| == b[at] && |TagsOf(c)| == n;
    assert Write(c) == b[..start] + b[start..at] + [b[at]] + b[at + 1..end] + b[end..];
    WholeAgain(b, start, at, end);
  }

  lemma WholeAgain(b: Script, start: nat, at: nat, end: nat)
    requires start <= at < end <= |b|
    ensures b[..start] + b[start..at] + [b[at]] + b[at + 1..end] + b[end..] == b
  {
  }

  /**
    The two parsers agree on every accepted script: two names, neither empty, and the site reads
    the operator's from the very bytes the map's second name comes from.
   */
  lemma ParsersAgree(b: Script)
    requires IsDatum(b)
    ensures |RawNames(b)| == 2 && IsName(RawNames(b)[0]) && IsName(RawNames(b)[1])
    ensures SecondaryBytes(b) == RawNames(b)[1]
    ensures DatumNames(b) == [Sanitized(RawNames(b)[0]), Sanitized(RawNames(b)[1])]
  {
    var c := AcceptedIsWritten(b);
    WrittenIsRead(c);
  }
}
