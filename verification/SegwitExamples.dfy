/**
  One address of each kind, of those the standards give, is accepted: the test vectors whose checksums
  are followed in `ChecksumTraces`. They are written here in pieces.
 */
module SegwitExamples {
  import opened Prelude
  import opened Bits
  import opened Checksum
  import opened Regroup
  import opened Segwit
  import opened SegwitEncode
  import opened ChecksumTraces

  /** The symbols are written like this. */
  predicate Writes(vs: seq<nat>, text: string) { AreSymbols(vs) && Text(vs) == text }

  /** ... and take the checksum from one state to another: a piece of an address. */
  predicate Piece(c: bv32, vs: seq<nat>, text: string, d: bv32) { Leads(c, vs, d) && Writes(vs, text) }

  lemma IsPiece(c: bv32, vs: seq<nat>, text: string, d: bv32)
    requires Leads(c, vs, d) && Writes(vs, text)
    ensures Piece(c, vs, text, d)
  {
    hide Leads, Writes;
  }

  /** Two pieces make one. */
  lemma Joins(c: bv32, vs: seq<nat>, text: string, m: bv32, ws: seq<nat>, more: string, d: bv32)
    requires Piece(c, vs, text, m) && Leads(m, ws, d) && Writes(ws, more)
    ensures Piece(c, vs + ws, text + more, d)
  {
    hide Leads;
    LeadsOn(c, vs, m, ws, d);
    assert Text(vs + ws) == Text(vs) + Text(ws);
  }

  lemma FirstTextOfKeyHash()
    ensures Writes([0, 14, 20, 15], "qw50")
  {
  }

  lemma SecondTextOfKeyHash()
    ensures Writes([7, 13, 26, 0], "8d6q")
  {
  }

  lemma ThirdTextOfKeyHash()
    ensures Writes([25, 18, 6, 11], "ejxt")
  {
  }

  lemma FourthTextOfKeyHash()
    ensures Writes([13, 8, 21, 4], "dg4y")
  {
  }

  lemma FifthTextOfKeyHash()
    ensures Writes([20, 3, 17, 2], "5r3z")
  {
  }

  lemma SixthTextOfKeyHash()
    ensures Writes([29, 3, 12, 29], "arva")
  {
  }

  lemma SeventhTextOfKeyHash()
    ensures Writes([3, 4, 15, 24], "ry0c")
  {
  }

  lemma EighthTextOfKeyHash()
    ensures Writes([20, 6, 14, 30], "5xw7")
  {
  }

  lemma NinthTextOfKeyHash()
    ensures Writes([22, 12, 7, 9], "kv8f")
  {
  }

  lemma TenthTextOfKeyHash()
    ensures Writes([17, 11, 21], "3t4")
  {
  }

  lemma KeyHashSymbols() returns (d: seq<nat>)
    ensures Piece(0x02318043, d, "qw50" + "8d6q" + "ejxt" + "dg4y" + "5r3z" + "arva" + "ry0c" + "5xw7" + "kv8f" + "3t4", 0x00000001)
    ensures |d| == 39 && d[0] == 0
  {
    hide *;
    FirstOfKeyHash();
    FirstTextOfKeyHash();
    IsPiece(0x02318043, [0, 14, 20, 15], "qw50", 0x087e0c09);
    d := [0, 14, 20, 15];
    var t := "qw50";
    SecondOfKeyHash();
    SecondTextOfKeyHash();
    Joins(0x02318043, d, t, 0x087e0c09, [7, 13, 26, 0], "8d6q", 0x0c9f52e2);
    d, t := d + [7, 13, 26, 0], t + "8d6q";
    ThirdOfKeyHash();
    ThirdTextOfKeyHash();
    Joins(0x02318043, d, t, 0x0c9f52e2, [25, 18, 6, 11], "ejxt", 0x18d0d994);
    d, t := d + [25, 18, 6, 11], t + "ejxt";
    FourthOfKeyHash();
    FourthTextOfKeyHash();
    Joins(0x02318043, d, t, 0x18d0d994, [13, 8, 21, 4], "dg4y", 0x07f4d934);
    d, t := d + [13, 8, 21, 4], t + "dg4y";
    FifthOfKeyHash();
    FifthTextOfKeyHash();
    Joins(0x02318043, d, t, 0x07f4d934, [20, 3, 17, 2], "5r3z", 0x03a8fd3c);
    d, t := d + [20, 3, 17, 2], t + "5r3z";
    SixthOfKeyHash();
    SixthTextOfKeyHash();
    Joins(0x02318043, d, t, 0x03a8fd3c, [29, 3, 12, 29], "arva", 0x0c964f37);
    d, t := d + [29, 3, 12, 29], t + "arva";
    SeventhOfKeyHash();
    SeventhTextOfKeyHash();
    Joins(0x02318043, d, t, 0x0c964f37, [3, 4, 15, 24], "ry0c", 0x367a4cd5);
    d, t := d + [3, 4, 15, 24], t + "ry0c";
    EighthOfKeyHash();
    EighthTextOfKeyHash();
    Joins(0x02318043, d, t, 0x367a4cd5, [20, 6, 14, 30], "5xw7", 0x2a353740);
    d, t := d + [20, 6, 14, 30], t + "5xw7";
    NinthOfKeyHash();
    NinthTextOfKeyHash();
    Joins(0x02318043, d, t, 0x2a353740, [22, 12, 7, 9], "kv8f", 0x009f99f7);
    d, t := d + [22, 12, 7, 9], t + "kv8f";
    TenthOfKeyHash();
    TenthTextOfKeyHash();
    Joins(0x02318043, d, t, 0x009f99f7, [17, 11, 21], "3t4", 0x00000001);
    d, t := d + [17, 11, 21], t + "3t4";
  }

  lemma FirstTextOfTaproot()
    ensures Writes([1, 15, 6, 31], "p0xl")
  {
  }

  lemma SecondTextOfTaproot()
    ensures Writes([6, 12, 31, 23], "xvlh")
  {
  }

  lemma ThirdTextOfTaproot()
    ensures Writes([25, 27, 18, 29], "emja")
  {
  }

  lemma FourthTextOfTaproot()
    ensures Writes([26, 24, 21, 13], "6c4d")
  {
  }

  lemma FifthTextOfTaproot()
    ensures Writes([0, 12, 10, 10], "qv22")
  {
  }

  lemma SixthTextOfTaproot()
    ensures Writes([28, 29, 1, 24], "uapc")
  {
  }

  lemma SeventhTextOfTaproot()
    ensures Writes([11, 0, 28, 1], "tqup")
  {
  }

  lemma EighthTextOfTaproot()
    ensures Writes([9, 23, 31, 6], "fhlx")
  {
  }

  lemma NinthTextOfTaproot()
    ensures Writes([27, 5, 23, 7], "m9h8")
  {
  }

  lemma TenthTextOfTaproot()
    ensures Writes([2, 17, 22, 10], "z3k2")
  {
  }

  lemma EleventhTextOfTaproot()
    ensures Writes([25, 30, 10, 0], "e72q")
  {
  }

  lemma TwelfthTextOfTaproot()
    ensures Writes([21, 22, 5, 23], "4k9h")
  {
  }

  lemma ThirteenthTextOfTaproot()
    ensures Writes([24, 2, 30, 12], "cz7v")
  {
  }

  lemma FourteenthTextOfTaproot()
    ensures Writes([0, 2, 22, 20], "qzk5")
  {
  }

  lemma FifteenthTextOfTaproot()
    ensures Writes([18, 18, 15], "jj0")
  {
  }

  lemma FrontOfTaproot() returns (d: seq<nat>)
    ensures Piece(0x02318043, d, "p0xl" + "xvlh" + "emja" + "6c4d" + "qv22" + "uapc" + "tqup" + "fhlx", 0x2cdb3b3e)
    ensures |d| == 32 && d[0] == 1
  {
    hide *;
    FirstOfTaproot();
    FirstTextOfTaproot();
    IsPiece(0x02318043, [1, 15, 6, 31], "p0xl", 0x087e8a59);
    d := [1, 15, 6, 31];
    var t := "p0xl";
    SecondOfTaproot();
    SecondTextOfTaproot();
    Joins(0x02318043, d, t, 0x087e8a59, [6, 12, 31, 23], "xvlh", 0x0d226881);
    d, t := d + [6, 12, 31, 23], t + "xvlh";
    ThirdOfTaproot();
    ThirdTextOfTaproot();
    Joins(0x02318043, d, t, 0x0d226881, [25, 27, 18, 29], "emja", 0x33209c0f);
    d, t := d + [25, 27, 18, 29], t + "emja";
    FourthOfTaproot();
    FourthTextOfTaproot();
    Joins(0x02318043, d, t, 0x33209c0f, [26, 24, 21, 13], "6c4d", 0x3ae73ed1);
    d, t := d + [26, 24, 21, 13], t + "6c4d";
    FifthOfTaproot();
    FifthTextOfTaproot();
    Joins(0x02318043, d, t, 0x3ae73ed1, [0, 12, 10, 10], "qv22", 0x2b3bf1ee);
    d, t := d + [0, 12, 10, 10], t + "qv22";
    SixthOfTaproot();
    SixthTextOfTaproot();
    Joins(0x02318043, d, t, 0x2b3bf1ee, [28, 29, 1, 24], "uapc", 0x1605cecc);
    d, t := d + [28, 29, 1, 24], t + "uapc";
    SeventhOfTaproot();
    SeventhTextOfTaproot();
    Joins(0x02318043, d, t, 0x1605cecc, [11, 0, 28, 1], "tqup", 0x0011b8fa);
    d, t := d + [11, 0, 28, 1], t + "tqup";
    EighthOfTaproot();
    EighthTextOfTaproot();
    Joins(0x02318043, d, t, 0x0011b8fa, [9, 23, 31, 6], "fhlx", 0x2cdb3b3e);
    d, t := d + [9, 23, 31, 6], t + "fhlx";
  }

  lemma BackOfTaproot() returns (d: seq<nat>)
    ensures Piece(0x2cdb3b3e, d, "m9h8" + "z3k2" + "e72q" + "4k9h" + "cz7v" + "qzk5" + "jj0", 0x2bc830a3)
    ensures |d| == 27 && d[20] == 0
  {
    hide *;
    NinthOfTaproot();
    NinthTextOfTaproot();
    IsPiece(0x2cdb3b3e, [27, 5, 23, 7], "m9h8", 0x3680a496);
    d := [27, 5, 23, 7];
    var t := "m9h8";
    TenthOfTaproot();
    TenthTextOfTaproot();
    Joins(0x2cdb3b3e, d, t, 0x3680a496, [2, 17, 22, 10], "z3k2", 0x1a90e157);
    d, t := d + [2, 17, 22, 10], t + "z3k2";
    EleventhOfTaproot();
    EleventhTextOfTaproot();
    Joins(0x2cdb3b3e, d, t, 0x1a90e157, [25, 30, 10, 0], "e72q", 0x3c30f40c);
    d, t := d + [25, 30, 10, 0], t + "e72q";
    TwelfthOfTaproot();
    TwelfthTextOfTaproot();
    Joins(0x2cdb3b3e, d, t, 0x3c30f40c, [21, 22, 5, 23], "4k9h", 0x05b0930d);
    d, t := d + [21, 22, 5, 23], t + "4k9h";
    ThirteenthOfTaproot();
    ThirteenthTextOfTaproot();
    Joins(0x2cdb3b3e, d, t, 0x05b0930d, [24, 2, 30, 12], "cz7v", 0x19d67bc3);
    d, t := d + [24, 2, 30, 12], t + "cz7v";
    FourteenthOfTaproot();
    FourteenthTextOfTaproot();
    Joins(0x2cdb3b3e, d, t, 0x19d67bc3, [0, 2, 22, 20], "qzk5", 0x3f921ee9);
    d, t := d + [0, 2, 22, 20], t + "qzk5";
    FifteenthOfTaproot();
    FifteenthTextOfTaproot();
    Joins(0x2cdb3b3e, d, t, 0x3f921ee9, [18, 18, 15], "jj0", 0x2bc830a3);
    d, t := d + [18, 18, 15], t + "jj0";
  }

  lemma PiecesJoin(c: bv32, vs: seq<nat>, text: string, m: bv32, ws: seq<nat>, more: string, d: bv32)
    requires Piece(c, vs, text, m) && Piece(m, ws, more, d)
    ensures Piece(c, vs + ws, text + more, d)
  {
    Joins(c, vs, text, m, ws, more, d);
    hide Leads;
  }

  lemma NoPadding(g: seq<nat>)
    requires AreGroups(g) && |g| == 32
    ensures Regrouped(g).Some? && |Regrouped(g).value| == 20
  {
    assert Pow2(0) == 1;
  }

  lemma LowBitsOf(x: nat, y: nat)
    ensures (32 * x + y) % 16 == y % 16
  {
  }

  lemma FourBitsLeft()
    ensures Pow2(4) == 16
  {
    assert Pow2(2) == 4;
    Pow2Sum(2, 2);
  }

  lemma LastGroup(g: seq<nat>)
    requires g != []
    ensures Joined(g) == 32 * Joined(g[..|g| - 1]) + g[|g| - 1]
  {
  }

  lemma FourZeroBits(g: seq<nat>)
    requires AreGroups(g) && |g| == 52 && g[51] % 16 == 0
    ensures Regrouped(g).Some? && |Regrouped(g).value| == 32
  {
    hide Joined, Pow2, BigEndian, Shr;
    FourBitsLeft();
    LastGroup(g);
    LowBitsOf(Joined(g[..51]), g[51]);
  }

  /** An address made of these symbols, with the right checksum and no bits left over, is accepted. */
  lemma PieceIsAccepted(d: seq<nat>, text: string, goal: bv32)
    requires Piece(0x02318043, d, text, goal)
    requires (|d| == 39 && d[0] == 0 && goal == 1) || (|d| == 59 && d[0] == 1 && d[52] % 16 == 0 && goal == 0x2bc830a3)
    ensures SegwitOf("bc1" + text) == Some("bc1" + text) && VersionOf("bc1" + text) == d[0]
  {
    hide Leads, Text, Polymod, Regrouped, SegwitOf, VersionOf, DataOf;
    AfterThePrefix(d, goal);
    if |d| == 39 {
      NoPadding(d[1..|d| - 6]);
    } else {
      FourZeroBits(d[1..|d| - 6]);
    }
    AddressIsAccepted(d);
  }

  /** A pay-to-witness-public-key-hash address of BIP 173. */
  lemma KeyHashAddressIsAccepted()
    ensures var a := "bc1" + ("qw50" + "8d6q" + "ejxt" + "dg4y" + "5r3z" + "arva" + "ry0c" + "5xw7" + "kv8f" + "3t4");
      SegwitOf(a) == Some(a) && VersionOf(a) == 0
  {
    hide *;
    var d := KeyHashSymbols();
    PieceIsAccepted(d, "qw50" + "8d6q" + "ejxt" + "dg4y" + "5r3z" + "arva" + "ry0c" + "5xw7" + "kv8f" + "3t4", 1);
  }

  /** A pay-to-taproot address of BIP 350. */
  lemma TaprootAddressIsAccepted()
    ensures var a := "bc1" + (("p0xl" + "xvlh" + "emja" + "6c4d" + "qv22" + "uapc" + "tqup" + "fhlx") + ("m9h8" + "z3k2" + "e72q" + "4k9h" + "cz7v" + "qzk5" + "jj0"));
      SegwitOf(a) == Some(a) && VersionOf(a) == 1
  {
    hide *;
    var d := FrontOfTaproot();
    var e := BackOfTaproot();
    PiecesJoin(0x02318043, d, "p0xl" + "xvlh" + "emja" + "6c4d" + "qv22" + "uapc" + "tqup" + "fhlx", 0x2cdb3b3e, e, "m9h8" + "z3k2" + "e72q" + "4k9h" + "cz7v" + "qzk5" + "jj0", 0x2bc830a3);
    PieceIsAccepted(d + e, ("p0xl" + "xvlh" + "emja" + "6c4d" + "qv22" + "uapc" + "tqup" + "fhlx") + ("m9h8" + "z3k2" + "e72q" + "4k9h" + "cz7v" + "qzk5" + "jj0"), 0x2bc830a3);
  }

  /** The prefix is expanded as BIP 173 says: the high bits of its letters, a zero, and their low bits. */
  lemma PrefixIsExpanded()
    ensures HRP == ['b' as nat / 32, 'c' as nat / 32, 0, 'b' as nat % 32, 'c' as nat % 32]
  {
  }
}
