/**
  The checksum of two addresses, some symbols at a time: those of the test vectors of BIP 173, section
  "Test vectors", and of BIP 350, section "Test vectors for v1-v16 native segregated witness addresses".
 */
module ChecksumTraces {
  import opened Checksum

  /** The symbols take the checksum from one state to another. */
  predicate Leads(c: bv32, vs: seq<nat>, d: bv32)
    decreases |vs|
  {
    if vs == [] then c == d else Leads(Step(c, Pattern(vs[0])), vs[1..], d)
  }

  lemma {:induction false} LeadsOn(c: bv32, vs: seq<nat>, m: bv32, ws: seq<nat>, d: bv32)
    requires Leads(c, vs, m) && Leads(m, ws, d)
    ensures Leads(c, vs + ws, d)
    decreases |vs|
  {
    if vs == [] {
      assert vs + ws == ws;
    } else {
      hide Step, Pattern;
      assert (vs + ws)[0] == vs[0] && (vs + ws)[1..] == vs[1..] + ws;
      LeadsOn(Step(c, Pattern(vs[0])), vs[1..], m, ws, d);
    }
  }

  lemma {:induction false} LeadsFrom(p: seq<nat>, vs: seq<nat>, d: bv32)
    requires Leads(Polymod(p), vs, d)
    ensures Polymod(p + vs) == d
    decreases |vs|
  {
    hide Step, Pattern;
    if vs == [] {
      assert p + vs == p;
    } else {
      assert (p + [vs[0]])[..|p|] == p;
      assert p + [vs[0]] + vs[1..] == p + vs;
      LeadsFrom(p + [vs[0]], vs[1..], d);
    }
  }

  lemma OfThePrefix()
    ensures Leads(1, [3, 3, 0, 2, 3], 0x02318043)
  {
  }

  lemma AfterThePrefix(d: seq<nat>, goal: bv32)
    requires Leads(0x02318043, d, goal)
    ensures Polymod([3, 3, 0, 2, 3] + d) == goal
  {
    hide Step, Pattern, Leads;
    OfThePrefix();
    assert Polymod([]) == 1;
    LeadsFrom([], [3, 3, 0, 2, 3], 0x02318043);
    assert [] + [3, 3, 0, 2, 3] == [3, 3, 0, 2, 3];
    LeadsFrom([3, 3, 0, 2, 3], d, goal);
  }

  lemma FirstOfKeyHash()
    ensures Leads(0x02318043, [0, 14, 20, 15], 0x087e0c09)
  {
  }

  lemma SecondOfKeyHash()
    ensures Leads(0x087e0c09, [7, 13, 26, 0], 0x0c9f52e2)
  {
  }

  lemma ThirdOfKeyHash()
    ensures Leads(0x0c9f52e2, [25, 18, 6, 11], 0x18d0d994)
  {
  }

  lemma FourthOfKeyHash()
    ensures Leads(0x18d0d994, [13, 8, 21, 4], 0x07f4d934)
  {
  }

  lemma FifthOfKeyHash()
    ensures Leads(0x07f4d934, [20, 3, 17, 2], 0x03a8fd3c)
  {
  }

  lemma SixthOfKeyHash()
    ensures Leads(0x03a8fd3c, [29, 3, 12, 29], 0x0c964f37)
  {
  }

  lemma SeventhOfKeyHash()
    ensures Leads(0x0c964f37, [3, 4, 15, 24], 0x367a4cd5)
  {
  }

  lemma EighthOfKeyHash()
    ensures Leads(0x367a4cd5, [20, 6, 14, 30], 0x2a353740)
  {
  }

  lemma NinthOfKeyHash()
    ensures Leads(0x2a353740, [22, 12, 7, 9], 0x009f99f7)
  {
  }

  lemma TenthOfKeyHash()
    ensures Leads(0x009f99f7, [17, 11, 21], 0x00000001)
  {
  }

  lemma FirstOfTaproot()
    ensures Leads(0x02318043, [1, 15, 6, 31], 0x087e8a59)
  {
  }

  lemma SecondOfTaproot()
    ensures Leads(0x087e8a59, [6, 12, 31, 23], 0x0d226881)
  {
  }

  lemma ThirdOfTaproot()
    ensures Leads(0x0d226881, [25, 27, 18, 29], 0x33209c0f)
  {
  }

  lemma FourthOfTaproot()
    ensures Leads(0x33209c0f, [26, 24, 21, 13], 0x3ae73ed1)
  {
  }

  lemma FifthOfTaproot()
    ensures Leads(0x3ae73ed1, [0, 12, 10, 10], 0x2b3bf1ee)
  {
  }

  lemma SixthOfTaproot()
    ensures Leads(0x2b3bf1ee, [28, 29, 1, 24], 0x1605cecc)
  {
  }

  lemma SeventhOfTaproot()
    ensures Leads(0x1605cecc, [11, 0, 28, 1], 0x0011b8fa)
  {
  }

  lemma EighthOfTaproot()
    ensures Leads(0x0011b8fa, [9, 23, 31, 6], 0x2cdb3b3e)
  {
  }

  lemma NinthOfTaproot()
    ensures Leads(0x2cdb3b3e, [27, 5, 23, 7], 0x3680a496)
  {
  }

  lemma TenthOfTaproot()
    ensures Leads(0x3680a496, [2, 17, 22, 10], 0x1a90e157)
  {
  }

  lemma EleventhOfTaproot()
    ensures Leads(0x1a90e157, [25, 30, 10, 0], 0x3c30f40c)
  {
  }

  lemma TwelfthOfTaproot()
    ensures Leads(0x3c30f40c, [21, 22, 5, 23], 0x05b0930d)
  {
  }

  lemma ThirteenthOfTaproot()
    ensures Leads(0x05b0930d, [24, 2, 30, 12], 0x19d67bc3)
  {
  }

  lemma FourteenthOfTaproot()
    ensures Leads(0x19d67bc3, [0, 2, 22, 20], 0x3f921ee9)
  {
  }

  lemma FifteenthOfTaproot()
    ensures Leads(0x3f921ee9, [18, 18, 15], 0x2bc830a3)
  {
  }
}
