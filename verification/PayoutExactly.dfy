/** What `payoutAddress` accepts: every address the standards write, and nothing else. */
module PayoutExactly {
  import opened Prelude
  import opened Bits
  import opened Checksum
  import opened Regroup
  import opened Segwit
  import opened SegwitEncode
  import opened Base58
  import opened PayoutAddress

  lemma CharsetIsPlain(d: nat)
    requires d < 32
    ensures '0' <= CHARSET[d] <= '9' || 'a' <= CHARSET[d] <= 'z'
  {
  }

  lemma AddressIsPlain(d: seq<nat>)
    requires AreSymbols(d) && 11 <= |d| <= 87
    ensures var a := AddressOf(d); a != "" && |a| <= 90 && Plain(a) && LooksSegwit(a)
  {
    var a := AddressOf(d);
    forall i | 0 <= i < |a| ensures '0' <= a[i] <= '9' || 'a' <= a[i] <= 'z' {
      if i > 2 {
        assert a[i] == Text(d)[i - 3];
        CharsetIsPlain(d[i - 3]);
      } else {
        assert a[i] == "bc1"[i];
      }
    }
    hide Text;
    assert a[..3] == "bc1";
    assert Lower("bc1") == "bc1";
  }

  /** Every segwit address that the standards write for a program of version 0 or 1 is accepted, and pays that program. */
  lemma SegwitIsAccepted(version: nat, p: seq<nat>, digest: Digest)
    requires AreBytes(p) && ((version == 0 && (|p| == 20 || |p| == 32)) || (version == 1 && |p| == 32))
    ensures var a := Encoded(version, p);
      Payout(a, digest) == Some(a) && ScriptOf(a, digest) == Some(Witness(version, p))
  {
    hide *;
    var a := Encoded(version, p);
    EncodedIsAccepted(version, p);
    DataMakesProgram(version, p);
    AddressIsPlain(DataFor(version, p));
    EncodedIs(version, p);
    PaysWitness(a, version, p, digest);
  }

  lemma EncodedIs(version: nat, p: seq<nat>)
    requires version < 32
    ensures Encoded(version, p) == AddressOf(DataFor(version, p))
  {
    hide DataFor, AddressOf;
  }

  lemma PaysWitness(a: string, version: nat, p: seq<nat>, digest: Digest)
    requires a != "" && |a| <= 90 && Plain(a) && LooksSegwit(a)
    requires SegwitOf(a) == Some(a) && VersionOf(a) == version && |DataOf(a)| >= 7 && Program(DataOf(a)) == Some(p)
    ensures Payout(a, digest) == Some(a) && ScriptOf(a, digest) == Some(Witness(version, p))
  {
    hide Plain, LooksSegwit, SegwitOf, VersionOf, DataOf, Program;
  }

  lemma AlphabetIsPlain(d: nat)
    requires d < 58
    ensures var c := ALPHABET[d]; '0' <= c <= '9' || 'A' <= c <= 'Z' || 'a' <= c <= 'z'
  {
    AlphabetHas(d);
  }

  lemma SpelledIsPlain(ds: seq<nat>)
    requires AreDigits(ds, 58)
    ensures Plain(Spelled(ds))
  {
    forall i | 0 <= i < |ds| ensures var c := Spelled(ds)[i]; '0' <= c <= '9' || 'A' <= c <= 'Z' || 'a' <= c <= 'z' {
      AlphabetIsPlain(ds[i]);
    }
  }

  lemma NotSegwit(a: string)
    requires a != "" && (a[0] == '1' || a[0] == '3')
    ensures !LooksSegwit(a)
  {
    if |a| >= 3 {
      assert Lower(a[..3])[0] == a[0] && "bc1"[0] == 'b';
    }
  }

  /** So is every base58 address of 25 bytes that check out, and pays that version and hash. */
  lemma Base58IsAccepted(bytes: seq<nat>, digest: Digest)
    requires AreDigits(bytes, 256) && Checked(bytes, digest) && Addressed(Encode(bytes))
    ensures var a := Encode(bytes);
      Payout(a, digest) == Some(a) && ScriptOf(a, digest) == Some(Hash(bytes[..21]))
  {
    hide Plain, LooksSegwit, Decode, Convert, Checked, Spelled;
    EncodedIsDecoded(bytes, digest);
    ConvertedDigits(bytes, 256, 58);
    SpelledIsPlain(Convert(bytes, 256, 58));
    NotSegwit(Encode(bytes));
  }

  /** The string is such an address, in lower or in upper case for a segwit one. */
  ghost predicate IsWritten(s: string, a: string, digest: Digest) {
    || (exists version: nat, p: seq<nat> :: IsEncoding(a, version, p) && (s == a || s == Upper(a)))
    || (a == s && exists bytes: seq<nat> :: IsEncoding58(s, bytes, digest))
  }

  ghost predicate IsEncoding(a: string, version: nat, p: seq<nat>) {
    AreBytes(p) && ((version == 0 && (|p| == 20 || |p| == 32)) || (version == 1 && |p| == 32)) && a == Encoded(version, p)
  }

  ghost predicate IsEncoding58(s: string, bytes: seq<nat>, digest: Digest) {
    && AreDigits(bytes, 256) && s == Encode(bytes) && 26 <= |s| <= 35 && (s[0] == '1' || s[0] == '3')
    && |bytes| == 25 && (bytes[0] == 0x00 || bytes[0] == 0x05)
    && |digest(bytes[..21])| >= 4 && digest(bytes[..21])[..4] == bytes[21..]
  }

  lemma CaseOfAccepted(s: string)
    requires SegwitOf(s).Some?
    ensures var a := SegwitOf(s).value; s == a || s == Upper(a)
  {
    LowerIsAccepted(s);
    LowerTwice(s);
    UpperOfLower(s);
    hide SegwitOf, Lower, Upper;
  }

  lemma UpperOfLower(s: string)
    ensures s == Upper(s) ==> Upper(Lower(s)) == s
  {
    if s == Upper(s) {
      forall i | 0 <= i < |s| ensures UpperChar(LowerChar(s[i])) == s[i] {
        assert s[i] == Upper(s)[i];
      }
      assert Upper(Lower(s)) == s;
    }
  }

  lemma DecodedAreBytes(s: string, digest: Digest)
    requires Decode(s, digest).Some?
    ensures AreDigits(Decode(s, digest).value, 256)
  {
    hide DigitsOf, Convert;
    ConvertedDigits(DigitsOf(s).value, 58, 256);
  }

  /** Nothing else is accepted. */
  lemma AcceptedIsWritten(s: string, digest: Digest)
    requires Payout(s, digest).Some?
    ensures IsWritten(s, Payout(s, digest).value, digest)
  {
    hide SegwitOf, Decode, Encoded, Encode, Plain;
    var a := Payout(s, digest).value;
    if LooksSegwit(s) {
      CaseOfAccepted(s);
      AcceptedIsEncoded(s);
      ProgramsAre(s);
      assert IsEncoding(a, VersionOf(s), Program(DataOf(s)).value);
    } else {
      DecodedAreBytes(s, digest);
      AcceptedExactly(s, Decode(s, digest).value, digest);
      assert IsEncoding58(s, Decode(s, digest).value, digest);
    }
  }
}
