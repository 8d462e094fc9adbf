/** `payoutAddress` of cloudflare/mcp/src/address.js, for a string already trimmed. */
module PayoutAddress {
  import opened Prelude
  import opened Segwit
  import opened Base58

  predicate Plain(s: string) {
    forall i | 0 <= i < |s| :: '0' <= s[i] <= '9' || 'A' <= s[i] <= 'Z' || 'a' <= s[i] <= 'z'
  }

  predicate LooksSegwit(s: string) { |s| >= 3 && Lower(s[..3]) == "bc1" }

  function Payout(s: string, digest: Digest): Option<string> {
    if s == "" || |s| > 90 || !Plain(s) then None
    else if LooksSegwit(s) then SegwitOf(s)
    else if Decode(s, digest).Some? then Some(s) else None
  }

  method CheckPayout(s: string, digest: Digest) returns (r: Option<string>)
    ensures r == Payout(s, digest)
  {
    if s == "" || |s| > 90 || !Plain(s) {
      return None;
    }
    if LooksSegwit(s) {
      r := Segwit.Segwit(s);
    } else {
      r := Base58Check(s, digest);
    }
  }

  /** What is paid. */
  datatype Script = Witness(version: nat, program: seq<nat>) | Hash(versionAndHash: seq<nat>)

  function ScriptOf(a: string, digest: Digest): Option<Script> {
    if LooksSegwit(a) then
      if |DataOf(a)| >= 7 && Program(DataOf(a)).Some? then Some(Witness(VersionOf(a), Program(DataOf(a)).value)) else None
    else match Decode(a, digest)
      case Some(bytes) => Some(Hash(bytes[..21]))
      case None => None
  }

  lemma LowerStart(s: string)
    requires |s| >= 3
    ensures Lower(s)[..3] == Lower(s[..3]) && Lower(Lower(s)[..3]) == Lower(s[..3])
  {
  }

  /** An accepted address is its own canonical form, and pays something. */
  lemma PayoutIsCanonical(s: string, digest: Digest)
    requires Payout(s, digest).Some?
    ensures var a := Payout(s, digest).value; Payout(a, digest) == Some(a) && ScriptOf(a, digest).Some?
  {
    var a := Payout(s, digest).value;
    if LooksSegwit(s) {
      AcceptedIsKept(s);
      LowerStart(s);
      AcceptedIs(a);
      assert Plain(a) by {
        assert a == Lower(s);
      }
    }
  }

  /** No two canonical addresses pay the same: a script has one spelling. */
  lemma OneAddressPerScript(a: string, b: string, digest: Digest)
    requires Payout(a, digest) == Some(a) && Payout(b, digest) == Some(b)
    requires ScriptOf(a, digest) == ScriptOf(b, digest)
    ensures a == b
  {
    PayoutIsCanonical(a, digest);
    hide Decoded, Lower, Plain, DataOf, Program;
    if LooksSegwit(a) {
      AcceptedIs(a);
      AcceptedIs(b);
      OneSpelling(a, b);
    } else {
      OneSpelling58(a, b, digest);
    }
  }
}
