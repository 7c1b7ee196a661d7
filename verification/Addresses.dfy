/** The faucet's address check: segwit for the chain's prefix, or a testnet base58 version. */
module Addresses {
  import opened Options
  import opened Positional
  import opened Text
  import Segwit
  import Base58

  const BECH32_HRP: map<string, string> :=
    map["regtest" := "bcrt", "test" := "tb", "testnet4" := "tb", "signet" := "tb"]
  const BASE58_VERSIONS: set<nat> := {0x6F, 0xC4}

  /** str.isspace for one character. */
  predicate IsSpace(c: char) {
    var n := c as int;
    || 9 <= n <= 13 || 28 <= n <= 32 || n == 0x85 || n == 0xA0 || n == 0x1680
    || 0x2000 <= n <= 0x200A || n == 0x2028 || n == 0x2029 || n == 0x202F || n == 0x205F
    || n == 0x3000
  }

  predicate HasSpace(s: string) {
    exists i :: 0 <= i < |s| && IsSpace(s[i])
  }

  /** A well-formed payment address of a chain: one of the two families, nothing else. */
  ghost predicate IsPaymentAddress(sha: seq<nat> -> Base58.Digest, address: string, chain: string) {
    && chain in BECH32_HRP
    && (|| Segwit.ValidSegwit(address, BECH32_HRP[chain])
        || exists v :: v in BASE58_VERSIONS && Base58.HasVersion(sha, address, v))
  }

  /** The same with prefixes and version bytes written out. */
  ghost predicate PaysOnChain(sha: seq<nat> -> Base58.Digest, address: string, chain: string) {
    || (chain == "regtest" && Segwit.SpellsProgram(address, "bcrt"))
    || (chain in {"test", "testnet4", "signet"} && Segwit.SpellsProgram(address, "tb"))
    || (chain in {"regtest", "test", "testnet4", "signet"}
        && (Base58.HasVersion(sha, address, 0x6F) || Base58.HasVersion(sha, address, 0xC4)))
  }

  lemma ChainsSpelledOut(sha: seq<nat> -> Base58.Digest, address: string, chain: string)
    ensures IsPaymentAddress(sha, address, chain) <==> PaysOnChain(sha, address, chain)
  {
    hide Segwit.ValidSegwit, Segwit.SpellsProgram, Base58.HasVersion;
    Segwit.AcceptanceSpelledOut(address, "bcrt");
    Segwit.AcceptanceSpelledOut(address, "tb");
    assert 0x6F in BASE58_VERSIONS && 0xC4 in BASE58_VERSIONS;
  }

  lemma SegwitIsPrintable(address: string, hrp: string)
    requires Segwit.ValidSegwit(address, hrp)
    ensures Printable(address) && address != ""
  {
    hide Segwit.SegwitSymbols, Segwit.TextOf;
    var v: nat, p :| Segwit.IsSegwitAddress(address, hrp, v, p);
    Segwit.SegwitDecodes(address, hrp, v, p);
  }

  lemma Base58IsPrintable(sha: seq<nat> -> Base58.Digest, address: string, v: nat)
    requires Base58.HasVersion(sha, address, v)
    ensures Printable(address) && address != ""
  {
    hide Base58.TextOf, Find, Base58.HasVersion, Base58.Tag;
    if Base58.BytesOf(address) == None {
      Base58.NoBytesNoVersion(sha, address, v);
      assert false;
    }
    Base58.BytesDecideVersion(sha, address, Base58.BytesOf(address).value, v);
    forall i | 0 <= i < |address| ensures 33 <= address[i] as int <= 126 {
      Base58.AlphabetIsPrintable(Find(Base58.B58_ALPHABET, address[i]));
    }
    if address == "" {
      EmptyBytes();
      assert false;
    }
  }

  lemma EmptyBytes()
    ensures Base58.BytesOf("") == Some([])
  {
  }

  /** The whitespace test and the empty test reject nothing the decoders accept. */
  lemma NoSpaceInAddress(sha: seq<nat> -> Base58.Digest, address: string, chain: string)
    ensures IsPaymentAddress(sha, address, chain) ==> !HasSpace(address) && address != ""
  {
    hide Segwit.ValidSegwit, Base58.HasVersion;
    if IsPaymentAddress(sha, address, chain) {
      if Segwit.ValidSegwit(address, BECH32_HRP[chain]) {
        SegwitIsPrintable(address, BECH32_HRP[chain]);
      } else {
        var v :| v in BASE58_VERSIONS && Base58.HasVersion(sha, address, v);
        Base58IsPrintable(sha, address, v);
      }
    }
  }

  method IsValidAddress(sha: seq<nat> -> Base58.Digest, address: string, chain: string) returns (ok: bool)
    ensures ok <==> IsPaymentAddress(sha, address, chain)
    ensures ok <==> PaysOnChain(sha, address, chain)
  {
    hide Segwit.ValidSegwit, Base58.HasVersion, HasSpace, PaysOnChain;
    ChainsSpelledOut(sha, address, chain);
    NoSpaceInAddress(sha, address, chain);
    var spaced := HasSpace(address);
    if address == "" || spaced {
      return false;
    }
    if chain !in BECH32_HRP {
      return false;
    }
    var segwit := Segwit.IsValidSegwit(address, BECH32_HRP[chain]);
    if segwit {
      return true;
    }
    var version := Base58.Version(sha, address);
    if version.Some? {
      VersionUnique(sha, address, version.value);
    }
    return version.Some? && version.value in BASE58_VERSIONS;
  }

  lemma VersionUnique(sha: seq<nat> -> Base58.Digest, address: string, v: nat)
    requires Base58.HasVersion(sha, address, v)
    ensures forall w :: Base58.HasVersion(sha, address, w) ==> w == v
  {
    hide Base58.HasVersion, Base58.BytesOf, Base58.Tag;
    forall w | Base58.HasVersion(sha, address, w) ensures w == v {
      if Base58.BytesOf(address) == None {
        Base58.NoBytesNoVersion(sha, address, v);
      } else {
        Base58.BytesDecideVersion(sha, address, Base58.BytesOf(address).value, v);
        Base58.BytesDecideVersion(sha, address, Base58.BytesOf(address).value, w);
      }
    }
  }

  lemma PrefixesAreGood(chain: string)
    requires chain in BECH32_HRP
    ensures Segwit.GoodHrp(BECH32_HRP[chain]) && |BECH32_HRP[chain]| <= 18
  {
    assert BECH32_HRP[chain] in {"bcrt", "tb"};
  }

  /** Whatever either encoder produces for a chain, the chain's faucet accepts. */
  lemma EncodedAddressesAccepted(sha: seq<nat> -> Base58.Digest, chain: string, version: nat, prog: seq<nat>,
                                 payload: seq<nat>)
    requires chain in BECH32_HRP && Segwit.GoodProgram(version, prog)
    requires AllBelow(payload, 256) && |payload| == 21 && payload[0] in BASE58_VERSIONS
    ensures Segwit.GoodHrp(BECH32_HRP[chain])
    ensures var hrp := BECH32_HRP[chain];
            IsPaymentAddress(sha, Segwit.TextOf(hrp, Segwit.SegwitSymbols(hrp, version, prog)), chain)
    ensures IsPaymentAddress(sha, Base58.CheckedText(sha, payload), chain)
  {
    hide Segwit.ValidSegwit, Base58.HasVersion, Segwit.GoodHrp, Segwit.GoodProgram;
    PrefixesAreGood(chain);
    Segwit.EncodedIsAccepted(BECH32_HRP[chain], version, prog);
    Base58.RoundTrip(sha, payload, payload[0]);
  }
}
