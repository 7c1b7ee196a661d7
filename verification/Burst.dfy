/**
  Error detection: an accepted segwit address does not survive an error burst of up to six
  characters after its witness-version character.
 */
module Burst {
  import opened Positional
  import opened Polymod
  import opened Text
  import opened Segwit

  /** altered differs from addr at most in the n characters from position i. */
  predicate BurstAt(addr: string, altered: string, i: nat, n: nat) {
    && i + n <= |addr| == |altered|
    && altered[..i] == addr[..i]
    && altered[i + n..] == addr[i + n..]
  }

  lemma LowerBurst(addr: string, altered: string, i: nat, n: nat)
    requires BurstAt(addr, altered, i, n)
    ensures BurstAt(Lower(addr), Lower(altered), i, n)
  {
    assert Lower(addr)[..i] == Lower(addr[..i]) && Lower(altered)[..i] == Lower(altered[..i]);
    assert Lower(addr)[i + n..] == Lower(addr[i + n..]);
    assert Lower(altered)[i + n..] == Lower(altered[i + n..]);
  }

  /** Characters that agree outside the burst are symbols that agree outside it. */
  lemma SymbolsAgree(hrp: string, full: seq<nat>, full': seq<nat>, i: nat, n: nat)
    requires AllBelow(full, 32) && AllBelow(full', 32) && |hrp| + 1 <= i
    requires BurstAt(TextOf(hrp, full), TextOf(hrp, full'), i, n)
    ensures |full| == |full'|
    ensures var o := i - |hrp| - 1;
            o + n <= |full| && full[..o] == full'[..o] && full[o + n..] == full'[o + n..]
  {
    var o := i - |hrp| - 1;
    var t, t' := TextOf(hrp, full), TextOf(hrp, full');
    CharsetDistinct();
    forall j | 0 <= j < |full| && (j < o || o + n <= j) ensures full[j] == full'[j] {
      var c := |hrp| + 1 + j;
      assert t[c] == CHARSET[full[j]] && t'[c] == CHARSET[full'[j]];
      assert t[c] == t'[c] by {
        if j < o {
          assert t[..i][c] == t'[..i][c];
        } else {
          assert t[i + n..][c - i - n] == t'[i + n..][c - i - n];
        }
      }
    }
  }

  /** Symbol strings that agree outside six symbols cannot both check to one constant. */
  lemma WindowRejected(hrp: string, full: seq<nat>, full': seq<nat>, o: nat, n: nat)
    requires GoodHrp(hrp) && AllBelow(full, 32) && AllBelow(full', 32)
    requires |full| == |full'| && o + n <= |full| && n <= 6 && full != full'
    requires full[..o] == full'[..o] && full[o + n..] == full'[o + n..]
    ensures Checksum(HrpExpand(hrp) + full) != Checksum(HrpExpand(hrp) + full')
  {
    hide Checksum, HrpExpand;
    var head := HrpExpand(hrp);
    var u, u' := full[o..o + n], full'[o..o + n];
    CutWindow(head, full, o, n);
    CutWindow(head, full', o, n);
    AllBelowConcat(head, full[..o], 32);
    BurstChangesChecksum(head + full[..o], u, u', full[o + n..]);
  }

  lemma CutWindow(head: seq<nat>, s: seq<nat>, o: nat, n: nat)
    requires o + n <= |s|
    ensures s == s[..o] + s[o..o + n] + s[o + n..]
    ensures head + s == head + s[..o] + s[o..o + n] + s[o + n..]
  {
  }

  lemma PayloadStart(full: seq<nat>, v: nat, p: seq<nat>)
    requires v < 32 && |full| >= 6 && full[..|full| - 6] == Payload(v, p)
    ensures |full| > 0 && full[0] == v
  {
    assert Payload(v, p)[0] == v;
  }

  /** The lower-case form of an accepted address is its bech32 text. */
  lemma LowerIsText(addr: string, hrp: string, v: nat, p: seq<nat>)
    requires IsSegwitAddress(addr, hrp, v, p)
    ensures Lower(addr) == TextOf(hrp, SegwitSymbols(hrp, v, p))
    ensures Upper(addr) == Upper(TextOf(hrp, SegwitSymbols(hrp, v, p)))
  {
    hide SegwitSymbols;
    var text := TextOf(hrp, SegwitSymbols(hrp, v, p));
    TextFacts(hrp, SegwitSymbols(hrp, v, p));
    LowerLaws(text);
    LowerLaws(addr);
  }

  /**
    After any change confined to six consecutive characters behind the version character,
    what is still accepted is the same address in one of its two cases, and nothing else.
   */
  lemma BurstAcceptedIff(addr: string, altered: string, hrp: string, i: nat, n: nat)
    requires BurstAt(addr, altered, i, n) && n <= 6 && |hrp| + 2 <= i
    ensures ValidSegwit(addr, hrp) ==> (ValidSegwit(altered, hrp) <==> altered == Lower(addr) || altered == Upper(addr))
  {
    hide ValidSegwit, BurstAt, Upper, Lower;
    if ValidSegwit(addr, hrp) {
      BurstOnAccepted(addr, altered, hrp, i, n);
    }
  }

  lemma BurstOnAccepted(addr: string, altered: string, hrp: string, i: nat, n: nat)
    requires ValidSegwit(addr, hrp)
    requires BurstAt(addr, altered, i, n) && n <= 6 && |hrp| + 2 <= i
    ensures ValidSegwit(altered, hrp) <==> altered == Lower(addr) || altered == Upper(addr)
  {
    hide Checksum, HrpExpand, TextOf, Payload, SegwitSymbols, Upper, Lower, BurstAt;
    var v: nat, p :| IsSegwitAddress(addr, hrp, v, p);
    var full := SegwitSymbols(hrp, v, p);
    LowerIsText(addr, hrp, v, p);
    if altered == Lower(addr) || altered == Upper(addr) {
      assert IsSegwitAddress(altered, hrp, v, p) by {
        UpperLength(TextOf(hrp, full));
      }
    }
    if v': nat, p' :| IsSegwitAddress(altered, hrp, v', p') {
      var full' := SegwitSymbols(hrp, v', p');
      LowerIsText(altered, hrp, v', p');
      SegwitSpells(addr, hrp, v, p);
      SegwitSpells(altered, hrp, v', p');
      PayloadStart(full, v, p);
      PayloadStart(full', v', p');
      LowerBurst(addr, altered, i, n);
      SymbolsAgree(hrp, full, full', i, n);
      assert full[0] == full[..i - |hrp| - 1][0] == full'[0];
      if full != full' {
        WindowRejected(hrp, full, full', i - |hrp| - 1, n);
        assert false;
      }
    }
  }

  lemma UpperLength(s: string)
    ensures |Upper(s)| == |s|
  {
  }

  /**
    When the prefix holds a letter, as tb and bcrt do, every such change is rejected.
   */
  lemma BurstRejected(addr: string, altered: string, hrp: string, i: nat, n: nat, k: nat)
    requires k < |hrp| && IsLower(hrp[k])
    requires BurstAt(addr, altered, i, n) && n <= 6 && |hrp| + 2 <= i && altered != addr
    ensures ValidSegwit(addr, hrp) ==> !ValidSegwit(altered, hrp)
  {
    hide ValidSegwit, SegwitSymbols;
    if ValidSegwit(addr, hrp) {
      BurstOnAccepted(addr, altered, hrp, i, n);
      var text := AcceptedCase(addr, hrp);
      assert altered[k] == altered[..i][k] == addr[k];
      assert text[k] == hrp[k] && Upper(text)[k] == UpperChar(hrp[k]);
    }
  }

  lemma AcceptedCase(addr: string, hrp: string) returns (text: string)
    requires ValidSegwit(addr, hrp)
    ensures hrp <= text && Lower(addr) == text && Upper(addr) == Upper(text)
    ensures addr == text || addr == Upper(text)
  {
    hide Upper, Lower, SegwitSymbols;
    var v: nat, p :| IsSegwitAddress(addr, hrp, v, p);
    LowerIsText(addr, hrp, v, p);
    text := TextOf(hrp, SegwitSymbols(hrp, v, p));
  }
}
