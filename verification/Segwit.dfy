/**
  Bech32 and bech32m decoding and segwit address acceptance (argus/faucet/addresses.py),
  against the encoder of BIP 173 and BIP 350.
 */
module Segwit {
  import opened Options
  import opened Positional
  import opened ConvertBits
  import opened Polymod
  import opened Text

  const CHARSET := "qpzry9x8gf2tvdw0s3jn54khce6mua7l"
  const BECH32_CONST: bv30 := 1
  const BECH32M_CONST: bv30 := 0x2BC830A3

  lemma CharsetDistinct()
    ensures Distinct(CHARSET)
  {
    forall i, j | 0 <= i < j < 32 ensures CHARSET[i] != CHARSET[j] {
      if i < 8 {
        CharsetDistinctInEarlyPart(i, j);
      } else {
        CharsetDistinctInLatePart(i, j);
      }
    }
  }

  lemma CharsetDistinctInEarlyPart(i: nat, j: nat)
    requires i < j < 32 && i < 8
    ensures CHARSET[i] != CHARSET[j]
  {
  }

  lemma CharsetDistinctInLatePart(i: nat, j: nat)
    requires 8 <= i < j < 32
    ensures CHARSET[i] != CHARSET[j]
  {
  }

  lemma CharsetFacts(i: nat)
    requires i < 32
    ensures 33 <= CHARSET[i] as int <= 126 && CHARSET[i] != '1' && !IsUpper(CHARSET[i])
  {
  }

  function HrpExpand(hrp: string): (values: seq<nat>)
    requires Printable(hrp)
    ensures |values| == 2 * |hrp| + 1 && AllBelow(values, 32)
  {
    seq(|hrp|, i requires 0 <= i < |hrp| => hrp[i] as int / 32)
    + [0]
    + seq(|hrp|, i requires 0 <= i < |hrp| => hrp[i] as int % 32)
  }

  predicate InCharset(s: string) {
    forall i :: 0 <= i < |s| ==> Find(CHARSET, s[i]) != -1
  }

  function SymbolsOf(s: string): (values: seq<nat>)
    requires InCharset(s)
    ensures |values| == |s| && AllBelow(values, 32)
  {
    seq(|s|, i requires 0 <= i < |s| => Find(CHARSET, s[i]))
  }

  function Chars(values: seq<nat>): (s: string)
    requires AllBelow(values, 32)
    ensures |s| == |values|
  {
    seq(|values|, i requires 0 <= i < |values| => CHARSET[values[i]])
  }

  datatype Decoded = Decoded(hrp: string, data: seq<nat>, target: bv30)

  /** What the decoder computes, as one expression. */
  function DecodeOf(addr: string): Option<Decoded> {
    var low := Lower(addr);
    var pos := RFind(low, '1');
    if !Printable(addr) || (low != addr && Upper(addr) != addr) then None
    else if pos < 1 || pos + 7 > |low| || |low| > 90 || !InCharset(low[pos + 1..]) then None
    else
      LowerLaws(addr);
      var full := SymbolsOf(low[pos + 1..]);
      var chk := Checksum(HrpExpand(low[..pos]) + full);
      if chk != BECH32_CONST && chk != BECH32M_CONST then None
      else Some(Decoded(low[..pos], full[..|full| - 6], chk))
  }

  /** The symbol loop of the decoder. */
  method ScanSymbols(rest: string) returns (r: Option<seq<nat>>)
    ensures r == if InCharset(rest) then Some(SymbolsOf(rest)) else None
  {
    hide Find;
    var data: seq<nat> := [];
    var n := 0;
    while n < |rest|
      invariant 0 <= n <= |rest| && |data| == n
      invariant forall i :: 0 <= i < n ==> Find(CHARSET, rest[i]) != -1 && data[i] == Find(CHARSET, rest[i])
    {
      var d := Find(CHARSET, rest[n]);
      if d == -1 {
        return None;
      }
      data := data + [d];
      n := n + 1;
    }
    assert data == SymbolsOf(rest);
    return Some(data);
  }

  method Decode(addr: string) returns (r: Option<Decoded>)
    ensures r == DecodeOf(addr)
  {
    hide Checksum, HrpExpand, Find, RFind, SymbolsOf, InCharset, Upper;
    if !Printable(addr) {
      return None;
    }
    if Lower(addr) != addr && Upper(addr) != addr {
      return None;
    }
    LowerLaws(addr);
    var low := Lower(addr);
    var pos := RFind(low, '1');
    if pos < 1 || pos + 7 > |low| || |low| > 90 {
      return None;
    }
    var hrp := low[..pos];
    var rest := low[pos + 1..];
    var scanned := ScanSymbols(rest);
    if scanned.None? {
      return None;
    }
    var data := scanned.value;
    var chk := Polymod.Compute(HrpExpand(hrp) + data);
    if chk != BECH32_CONST && chk != BECH32M_CONST {
      return None;
    }
    return Some(Decoded(hrp, data[..|data| - 6], chk));
  }

  // -- the texts the decoder accepts ----------------------------------------

  predicate GoodHrp(hrp: string) {
    |hrp| >= 1 && Printable(hrp) && Lower(hrp) == hrp
  }

  function TextOf(hrp: string, full: seq<nat>): string
    requires AllBelow(full, 32)
  {
    hrp + "1" + Chars(full)
  }

  /** addr is the lower- or upper-case text of hrp and the symbols full, with checksum chk. */
  predicate Spells(addr: string, hrp: string, full: seq<nat>, chk: bv30) {
    && GoodHrp(hrp)
    && AllBelow(full, 32) && |full| >= 6 && |hrp| + 1 + |full| <= 90
    && Checksum(HrpExpand(hrp) + full) == chk
    && (addr == TextOf(hrp, full) || addr == Upper(TextOf(hrp, full)))
  }

  lemma CharsOfSymbols(s: string)
    requires InCharset(s)
    ensures Chars(SymbolsOf(s)) == s
  {
  }

  lemma SymbolsOfChars(values: seq<nat>)
    requires AllBelow(values, 32)
    ensures InCharset(Chars(values)) && SymbolsOf(Chars(values)) == values
  {
    CharsetDistinct();
    forall i | 0 <= i < |values| ensures Find(CHARSET, Chars(values)[i]) == values[i] {
      FindAt(CHARSET, values[i]);
    }
  }

  lemma TextFacts(hrp: string, full: seq<nat>)
    requires GoodHrp(hrp) && AllBelow(full, 32)
    ensures Printable(TextOf(hrp, full)) && Lower(TextOf(hrp, full)) == TextOf(hrp, full)
    ensures RFind(TextOf(hrp, full), '1') == |hrp|
  {
    hide Find, RFind;
    var t := TextOf(hrp, full);
    forall i | 0 <= i < |t|
      ensures 33 <= t[i] as int <= 126 && LowerChar(t[i]) == t[i] && (i > |hrp| ==> t[i] != '1')
    {
      if i < |hrp| {
        assert Lower(hrp)[i] == LowerChar(hrp[i]);
      } else if i > |hrp| {
        CharsetFacts(full[i - |hrp| - 1]);
      }
    }
    RFindAt(t, '1', |hrp|);
  }

  lemma DecodeSound(addr: string) returns (full: seq<nat>)
    requires DecodeOf(addr).Some?
    ensures var d := DecodeOf(addr).value;
            Spells(addr, d.hrp, full, d.target) && |full| >= 6 && d.data == full[..|full| - 6]
  {
    hide Checksum, HrpExpand, Find, RFind;
    var d := DecodeOf(addr).value;
    var low := Lower(addr);
    var pos := RFind(low, '1');
    full := SymbolsOf(low[pos + 1..]);
    CharsOfSymbols(low[pos + 1..]);
    assert low == TextOf(d.hrp, full);
    LowerLaws(addr);
    assert Lower(low)[..pos] == Lower(d.hrp);
  }

  lemma DecodeComplete(addr: string, hrp: string, full: seq<nat>, chk: bv30)
    requires Spells(addr, hrp, full, chk) && chk in {BECH32_CONST, BECH32M_CONST}
    ensures DecodeOf(addr) == Some(Decoded(hrp, full[..|full| - 6], chk))
  {
    hide Checksum, HrpExpand, Find, RFind;
    var t := TextOf(hrp, full);
    TextFacts(hrp, full);
    LowerLaws(t);
    LowerLaws(addr);
    assert Lower(addr) == t;
    SymbolsOfChars(full);
    assert t[..|hrp|] == hrp && t[|hrp| + 1..] == Chars(full);
  }

  // -- segwit addresses ------------------------------------------------------

  function ConstFor(version: nat): bv30 {
    if version == 0 then BECH32_CONST else BECH32M_CONST
  }

  predicate GoodProgram(version: nat, prog: seq<nat>) {
    && version <= 16
    && AllBelow(prog, 256) && 2 <= |prog| <= 40
    && (version == 0 ==> |prog| == 20 || |prog| == 32)
  }

  function Payload(version: nat, prog: seq<nat>): (data: seq<nat>)
    requires version < 32
    ensures AllBelow(data, 32)
  {
    hide FiveBitForm;
    AllBelowConcat([version], FiveBitForm(prog), 32);
    [version] + FiveBitForm(prog)
  }

  /** The encoder of BIP 173 and BIP 350: version, regrouped program, six checksum symbols. */
  function SegwitSymbols(hrp: string, version: nat, prog: seq<nat>): (full: seq<nat>)
    requires GoodHrp(hrp) && version < 32
    ensures AllBelow(full, 32)
  {
    hide *;
    var data := Payload(version, prog);
    AllBelowConcat(HrpExpand(hrp), data, 32);
    AllBelowConcat(data, ChecksumSymbols(HrpExpand(hrp) + data, ConstFor(version)), 32);
    data + ChecksumSymbols(HrpExpand(hrp) + data, ConstFor(version))
  }

  predicate IsSegwitAddress(addr: string, hrp: string, version: nat, prog: seq<nat>) {
    && GoodHrp(hrp) && GoodProgram(version, prog)
    && var text := TextOf(hrp, SegwitSymbols(hrp, version, prog));
       |text| <= 90 && (addr == text || addr == Upper(text))
  }

  ghost predicate ValidSegwit(addr: string, hrp: string) {
    exists version: nat, prog :: IsSegwitAddress(addr, hrp, version, prog)
  }

  /** Being an encoded address is being a bech32 text of the right payload and constant. */
  lemma SpellsSegwit(addr: string, hrp: string, full: seq<nat>, version: nat, prog: seq<nat>)
    requires version < 32 && |full| >= 6 && full[..|full| - 6] == Payload(version, prog)
    ensures Spells(addr, hrp, full, ConstFor(version)) && GoodProgram(version, prog)
        ==> IsSegwitAddress(addr, hrp, version, prog)
  {
    hide Checksum, HrpExpand, ChecksumSymbols, Upper, Lower, FiveBitForm;
    if Spells(addr, hrp, full, ConstFor(version)) {
      var data, c := Payload(version, prog), full[|full| - 6..];
      assert full == data + c;
      assert HrpExpand(hrp) + full == (HrpExpand(hrp) + data) + c;
      ChecksumSymbolsUnique(HrpExpand(hrp) + data, c, ConstFor(version));
    }
  }

  lemma SegwitSpells(addr: string, hrp: string, version: nat, prog: seq<nat>)
    requires IsSegwitAddress(addr, hrp, version, prog)
    ensures var full := SegwitSymbols(hrp, version, prog);
            Spells(addr, hrp, full, ConstFor(version)) && full[..|full| - 6] == Payload(version, prog)
  {
    hide Checksum, HrpExpand, ChecksumSymbols, Upper, Lower, FiveBitForm;
    var full, data := SegwitSymbols(hrp, version, prog), Payload(version, prog);
    var c := ChecksumSymbols(HrpExpand(hrp) + data, ConstFor(version));
    assert HrpExpand(hrp) + full == (HrpExpand(hrp) + data) + c;
    ChecksumSymbolsUnique(HrpExpand(hrp) + data, c, ConstFor(version));
  }

  /** What decoding an encoded address yields. */
  lemma SegwitDecodes(addr: string, hrp: string, version: nat, prog: seq<nat>)
    ensures IsSegwitAddress(addr, hrp, version, prog) ==>
              DecodeOf(addr) == Some(Decoded(hrp, Payload(version, prog), ConstFor(version)))
  {
    hide DecodeOf, Spells, SegwitSymbols, Payload;
    if IsSegwitAddress(addr, hrp, version, prog) {
      SegwitSpells(addr, hrp, version, prog);
      DecodeComplete(addr, hrp, SegwitSymbols(hrp, version, prog), ConstFor(version));
    }
  }

  /** An address has at most one network prefix, witness version and program. */
  lemma SegwitUnique(addr: string, h: string, v: nat, p: seq<nat>, h': string, v': nat, p': seq<nat>)
    ensures IsSegwitAddress(addr, h, v, p) && IsSegwitAddress(addr, h', v', p') ==> h == h' && v == v' && p == p'
  {
    hide DecodeOf, FiveBitForm, TextOf, SegwitSymbols;
    if IsSegwitAddress(addr, h, v, p) && IsSegwitAddress(addr, h', v', p') {
      SegwitDecodes(addr, h, v, p);
      SegwitDecodes(addr, h', v', p');
      assert Payload(v, p)[0] == Payload(v', p')[0];
      assert Payload(v, p)[1..] == FiveBitForm(p) && Payload(v', p')[1..] == FiveBitForm(p');
      FiveBitFormInjective(p, p');
    }
  }

  /** Encoding and accepting: every good program has an accepted address, in both cases. */
  lemma EncodedIsAccepted(hrp: string, version: nat, prog: seq<nat>)
    requires GoodHrp(hrp) && |hrp| <= 18 && GoodProgram(version, prog)
    ensures var text := TextOf(hrp, SegwitSymbols(hrp, version, prog));
            ValidSegwit(text, hrp) && ValidSegwit(Upper(text), hrp)
  {
    hide TextOf, Upper;
    var text := TextOf(hrp, SegwitSymbols(hrp, version, prog));
    EncodedLength(hrp, version, prog);
    assert IsSegwitAddress(text, hrp, version, prog) && IsSegwitAddress(Upper(text), hrp, version, prog);
  }

  lemma EncodedLength(hrp: string, version: nat, prog: seq<nat>)
    requires GoodHrp(hrp) && |hrp| <= 18 && GoodProgram(version, prog)
    ensures |TextOf(hrp, SegwitSymbols(hrp, version, prog))| <= 90
  {
    hide FiveBitForm, ChecksumSymbols, HrpExpand;
    assert |FiveBitForm(prog)| <= 64;
  }

  method IsValidSegwit(addr: string, expected: string) returns (ok: bool)
    ensures ok <==> ValidSegwit(addr, expected)
    ensures ok <==> SpellsProgram(addr, expected)
  {
    hide SpellsProgram;
    AcceptanceSpelledOut(addr, expected);
    hide DecodeOf, FiveBitForm, IsSegwitAddress, Regroups, Spells;
    forall v: nat, p | IsSegwitAddress(addr, expected, v, p)
      ensures GoodProgram(v, p)
           && DecodeOf(addr) == Some(Decoded(expected, Payload(v, p), ConstFor(v)))
           && Regroups(Payload(v, p)[1..], p, 5, 8)
    {
      SegwitDecodes(addr, expected, v, p);
      SegwitHasProgram(addr, expected, v, p);
    }
    var d := Decode(addr);
    if d.None? || d.value.hrp != expected || d.value.data == [] {
      return false;
    }
    var data := d.value.data;
    var version := data[0];
    if version > 16 {
      return false;
    }
    var prog := Convert(data[1..], 5, 8);
    forall v: nat, p | IsSegwitAddress(addr, expected, v, p)
      ensures version == v && prog == Some(p)
    {
      assert data == Payload(v, p);
      RegroupsUnique(data[1..], p, prog.value);
    }
    if prog.None? || |prog.value| < 2 || |prog.value| > 40 {
      return false;
    }
    if version == 0 && |prog.value| != 20 && |prog.value| != 32 {
      return false;
    }
    if version == 0 && d.value.target != BECH32_CONST {
      return false;
    }
    if version != 0 && d.value.target != BECH32M_CONST {
      return false;
    }
    ghost var full := DecodeSound(addr);
    RegroupsFiveToEight(data[1..], prog.value);
    assert data == Payload(version, prog.value);
    SpellsSegwit(addr, expected, full, version, prog.value);
    return true;
  }

  lemma SegwitHasProgram(addr: string, hrp: string, v: nat, p: seq<nat>)
    requires IsSegwitAddress(addr, hrp, v, p)
    ensures GoodProgram(v, p) && Regroups(Payload(v, p)[1..], p, 5, 8)
  {
    hide FiveBitForm, TextOf, SegwitSymbols;
    assert Payload(v, p)[1..] == FiveBitForm(p);
    RegroupsFiveToEight(FiveBitForm(p), p);
  }

  lemma RegroupsUnique(data: seq<nat>, p: seq<nat>, q: seq<nat>)
    requires Regroups(data, p, 5, 8) && Regroups(data, q, 5, 8)
    ensures p == q
  {
    hide Regroups, FiveBitForm;
    RegroupsFiveToEight(data, p);
    RegroupsFiveToEight(data, q);
    FiveBitFormInjective(p, q);
  }

  /**
    What acceptance means with every constant written out: the symbols full spell addr under
    hrp, carry the version and the zero-padded program, and leave the register at 1 for
    version 0 and at 0x2BC830A3 for every other.
   */
  predicate CarriesProgram(addr: string, hrp: string, full: seq<nat>, version: nat, prog: seq<nat>) {
    && Spells(addr, hrp, full, if version == 0 then 1 else 0x2BC830A3)
    && full[..|full| - 6] == [version] + FiveBitForm(prog)
    && version <= 16 && AllBelow(prog, 256) && 2 <= |prog| <= 40 && (version == 0 ==> |prog| == 20 || |prog| == 32)
    && |addr| <= 90
  }

  ghost predicate SpellsProgram(addr: string, hrp: string) {
    exists full, version: nat, prog :: CarriesProgram(addr, hrp, full, version, prog)
  }

  lemma AcceptanceSpelledOut(addr: string, hrp: string)
    ensures ValidSegwit(addr, hrp) <==> SpellsProgram(addr, hrp)
  {
    hide Spells, FiveBitForm, SegwitSymbols, TextOf, Upper;
    if ValidSegwit(addr, hrp) {
      var version: nat, prog :| IsSegwitAddress(addr, hrp, version, prog);
      SegwitSpells(addr, hrp, version, prog);
      SpelledLength(addr, hrp, SegwitSymbols(hrp, version, prog), ConstFor(version));
      assert CarriesProgram(addr, hrp, SegwitSymbols(hrp, version, prog), version, prog);
    }
    if SpellsProgram(addr, hrp) {
      var full, version: nat, prog :| CarriesProgram(addr, hrp, full, version, prog);
      SpelledLength(addr, hrp, full, ConstFor(version));
      SpellsSegwit(addr, hrp, full, version, prog);
    }
  }

  lemma SpelledLength(addr: string, hrp: string, full: seq<nat>, chk: bv30)
    requires Spells(addr, hrp, full, chk)
    ensures |full| >= 6 && |addr| <= 90
  {
  }
}
