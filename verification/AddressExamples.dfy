/**
  Known texts, worked through symbol by symbol: the repository's version 0 address, a version 1
  address and the BIP 173 text that spells every symbol. They fix alphabet, register, constants.
 */
module AddressExamples {
  import opened Options
  import opened Positional
  import opened ConvertBits
  import opened Polymod
  import opened Register
  import opened Text
  import opened Segwit

  /** The register reads values from start to end, and they are written as text. */
  predicate Spelling(start: bv30, values: seq<nat>, text: string, end: bv30) {
    AllBelow(values, 32) && Run(start, Words(values)) == end && Chars(values) == text
  }

  lemma SpellsOn(start: bv30, values: seq<nat>, text: string, middle: bv30, more: seq<nat>, rest: string, end: bv30)
    requires Spelling(start, values, text, middle) && Spelling(middle, more, rest, end)
    ensures Spelling(start, values + more, text + rest, end)
  {
    hide Run, Words;
    AllBelowConcat(values, more, 32);
    RunInParts(start, values, more);
  }

  /** What a text decodes to whose prefix and symbols take the register to a constant. */
  lemma Decodes(hrp: string, start: bv30, full: seq<nat>, text: string, end: bv30)
    requires GoodHrp(hrp) && |full| >= 6 && |hrp| + 1 + |full| <= 90 && (end == 1 || end == 0x2BC830A3)
    requires Run(1, Words(HrpExpand(hrp))) == start && Spelling(start, full, text, end)
    ensures Spells(hrp + "1" + text, hrp, full, end) && Spells(Upper(hrp + "1" + text), hrp, full, end)
    ensures DecodeOf(hrp + "1" + text) == Some(Decoded(hrp, full[..|full| - 6], end))
    ensures DecodeOf(Upper(hrp + "1" + text)) == Some(Decoded(hrp, full[..|full| - 6], end))
  {
    hide Run, Words, HrpExpand, Chars, DecodeOf, Upper;
    RunInParts(1, HrpExpand(hrp), full);
    DecodeComplete(hrp + "1" + text, hrp, full, end);
    DecodeComplete(Upper(hrp + "1" + text), hrp, full, end);
  }

  // -- every symbol once -------------------------------------------------------------------

  lemma EveryShift()
    ensures Shift(0x1, 3) == 0x23 && Shift(0x23, 3) == 0x463 && Shift(0x463, 3) == 0x8C63
    ensures Shift(0x8C63, 3) == 0x118C63 && Shift(0x118C63, 3) == 0x2318C63 && Shift(0x2318C63, 3) == 0x3D5BDBD1
    ensures Shift(0x3D5BDBD1, 0) == 0x4DCBCD9 && Shift(0x4DCBCD9, 1) == 0x3DC7154C
    ensures Shift(0x3DC7154C, 2) == 0x17456F7B && Shift(0x17456F7B, 3) == 0x8D50561
    ensures Shift(0x8D50561, 4) == 0x401B5DE && Shift(0x401B5DE, 5) == 0x266635A8
    ensures Shift(0x266635A8, 6) == 0x3BE80E6A && Shift(0x3BE80E6A, 0) == 0xF9CD266
    ensures Shift(0xF9CD266, 1) == 0x30018CE4 && Shift(0x30018CE4, 2) == 0x1767CDEC
    ensures Shift(0x1767CDEC, 3) == 0xC815781 && Shift(0xC815781, 4) == 0x28DB67B3
    ensures Shift(0x28DB67B3, 5) == 0x2FD98D2C && Shift(0x2FD98D2C, 6) == 0x12BE0710
    ensures Shift(0x12BE0710, 7) == 0x11E88668 && Shift(0x11E88668, 8) == 0x52FED5 && Shift(0x52FED5, 9) == 0xA5FDAA9
    ensures Shift(0xA5FDAA9, 10) == 0x2E301B62 && Shift(0x2E301B62, 11) == 0x2F8CCEDD
    ensures Shift(0x2F8CCEDD, 12) == 0x1816793A && Shift(0x1816793A, 13) == 0x212C0D6A
    ensures Shift(0x212C0D6A, 14) == 0xF95CFFD && Shift(0xF95CFFD, 15) == 0x31223F8A
    ensures Shift(0x31223F8A, 16) == 0x3311A03E && Shift(0x3311A03E, 17) == 0xE08010D
    ensures Shift(0xE08010D, 18) == 0x29BE197 && Shift(0x29BE197, 19) == 0x28166541
    ensures Shift(0x28166541, 20) == 0x3679D37D && Shift(0x3679D37D, 21) == 0x556E704
    ensures Shift(0x556E704, 22) == 0xC8C6EFB && Shift(0xC8C6EFB, 23) == 0x297C48E0
    ensures Shift(0x297C48E0, 24) == 0x1B3C6751 && Shift(0x1B3C6751, 25) == 0x3F0597AC
    ensures Shift(0x3F0597AC, 26) == 0x347F64D1 && Shift(0x347F64D1, 27) == 0x3EEA4538
    ensures Shift(0x3EEA4538, 28) == 0x9853657 && Shift(0x9853657, 29) == 0x2E07D307
    ensures Shift(0x2E07D307, 30) == 0x2975C268 && Shift(0x2975C268, 31) == 0x1A0D3656
    ensures Shift(0x1A0D3656, 27) == 0x192FB74E && Shift(0x192FB74E, 0) == 0x615C3E7
    ensures Shift(0x615C3E7, 0) == 0x1F82A53F && Shift(0x1F82A53F, 0) == 0xE8D5418
    ensures Shift(0xE8D5418, 6) == 0x12314323 && Shift(0x12314323, 14) == 0x1
  {
  }

  lemma PrefixAbcdef()
    ensures HrpExpand("abcdef") == [3, 3, 3, 3, 3, 3, 0, 1] + [2, 3, 4, 5] + [6] && GoodHrp("abcdef")
  {
  }

  lemma AfterAbcdef()
    ensures Run(1, Words(HrpExpand("abcdef"))) == 0x3BE80E6A
  {
    hide Run, Words, Shift, HrpExpand;
    PrefixAbcdef();
    EveryShift();
    ReadsEight(0x1, 3, 3, 3, 3, 3, 3, 0, 1);
    ReadsFour(0x3DC7154C, 2, 3, 4, 5);
    ReadsOne(0x266635A8, 6);
    RunInParts(1, [3, 3, 3, 3, 3, 3, 0, 1], [2, 3, 4, 5]);
    RunInParts(1, [3, 3, 3, 3, 3, 3, 0, 1] + [2, 3, 4, 5], [6]);
  }

  lemma Every0()
    ensures Run(0x3BE80E6A, Words([0, 1, 2, 3, 4, 5, 6, 7])) == 0x11E88668
  {
    hide *;
    EveryShift();
    ReadsEight(0x3BE80E6A, 0, 1, 2, 3, 4, 5, 6, 7);
  }

  lemma Every1()
    ensures Run(0x11E88668, Words([8, 9, 10, 11, 12, 13, 14, 15])) == 0x31223F8A
  {
    hide *;
    EveryShift();
    ReadsEight(0x11E88668, 8, 9, 10, 11, 12, 13, 14, 15);
  }

  lemma Every2()
    ensures Run(0x31223F8A, Words([16, 17, 18, 19, 20, 21, 22, 23])) == 0x297C48E0
  {
    hide *;
    EveryShift();
    ReadsEight(0x31223F8A, 16, 17, 18, 19, 20, 21, 22, 23);
  }

  lemma Every3()
    ensures Run(0x297C48E0, Words([24, 25, 26, 27, 28, 29, 30, 31])) == 0x1A0D3656
  {
    hide *;
    EveryShift();
    ReadsEight(0x297C48E0, 24, 25, 26, 27, 28, 29, 30, 31);
  }

  lemma Every4()
    ensures Run(0x1A0D3656, Words([27, 0, 0, 0, 6, 14])) == 0x1
  {
    hide Shift, Run, Words;
    EveryShift();
    ReadsFour(0x1A0D3656, 27, 0, 0, 0);
    ReadsTwo(0xE8D5418, 6, 14);
    assert [27, 0, 0, 0, 6, 14] == [27, 0, 0, 0] + [6, 14];
    RunInParts(0x1A0D3656, [27, 0, 0, 0], [6, 14]);
  }

  lemma EveryChars1()
    ensures Chars([0, 1, 2, 3, 4, 5, 6, 7]) == "qpzry9x8"
    ensures Chars([8, 9, 10, 11, 12, 13, 14, 15]) == "gf2tvdw0"
    ensures Chars([16, 17, 18, 19, 20, 21, 22, 23]) == "s3jn54kh"
  {
  }

  lemma EveryChars2()
    ensures Chars([24, 25, 26, 27, 28, 29, 30, 31]) == "ce6mua7l"
    ensures Chars([27, 0, 0, 0, 6, 14]) == "mqqqxw"
  {
  }

  const EVERY_TEXT := "qpzry9x8" + "gf2tvdw0" + "s3jn54kh" + "ce6mua7l" + "mqqqxw"
  const EVERY_SYMBOL: seq<nat> :=
    [0, 1, 2, 3, 4, 5, 6, 7] + [8, 9, 10, 11, 12, 13, 14, 15] + [16, 17, 18, 19, 20, 21, 22, 23]
    + [24, 25, 26, 27, 28, 29, 30, 31] + [27, 0, 0, 0, 6, 14]

  lemma EverySpelled()
    ensures Spelling(0x3BE80E6A, EVERY_SYMBOL, EVERY_TEXT, 0x1)
  {
    hide Run, Words, Chars;
    EveryChars1();
    EveryChars2();
    var a: seq<nat>, t := [0, 1, 2, 3, 4, 5, 6, 7], "qpzry9x8";
    Every0();
    Every1();
    SpellsOn(0x3BE80E6A, a, t, 0x11E88668, [8, 9, 10, 11, 12, 13, 14, 15], "gf2tvdw0", 0x31223F8A);
    a, t := a + [8, 9, 10, 11, 12, 13, 14, 15], t + "gf2tvdw0";
    Every2();
    SpellsOn(0x3BE80E6A, a, t, 0x31223F8A, [16, 17, 18, 19, 20, 21, 22, 23], "s3jn54kh", 0x297C48E0);
    a, t := a + [16, 17, 18, 19, 20, 21, 22, 23], t + "s3jn54kh";
    Every3();
    SpellsOn(0x3BE80E6A, a, t, 0x297C48E0, [24, 25, 26, 27, 28, 29, 30, 31], "ce6mua7l", 0x1A0D3656);
    a, t := a + [24, 25, 26, 27, 28, 29, 30, 31], t + "ce6mua7l";
    Every4();
    SpellsOn(0x3BE80E6A, a, t, 0x1A0D3656, [27, 0, 0, 0, 6, 14], "mqqqxw", 0x1);
    a, t := a + [27, 0, 0, 0, 6, 14], t + "mqqqxw";
  }

  lemma EveryValue()
    ensures EVERY_SYMBOL[..32] == seq(32, i => i) && |EVERY_SYMBOL| == 38
  {
  }

  /** The text of BIP 173 that spells 0 to 31 decodes to them under constant 1, in either case. */
  lemma EverySymbolDecodes()
    ensures DecodeOf("abcdef" + "1" + EVERY_TEXT) == Some(Decoded("abcdef", seq(32, i => i), 1))
    ensures DecodeOf(Upper("abcdef" + "1" + EVERY_TEXT)) == Some(Decoded("abcdef", seq(32, i => i), 1))
  {
    hide Run, Words, HrpExpand, Chars, DecodeOf, Spells, Upper, Spelling, GoodHrp;
    PrefixAbcdef();
    AfterAbcdef();
    EverySpelled();
    EveryValue();
    Decodes("abcdef", 0x3BE80E6A, EVERY_SYMBOL, EVERY_TEXT, 1);
  }

  // -- testnet addresses -------------------------------------------------------------------

  lemma P2wpkhShift()
    ensures Shift(0x1, 3) == 0x23 && Shift(0x23, 3) == 0x463 && Shift(0x463, 0) == 0x8C60
    ensures Shift(0x8C60, 20) == 0x118C14 && Shift(0x118C14, 2) == 0x2318282 && Shift(0x2318282, 0) == 0x3D5A07F2
    ensures Shift(0x3D5A07F2, 0) == 0x4E738B9 && Shift(0x4E738B9, 0) == 0x3AB7994D
    ensures Shift(0x3AB7994D, 0) == 0x246E3686 && Shift(0x246E3686, 16) == 0x1823C0E
    ensures Shift(0x1823C0E, 4) == 0x304781C4 && Shift(0x304781C4, 0) == 0x1FA669EE
    ensures Shift(0x1FA669EE, 24) == 0xA14CE20 && Shift(0xA14CE20, 4) == 0x27528A4C
    ensures Shift(0x27528A4C, 0) == 0x1D7FF2EC && Shift(0x1D7FF2EC, 20) == 0x2A4DF9DE
    ensures Shift(0x2A4DF9DE, 3) == 0x6601738 && Shift(0x6601738, 0) == 0x11383EDF
    ensures Shift(0x11383EDF, 14) == 0x1A45E833 && Shift(0x1A45E833, 2) == 0x10347BF7
    ensures Shift(0x10347BF7, 0) == 0x3BCD4D3D && Shift(0x3BCD4D3D, 9) == 0xB34B88F
    ensures Shift(0xB34B88F, 1) == 0x35C5FA9 && Shift(0x35C5FA9, 8) == 0x10E1A29A
    ensures Shift(0x10E1A29A, 5) == 0x21766098 && Shift(0x21766098, 16) == 0x4D871A3
    ensures Shift(0x4D871A3, 24) == 0x3D5EBA15 && Shift(0x3D5EBA15, 3) == 0x470845A
    ensures Shift(0x470845A, 8) == 0x28400525 && Shift(0x28400525, 14) == 0x3CB5DFE7
    ensures Shift(0x3CB5DFE7, 1) == 0x391C3A18 && Shift(0x391C3A18, 28) == 0x2A700B88
    ensures Shift(0x2A700B88, 8) == 0x1DE5DF3 && Shift(0x1DE5DF3, 1) == 0x3BCBBE61
    ensures Shift(0x3BCBBE61, 2) == 0xBEAD304 && Shift(0xBEAD304, 4) == 0x18912ECC
    ensures Shift(0x18912ECC, 16) == 0x31C6F3B7 && Shift(0x31C6F3B7, 19) == 0x2F88279D
    ensures Shift(0x2F88279D, 31) == 0x188B5129 && Shift(0x188B5129, 10) == 0x32890F0D
    ensures Shift(0x32890F0D, 20) == 0x3D1DE768 && Shift(0x3D1DE768, 2) == 0xC1B2BFB
    ensures Shift(0xC1B2BFB, 14) == 0x3B94E8F9 && Shift(0x3B94E8F9, 7) == 0x1
  {
  }

  lemma PrefixTb()
    ensures HrpExpand("tb") == [3, 3, 0, 20] + [2] && GoodHrp("tb")
  {
  }

  lemma AfterTb()
    ensures Run(1, Words(HrpExpand("tb"))) == 0x2318282 && GoodHrp("tb")
  {
    hide Run, Words, Shift, HrpExpand;
    PrefixTb();
    P2wpkhShift();
    ReadsFour(0x1, 3, 3, 0, 20);
    ReadsOne(0x118C14, 2);
    RunInParts(1, [3, 3, 0, 20], [2]);
  }

  lemma P2wpkh0()
    ensures Run(0x2318282, Words([0])) == 0x3D5A07F2
  {
    hide *;
    P2wpkhShift();
    ReadsOne(0x2318282, 0);
  }

  lemma P2wpkh1()
    ensures Run(0x3D5A07F2, Words([0, 0, 0, 16, 4, 0, 24, 4])) == 0x27528A4C
  {
    hide *;
    P2wpkhShift();
    ReadsEight(0x3D5A07F2, 0, 0, 0, 16, 4, 0, 24, 4);
  }

  lemma P2wpkh2()
    ensures Run(0x27528A4C, Words([0, 20, 3, 0, 14, 2, 0, 9])) == 0xB34B88F
  {
    hide *;
    P2wpkhShift();
    ReadsEight(0x27528A4C, 0, 20, 3, 0, 14, 2, 0, 9);
  }

  lemma P2wpkh3()
    ensures Run(0xB34B88F, Words([1, 8, 5, 16, 24, 3, 8, 14])) == 0x3CB5DFE7
  {
    hide *;
    P2wpkhShift();
    ReadsEight(0xB34B88F, 1, 8, 5, 16, 24, 3, 8, 14);
  }

  lemma P2wpkh4()
    ensures Run(0x3CB5DFE7, Words([1, 28, 8, 1, 2, 4, 16, 19])) == 0x2F88279D
  {
    hide *;
    P2wpkhShift();
    ReadsEight(0x3CB5DFE7, 1, 28, 8, 1, 2, 4, 16, 19);
  }

  lemma P2wpkh5()
    ensures Run(0x2F88279D, Words([31, 10, 20, 2, 14, 7])) == 0x1
  {
    hide Shift, Run, Words;
    P2wpkhShift();
    ReadsFour(0x2F88279D, 31, 10, 20, 2);
    ReadsTwo(0xC1B2BFB, 14, 7);
    assert [31, 10, 20, 2, 14, 7] == [31, 10, 20, 2] + [14, 7];
    RunInParts(0x2F88279D, [31, 10, 20, 2], [14, 7]);
  }

  lemma P2wpkhChars1()
    ensures Chars([0]) == "q"
    ensures Chars([0, 0, 0, 16, 4, 0, 24, 4]) == "qqqsyqcy"
    ensures Chars([0, 20, 3, 0, 14, 2, 0, 9]) == "q5rqwzqf"
  {
  }

  lemma P2wpkhChars2()
    ensures Chars([1, 8, 5, 16, 24, 3, 8, 14]) == "pg9scrgw"
    ensures Chars([1, 28, 8, 1, 2, 4, 16, 19]) == "pugpzysn"
    ensures Chars([31, 10, 20, 2, 14, 7]) == "l25zw8"
  {
  }

  const P2WPKH_TEXT := "q" + "qqqsyqcy" + "q5rqwzqf" + "pg9scrgw" + "pugpzysn" + "l25zw8"
  const P2WPKH_SYMBOLS: seq<nat> :=
    [0] + [0, 0, 0, 16, 4, 0, 24, 4] + [0, 20, 3, 0, 14, 2, 0, 9] + [1, 8, 5, 16, 24, 3, 8, 14]
    + [1, 28, 8, 1, 2, 4, 16, 19] + [31, 10, 20, 2, 14, 7]

  lemma P2wpkhSpelled()
    ensures Spelling(0x2318282, P2WPKH_SYMBOLS, P2WPKH_TEXT, 0x1)
  {
    hide Run, Words, Chars;
    P2wpkhChars1();
    P2wpkhChars2();
    var a: seq<nat>, t := [0], "q";
    P2wpkh0();
    P2wpkh1();
    SpellsOn(0x2318282, a, t, 0x3D5A07F2, [0, 0, 0, 16, 4, 0, 24, 4], "qqqsyqcy", 0x27528A4C);
    a, t := a + [0, 0, 0, 16, 4, 0, 24, 4], t + "qqqsyqcy";
    P2wpkh2();
    SpellsOn(0x2318282, a, t, 0x27528A4C, [0, 20, 3, 0, 14, 2, 0, 9], "q5rqwzqf", 0xB34B88F);
    a, t := a + [0, 20, 3, 0, 14, 2, 0, 9], t + "q5rqwzqf";
    P2wpkh3();
    SpellsOn(0x2318282, a, t, 0xB34B88F, [1, 8, 5, 16, 24, 3, 8, 14], "pg9scrgw", 0x3CB5DFE7);
    a, t := a + [1, 8, 5, 16, 24, 3, 8, 14], t + "pg9scrgw";
    P2wpkh4();
    SpellsOn(0x2318282, a, t, 0x3CB5DFE7, [1, 28, 8, 1, 2, 4, 16, 19], "pugpzysn", 0x2F88279D);
    a, t := a + [1, 28, 8, 1, 2, 4, 16, 19], t + "pugpzysn";
    P2wpkh5();
    SpellsOn(0x2318282, a, t, 0x2F88279D, [31, 10, 20, 2, 14, 7], "l25zw8", 0x1);
    a, t := a + [31, 10, 20, 2, 14, 7], t + "l25zw8";
  }

  /** The bytes 0 to 19. */
  const TWENTY_BYTES: seq<nat> :=
    [0, 1, 2, 3, 4] + [5, 6, 7, 8, 9] + [10, 11, 12, 13, 14] + [15, 16, 17, 18, 19]

  lemma TwentyBytesForm()
    ensures FiveBitForm(TWENTY_BYTES)
         == [0, 0, 0, 16, 4, 0, 24, 4] + [0, 20, 3, 0, 14, 2, 0, 9] + [1, 8, 5, 16, 24, 3, 8, 14]
         + [1, 28, 8, 1, 2, 4, 16, 19]
  {
    hide FiveBitForm;
    FormOfFive(0, 1, 2, 3, 4, 0, 0, 0, 16, 4, 0, 24, 4);
    FormOfFive(5, 6, 7, 8, 9, 0, 20, 3, 0, 14, 2, 0, 9);
    FormOfFive(10, 11, 12, 13, 14, 1, 8, 5, 16, 24, 3, 8, 14);
    FormOfFive(15, 16, 17, 18, 19, 1, 28, 8, 1, 2, 4, 16, 19);
    var p: seq<nat> := [0, 1, 2, 3, 4];
    FiveBitFormConcat(p, [5, 6, 7, 8, 9]);
    p := p + [5, 6, 7, 8, 9];
    FiveBitFormConcat(p, [10, 11, 12, 13, 14]);
    p := p + [10, 11, 12, 13, 14];
    FiveBitFormConcat(p, [15, 16, 17, 18, 19]);
    p := p + [15, 16, 17, 18, 19];
  }

  /** tb1qqqqsyqcyq5rqwzqfpg9scrgwpugpzysnl25zw8: version 0, constant 1, twenty bytes. */
  lemma P2wpkhAccepted()
    ensures ValidSegwit("tb" + "1" + P2WPKH_TEXT, "tb")
    ensures DecodeOf("tb" + "1" + P2WPKH_TEXT) == Some(Decoded("tb", [0] + FiveBitForm(TWENTY_BYTES), 1))
  {
    hide Run, Words, HrpExpand, Chars, DecodeOf, Spells, Upper, Spelling, GoodHrp, FiveBitForm, ValidSegwit;
    var address := "tb" + "1" + P2WPKH_TEXT;
    AfterTb();
    P2wpkhSpelled();
    Decodes("tb", 0x2318282, P2WPKH_SYMBOLS, P2WPKH_TEXT, 1);
    TwentyBytesForm();
    assert P2WPKH_SYMBOLS[..33] == [0] + FiveBitForm(TWENTY_BYTES);
    assert CarriesProgram(address, "tb", P2WPKH_SYMBOLS, 0, TWENTY_BYTES);
    AcceptanceSpelledOut(address, "tb");
  }

  lemma Version1Shift()
    ensures Shift(0x2318282, 1) == 0x3D5A07F3 && Shift(0x3D5A07F3, 0) == 0x4E73899
    ensures Shift(0x4E73899, 0) == 0x3AB79D4D && Shift(0x3AB79D4D, 0) == 0x246EB686
    ensures Shift(0x246EB686, 16) == 0x1923C0E && Shift(0x1923C0E, 0) == 0x324781C0
    ensures Shift(0x324781C0, 25) == 0x24CC3EC5 && Shift(0x24CC3EC5, 21) == 0x15C3346B
    ensures Shift(0x15C3346B, 16) == 0x237430C0 && Shift(0x237430C0, 14) == 0x3FF82D0F
    ensures Shift(0x3FF82D0F, 8) == 0x2BC830A3
  {
  }

  lemma Version1Part0()
    ensures Run(0x2318282, Words([1])) == 0x3D5A07F3
  {
    hide *;
    Version1Shift();
    ReadsOne(0x2318282, 1);
  }

  lemma Version1Part1()
    ensures Run(0x3D5A07F3, Words([0, 0, 0, 16])) == 0x1923C0E
  {
    hide *;
    Version1Shift();
    ReadsFour(0x3D5A07F3, 0, 0, 0, 16);
  }

  lemma Version1Part2()
    ensures Run(0x1923C0E, Words([0, 25, 21, 16, 14, 8])) == 0x2BC830A3
  {
    hide Shift, Run, Words;
    Version1Shift();
    ReadsFour(0x1923C0E, 0, 25, 21, 16);
    ReadsTwo(0x237430C0, 14, 8);
    assert [0, 25, 21, 16, 14, 8] == [0, 25, 21, 16] + [14, 8];
    RunInParts(0x1923C0E, [0, 25, 21, 16], [14, 8]);
  }

  lemma Version1Chars1()
    ensures Chars([1]) == "p"
    ensures Chars([0, 0, 0, 16]) == "qqqs"
    ensures Chars([0, 25, 21, 16, 14, 8]) == "qe4swg"
  {
  }

  const VERSION1_TEXT := "p" + "qqqs" + "qe4swg"
  const VERSION1_SYMBOLS: seq<nat> :=
    [1] + [0, 0, 0, 16] + [0, 25, 21, 16, 14, 8]

  lemma Version1Spelled()
    ensures Spelling(0x2318282, VERSION1_SYMBOLS, VERSION1_TEXT, 0x2BC830A3)
  {
    hide Run, Words, Chars;
    Version1Chars1();
    var a: seq<nat>, t := [1], "p";
    Version1Part0();
    Version1Part1();
    SpellsOn(0x2318282, a, t, 0x3D5A07F3, [0, 0, 0, 16], "qqqs", 0x1923C0E);
    a, t := a + [0, 0, 0, 16], t + "qqqs";
    Version1Part2();
    SpellsOn(0x2318282, a, t, 0x1923C0E, [0, 25, 21, 16, 14, 8], "qe4swg", 0x2BC830A3);
    a, t := a + [0, 25, 21, 16, 14, 8], t + "qe4swg";
  }

  /** The two bytes 0 and 1 as version 1, tb1pqqqsqe4swg: the other constant. */
  lemma Version1Accepted()
    ensures ValidSegwit("tb" + "1" + VERSION1_TEXT, "tb")
    ensures DecodeOf("tb" + "1" + VERSION1_TEXT) == Some(Decoded("tb", [1] + FiveBitForm([0, 1]), 0x2BC830A3))
  {
    hide Run, Words, HrpExpand, Chars, DecodeOf, Spells, Upper, Spelling, GoodHrp, FiveBitForm, ValidSegwit;
    var address := "tb" + "1" + VERSION1_TEXT;
    AfterTb();
    Version1Spelled();
    Decodes("tb", 0x2318282, VERSION1_SYMBOLS, VERSION1_TEXT, 0x2BC830A3);
    FormOfTwo(0, 1, 0, 0, 0, 16);
    assert VERSION1_SYMBOLS[..5] == [1] + FiveBitForm([0, 1]);
    assert CarriesProgram(address, "tb", VERSION1_SYMBOLS, 1, [0, 1]);
    AcceptanceSpelledOut(address, "tb");
  }
}
