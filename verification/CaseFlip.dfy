/**
  Why burst detection asks for a letter in the prefix: an address under the prefix "0" whose
  six altered characters are its only letters, and which is accepted in both cases.
 */
module CaseFlip {
  import opened Positional
  import opened ConvertBits
  import opened Polymod
  import opened Register
  import opened Text
  import opened Segwit
  import opened Burst

  const ADDRESS := "010qr4qhm9826"
  const FLIPPED := "010QR4QHM9826"
  const SYMBOLS: seq<nat> := [15, 0, 3, 21, 0, 23, 27, 5, 7, 10, 26]

  lemma ExpandedPrefix()
    ensures HrpExpand("0") == [1, 0, 16]
  {
  }

  lemma AddressShift()
    ensures Shift(0x1, 1) == 0x21 && Shift(0x21, 0) == 0x420 && Shift(0x420, 16) == 0x8410
    ensures Shift(0x8410, 15) == 0x10820F && Shift(0x10820F, 0) == 0x21041E0 && Shift(0x21041E0, 3) == 0x39626BB1
    ensures Shift(0x39626BB1, 21) == 0x25BA3EA1 && Shift(0x25BA3EA1, 0) == 0x3B0338FE
    ensures Shift(0x3B0338FE, 23) == 0x12FA00F1 && Shift(0x12FA00F1, 27) == 0x19687A54
    ensures Shift(0x19687A54, 5) == 0xEEC60A2 && Shift(0xEEC60A2, 7) == 0x1E17D462
    ensures Shift(0x1E17D462, 10) == 0x3C237FB2 && Shift(0x3C237FB2, 26) == 0x2BC830A3
  {
  }

  lemma AddressReads()
    ensures Run(1, Words([1, 0, 16, 15, 0, 3, 21, 0])) == 0x3B0338FE
    ensures Run(0x3B0338FE, Words([23, 27, 5, 7])) == 0x1E17D462
    ensures Run(0x1E17D462, Words([10, 26])) == 0x2BC830A3
  {
    hide *;
    AddressShift();
    ReadsEight(0x1, 1, 0, 16, 15, 0, 3, 21, 0);
    ReadsFour(0x3B0338FE, 23, 27, 5, 7);
    ReadsTwo(0x1E17D462, 10, 26);
  }

  /** The checksum of the address is the bech32m constant. */
  lemma AddressChecks()
    ensures Checksum(HrpExpand("0") + SYMBOLS) == BECH32M_CONST
  {
    hide Run, Words, HrpExpand;
    var a: seq<nat>, b: seq<nat>, c: seq<nat> := [1, 0, 16, 15, 0, 3, 21, 0], [23, 27, 5, 7], [10, 26];
    AddressReads();
    RunInParts(1, a, b);
    RunInParts(1, a + b, c);
    ExpandedPrefix();
    assert HrpExpand("0") + SYMBOLS == a + b + c;
  }

  lemma AddressChars()
    ensures AllBelow(SYMBOLS, 32) && Chars(SYMBOLS) == "0qr4qhm9826"
  {
  }

  lemma AddressText()
    ensures AllBelow(SYMBOLS, 32) && ADDRESS == TextOf("0", SYMBOLS) && GoodHrp("0")
  {
    AddressChars();
    hide Chars;
  }

  lemma AddressIsValid()
    ensures ValidSegwit(ADDRESS, "0")
  {
    hide Checksum, HrpExpand, TextOf, FiveBitForm, IsSegwitAddress, GoodHrp;
    var prog: seq<nat> := [0, 234];
    AddressChecks();
    AddressText();
    FormOfTwo(0, 234, 0, 3, 21, 0);
    assert SYMBOLS[..5] == [15] + [0, 3, 21, 0];
    assert SYMBOLS[..5] == Payload(15, prog);
    SpellsSegwit(ADDRESS, "0", SYMBOLS, 15, prog);
  }

  lemma FlippedIsUpper()
    ensures FLIPPED == Upper(ADDRESS) && BurstAt(ADDRESS, FLIPPED, 3, 6) && FLIPPED != ADDRESS
  {
    assert FLIPPED[..3] == ADDRESS[..3] && FLIPPED[9..] == ADDRESS[9..];
    assert FLIPPED[3] != ADDRESS[3];
  }

  /** Six altered characters behind the version character, and still accepted. */
  lemma FlippedBurstAccepted()
    ensures BurstAt(ADDRESS, FLIPPED, 3, 6) && FLIPPED != ADDRESS
    ensures ValidSegwit(ADDRESS, "0") && ValidSegwit(FLIPPED, "0")
  {
    hide ValidSegwit, BurstAt, Upper;
    AddressIsValid();
    FlippedIsUpper();
    BurstAcceptedIff(ADDRESS, FLIPPED, "0", 3, 6);
  }
}
