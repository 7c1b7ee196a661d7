/**
  Base58check: the decoder of argus/faucet/addresses.py against the encoder of
  argus/signetkey.py. SHA-256 is a parameter: any function to 32-byte digests.
 */
module Base58 {
  import opened Options
  import opened Positional
  import opened Text

  const DIGITS_AND_CAPITALS := "123456789ABCDEFGHJKLMNPQRSTUVWXYZ"
  const SMALL_LETTERS := "abcdefghijkmnopqrstuvwxyz"
  const B58_ALPHABET := DIGITS_AND_CAPITALS + SMALL_LETTERS

  type Digest = d: seq<nat> | |d| == 32 && AllBelow(d, 256) witness Zeros(32)

  predicate Ascending(s: string) {
    forall i, j :: 0 <= i < j < |s| ==> s[i] < s[j]
  }

  /** It is enough to compare neighbours. */
  lemma NeighboursAscend(s: string)
    requires forall i :: 0 < i < |s| ==> s[i - 1] < s[i]
    ensures Ascending(s)
  {
    forall i, j | 0 <= i < j < |s| ensures s[i] < s[j] {
      LaterIsGreater(s, i, j);
    }
  }

  lemma {:induction false} LaterIsGreater(s: string, i: nat, j: nat)
    requires i < j < |s| && forall k :: 0 < k < |s| ==> s[k - 1] < s[k]
    ensures s[i] < s[j]
  {
    if i < j - 1 {
      LaterIsGreater(s, i, j - 1);
    }
  }

  lemma CapitalsAscend()
    ensures |DIGITS_AND_CAPITALS| == 33 && Ascending(DIGITS_AND_CAPITALS)
    ensures DIGITS_AND_CAPITALS[0] == '1' && DIGITS_AND_CAPITALS[32] == 'Z'
  {
    hide Ascending;
    NeighboursAscend(DIGITS_AND_CAPITALS);
  }

  lemma SmallLettersAscend()
    ensures |SMALL_LETTERS| == 25 && Ascending(SMALL_LETTERS) && SMALL_LETTERS[0] == 'a'
  {
    hide Ascending;
    NeighboursAscend(SMALL_LETTERS);
  }

  lemma AscendingConcat(s: string, t: string)
    requires Ascending(s) && Ascending(t) && s != [] && t != [] && s[|s| - 1] < t[0]
    ensures Distinct(s + t)
  {
  }

  lemma AlphabetFacts()
    ensures |B58_ALPHABET| == 58 && Distinct(B58_ALPHABET) && B58_ALPHABET[0] == '1'
  {
    hide Ascending, Distinct;
    CapitalsAscend();
    SmallLettersAscend();
    AscendingConcat(DIGITS_AND_CAPITALS, SMALL_LETTERS);
  }

  /** A digit or an ASCII letter that cannot be mistaken for another. */
  predicate Unmistakable(c: char) {
    ('1' <= c <= '9' || 'A' <= c <= 'Z' || 'a' <= c <= 'z') && c != 'I' && c != 'O' && c != 'l'
  }

  /** The alphabet: every unmistakable character, in ASCII order. */
  lemma AlphabetMeaning()
    ensures Ascending(B58_ALPHABET) && |B58_ALPHABET| == 58
    ensures forall c :: c in B58_ALPHABET <==> Unmistakable(c)
  {
    CapitalsAscend();
    SmallLettersAscend();
    assert 'Z' < 'a';
    forall c ensures c in B58_ALPHABET <==> Unmistakable(c) {
      CapitalsAndDigits(c);
      SmallLetters(c);
    }
  }

  lemma CapitalsAndDigits(c: char)
    ensures c in DIGITS_AND_CAPITALS <==> Unmistakable(c) && c <= 'Z'
  {
    hide Unmistakable;
    if c in DIGITS_AND_CAPITALS {
      var i :| 0 <= i < |DIGITS_AND_CAPITALS| && DIGITS_AND_CAPITALS[i] == c;
      CapitalsAscend();
      CapitalAt(i);
    }
    if Unmistakable(c) && c <= 'Z' {
      CapitalOf(c);
    }
  }

  lemma CapitalAt(i: nat)
    requires i < 33
    ensures Unmistakable(DIGITS_AND_CAPITALS[i]) && DIGITS_AND_CAPITALS[i] <= 'Z'
  {
  }

  lemma CapitalOf(c: char)
    requires Unmistakable(c) && c <= 'Z'
    ensures c in DIGITS_AND_CAPITALS
  {
    var i := if c <= '9' then c as int - '1' as int
             else if c < 'I' then c as int - 'A' as int + 9
             else if c < 'O' then c as int - 'A' as int + 8 else c as int - 'A' as int + 7;
    assert DIGITS_AND_CAPITALS[i] == c;
  }

  lemma SmallLetters(c: char)
    ensures c in SMALL_LETTERS <==> Unmistakable(c) && c >= 'a'
  {
    hide Unmistakable;
    if c in SMALL_LETTERS {
      var i :| 0 <= i < |SMALL_LETTERS| && SMALL_LETTERS[i] == c;
      SmallLettersAscend();
      SmallLetterAt(i);
    }
    if Unmistakable(c) && c >= 'a' {
      SmallLetterOf(c);
    }
  }

  lemma SmallLetterAt(i: nat)
    requires i < 25
    ensures Unmistakable(SMALL_LETTERS[i]) && SMALL_LETTERS[i] >= 'a'
  {
  }

  lemma SmallLetterOf(c: char)
    requires Unmistakable(c) && c >= 'a'
    ensures c in SMALL_LETTERS
  {
    var i := if c < 'l' then c as int - 'a' as int else c as int - 'a' as int - 1;
    assert SMALL_LETTERS[i] == c;
  }

  lemma AlphabetIsPrintable(d: nat)
    requires d < |B58_ALPHABET|
    ensures 33 <= B58_ALPHABET[d] as int <= 126
  {
    CapitalsAscend();
    SmallLettersAscend();
    if d < 33 {
      CapitalsPrintable(d);
    } else {
      SmallLettersPrintable(d - 33);
    }
  }

  lemma CapitalsPrintable(d: nat)
    requires d < 33
    ensures 33 <= DIGITS_AND_CAPITALS[d] as int <= 126
  {
  }

  lemma SmallLettersPrintable(d: nat)
    requires d < 25
    ensures 33 <= SMALL_LETTERS[d] as int <= 126
  {
  }

  predicate InAlphabet(s: string) {
    forall i :: 0 <= i < |s| ==> Find(B58_ALPHABET, s[i]) != -1
  }

  function DigitsOf(s: string): (ds: seq<nat>)
    requires InAlphabet(s)
    ensures |ds| == |s|
  {
    seq(|s|, i requires 0 <= i < |s| => Find(B58_ALPHABET, s[i]))
  }

  /** The letter of a base58 digit. */
  function Letter(d: nat): char
    requires d < 58
  {
    AlphabetFacts();
    B58_ALPHABET[d]
  }

  function Letters(ds: seq<nat>): (s: string)
    requires AllBelow(ds, 58)
    ensures |s| == |ds|
  {
    seq(|ds|, i requires 0 <= i < |ds| => Letter(ds[i]))
  }

  lemma DigitsOfLetters(ds: seq<nat>)
    requires AllBelow(ds, 58)
    ensures InAlphabet(Letters(ds)) && DigitsOf(Letters(ds)) == ds
  {
    AlphabetFacts();
    forall i | 0 <= i < |ds| ensures Find(B58_ALPHABET, Letters(ds)[i]) == ds[i] {
      FindAt(B58_ALPHABET, ds[i]);
    }
  }

  lemma LettersOfDigits(s: string)
    requires InAlphabet(s)
    ensures AllBelow(DigitsOf(s), 58) && Letters(DigitsOf(s)) == s
  {
    AlphabetFacts();
  }

  /** The base58 text of a byte string: leading zero bytes become leading ones. */
  function TextOf(bytes: seq<nat>): string {
    Letters(Rebase(bytes, 256, 58))
  }

  /** The byte string of a base58 text, if every character is in the alphabet. */
  function BytesOf(text: string): Option<seq<nat>> {
    if InAlphabet(text) then Some(Rebase(DigitsOf(text), 58, 256)) else None
  }

  /** Texts and byte strings correspond one to one, leading zeros included. */
  lemma TextBytesBijection(text: string, bytes: seq<nat>)
    ensures BytesOf(text) == Some(bytes) <==> AllBelow(bytes, 256) && text == TextOf(bytes)
  {
    if BytesOf(text) == Some(bytes) {
      LettersOfDigits(text);
      RebaseRoundTrip(DigitsOf(text), 58, 256);
    }
    if AllBelow(bytes, 256) && text == TextOf(bytes) {
      DigitsOfLetters(Rebase(bytes, 256, 58));
      RebaseRoundTrip(bytes, 256, 58);
    }
  }

  // -- the checksum ----------------------------------------------------------

  function Tag(sha: seq<nat> -> Digest, payload: seq<nat>): (tag: seq<nat>)
    ensures |tag| == 4 && AllBelow(tag, 256)
  {
    sha(sha(payload))[..4]
  }

  /** The base58check text of a payload. */
  function CheckedText(sha: seq<nat> -> Digest, payload: seq<nat>): string {
    TextOf(payload + Tag(sha, payload))
  }

  /** The encoder: repeated division, then one '1' for each leading zero byte. */
  method Encode(sha: seq<nat> -> Digest, payload: seq<nat>) returns (text: string)
    ensures text == TextOf(payload + sha(sha(payload))[..4]) == CheckedText(sha, payload)
  {
    hide Letter, Letters, MinDigits, Value, TextOf;
    var data := payload + Tag(sha, payload);
    var n := Value(data, 256);
    var out: string := "";
    ghost var digits: seq<nat> := [];
    LettersPadded(0, []);
    while n > 0
      invariant AllBelow(digits, 58) && out == Letters(digits)
      invariant MinDigits(Value(data, 256), 58) == MinDigits(n, 58) + digits
    {
      MinDigitsStep(n, digits);
      LettersPrepend(n % 58, digits);
      var r := n % 58;
      digits := [r] + digits;
      out := [Letter(r)] + out;
      n := n / 58;
    }
    MinDigitsStep(0, digits);
    var pad := LeadingZeros(data);
    text := seq(pad, _ => '1') + out;
    PaddedText(data, digits);
  }

  lemma MinDigitsStep(n: nat, digits: seq<nat>)
    ensures n == 0 ==> MinDigits(n, 58) + digits == digits
    ensures n > 0 ==> MinDigits(n, 58) + digits == MinDigits(n / 58, 58) + ([n % 58] + digits)
  {
  }

  lemma PaddedText(data: seq<nat>, digits: seq<nat>)
    requires digits == MinDigits(Value(data, 256), 58)
    ensures TextOf(data) == seq(LeadingZeros(data), _ => '1') + Letters(digits)
  {
    hide Letters, MinDigits, Value;
    LettersPadded(LeadingZeros(data), digits);
  }

  lemma LettersPrepend(d: nat, ds: seq<nat>)
    requires d < 58 && AllBelow(ds, 58)
    ensures AllBelow([d] + ds, 58)
    ensures Letters([d] + ds) == [Letter(d)] + Letters(ds)
  {
  }

  lemma LettersPadded(pad: nat, ds: seq<nat>)
    requires AllBelow(ds, 58)
    ensures AllBelow(Zeros(pad) + ds, 58) && Letters([]) == []
    ensures Letters(Zeros(pad) + ds) == seq(pad, _ => '1') + Letters(ds)
  {
    AlphabetFacts();
  }

  // -- the decoder -----------------------------------------------------------

  /** int.bit_length. */
  function BitLength(n: nat): nat {
    if n == 0 then 0 else 1 + BitLength(n / 2)
  }

  lemma {:induction false} BitLengthBounds(n: nat)
    requires n > 0
    ensures BitLength(n) > 0 && Pow(2, BitLength(n) - 1) <= n < Pow(2, BitLength(n))
  {
    if n > 1 {
      BitLengthBounds(n / 2);
    }
  }

  lemma {:induction false} PowMono(b: nat, m: nat, n: nat)
    requires b > 0 && m <= n
    ensures Pow(b, m) <= Pow(b, n)
  {
    PowSplit(b, m, n - m);
    MulMono(1, Pow(b, n - m), Pow(b, m));
  }

  /** Cutting a number to (bit_length + 7) // 8 bytes gives its shortest byte string. */
  lemma ShortestBytes(n: nat)
    requires n > 0
    ensures Digits(n, 256, (BitLength(n) + 7) / 8) == MinDigits(n, 256)
  {
    hide Pow, Digits, MinDigits, BitLength;
    var k := (BitLength(n) + 7) / 8;
    BitLengthBounds(n);
    PowMono(2, 8 * (k - 1), BitLength(n) - 1);
    PowMono(2, BitLength(n), 8 * k);
    EightBits();
    PowPow(2, 8, k - 1);
    PowPow(2, 8, k);
    DigitsAreMinimal(n, 256, k);
  }

  lemma EightBits()
    ensures Pow(2, 8) == 256
  {
    assert Pow(2, 4) == 16;
    PowSplit(2, 4, 4);
  }

  function LeadingOnes(s: string): nat {
    if s == [] || s[0] != '1' then 0 else 1 + LeadingOnes(s[1..])
  }

  lemma {:induction false} LeadingOnesAreZeros(s: string)
    requires InAlphabet(s)
    ensures LeadingOnes(s) == LeadingZeros(DigitsOf(s))
  {
    AlphabetFacts();
    if s != [] {
      FindAt(B58_ALPHABET, 0);
      assert DigitsOf(s)[1..] == DigitsOf(s[1..]);
      LeadingOnesAreZeros(s[1..]);
    }
  }

  /**
    text is the base58 text of some 21 bytes that start with version, followed by the first
    four bytes of their double hash.
   */
  ghost predicate HasVersion(sha: seq<nat> -> Digest, text: string, version: nat) {
    exists payload: seq<nat> ::
      && |payload| == 21 && AllBelow(payload, 256) && payload[0] == version
      && text == TextOf(payload + sha(sha(payload))[..4])
  }

  lemma HasVersionOf(sha: seq<nat> -> Digest, text: string, version: nat)
    ensures HasVersion(sha, text, version)
       <==> exists payload: seq<nat> :: |payload| == 21 && AllBelow(payload, 256) && payload[0] == version
                                        && text == CheckedText(sha, payload)
  {
    hide TextOf;
    if HasVersion(sha, text, version) {
      var payload: seq<nat> :| |payload| == 21 && AllBelow(payload, 256) && payload[0] == version
                               && text == TextOf(payload + sha(sha(payload))[..4]);
      assert text == CheckedText(sha, payload);
    }
  }

  /** The character loop: the number a text denotes, or None for a foreign character. */
  method ReadNumber(text: string) returns (r: Option<nat>)
    ensures r == if InAlphabet(text) then Some(Value(DigitsOf(text), 58)) else None
  {
    hide Find, Value;
    var num := 0;
    var n := 0;
    ValueOfNothing();
    while n < |text|
      invariant 0 <= n <= |text| && InAlphabet(text[..n])
      invariant num == Value(DigitsOf(text[..n]), 58)
    {
      var idx := Find(B58_ALPHABET, text[n]);
      if idx == -1 {
        return None;
      }
      assert DigitsOf(text[..n + 1]) == DigitsOf(text[..n]) + [idx];
      ValueSnoc(DigitsOf(text[..n]), idx, 58);
      num := num * 58 + idx;
      n := n + 1;
    }
    assert text[..n] == text;
    return Some(num);
  }

  lemma ValueOfNothing()
    ensures Value([], 58) == 0
  {
  }

  /** Which payload a decoded byte string carries is settled by its length and tag. */
  lemma BytesDecideVersion(sha: seq<nat> -> Digest, text: string, bytes: seq<nat>, version: nat)
    requires BytesOf(text) == Some(bytes)
    ensures HasVersion(sha, text, version)
       <==> |bytes| == 25 && Tag(sha, bytes[..21]) == bytes[21..] && bytes[0] == version
  {
    hide TextOf, BytesOf, Tag, HasVersion;
    HasVersionOf(sha, text, version);
    TextBytesBijection(text, bytes);
    if payload: seq<nat> :|
      && |payload| == 21 && AllBelow(payload, 256) && payload[0] == version
      && text == CheckedText(sha, payload)
    {
      AllBelowConcat(payload, Tag(sha, payload), 256);
      TextBytesBijection(text, payload + Tag(sha, payload));
      assert bytes[..21] == payload && bytes[21..] == Tag(sha, payload);
    }
    if |bytes| == 25 && Tag(sha, bytes[..21]) == bytes[21..] && bytes[0] == version {
      assert bytes == bytes[..21] + Tag(sha, bytes[..21]);
      assert text == CheckedText(sha, bytes[..21]);
    }
  }

  lemma NoBytesNoVersion(sha: seq<nat> -> Digest, text: string, version: nat)
    requires BytesOf(text) == None
    ensures !HasVersion(sha, text, version)
  {
    hide TextOf, BytesOf, Tag, HasVersion;
    HasVersionOf(sha, text, version);
    forall payload: seq<nat> | AllBelow(payload, 256) ensures text != CheckedText(sha, payload) {
      AllBelowConcat(payload, Tag(sha, payload), 256);
      TextBytesBijection(text, payload + Tag(sha, payload));
    }
  }

  method Version(sha: seq<nat> -> Digest, text: string) returns (r: Option<nat>)
    ensures r.Some? ==> HasVersion(sha, text, r.value)
    ensures r.None? ==> forall v :: !HasVersion(sha, text, v)
  {
    hide InAlphabet, DigitsOf, Value, BitLength, Digits, MinDigits, LeadingOnes, BytesOf, HasVersion;
    var number := ReadNumber(text);
    BytesAreRebased(text);
    if number.None? {
      forall v ensures !HasVersion(sha, text, v) {
        NoBytesNoVersion(sha, text, v);
      }
      return None;
    }
    var num := number.value;
    var raw := [];
    if num != 0 {
      ShortestBytes(num);
      raw := Digits(num, 256, (BitLength(num) + 7) / 8);
    } else {
      NoDigitsOfZero();
    }
    var nPad := LeadingOnes(text);
    var combined := Zeros(nPad) + raw;
    forall v: nat
      ensures HasVersion(sha, text, v)
         <==> |combined| == 25 && Tag(sha, combined[..21]) == combined[21..] && combined[0] == v
    {
      BytesDecideVersion(sha, text, combined, v);
    }
    if |combined| != 25 {
      return None;
    }
    var payload, checksum := combined[..21], combined[21..];
    if sha(sha(payload))[..4] != checksum {
      return None;
    }
    return Some(payload[0]);
  }

  lemma NoDigitsOfZero()
    ensures MinDigits(0, 256) == []
  {
  }

  /** How the decoder's pieces make up the bytes of the text. */
  lemma BytesAreRebased(text: string)
    ensures !InAlphabet(text) ==> BytesOf(text) == None
    ensures InAlphabet(text) ==>
      BytesOf(text) == Some(Zeros(LeadingOnes(text)) + MinDigits(Value(DigitsOf(text), 58), 256))
  {
    if InAlphabet(text) {
      LeadingOnesAreZeros(text);
    }
  }

  /**
    Decoding what the encoder wrote finds a version exactly for 21-byte payloads, and it is
    the payload's first byte, also when the payload starts with zero bytes.
   */
  lemma RoundTrip(sha: seq<nat> -> Digest, payload: seq<nat>, version: nat)
    requires AllBelow(payload, 256)
    ensures HasVersion(sha, CheckedText(sha, payload), version) <==> |payload| == 21 && version == payload[0]
  {
    hide CheckedText, HasVersion;
    HasVersionOf(sha, CheckedText(sha, payload), version);
    forall p: seq<nat> | AllBelow(p, 256) && CheckedText(sha, payload) == CheckedText(sha, p)
      ensures p == payload
    {
      CheckedTextInjective(sha, p, payload);
    }
  }

  lemma CheckedTextInjective(sha: seq<nat> -> Digest, p: seq<nat>, q: seq<nat>)
    requires AllBelow(p, 256) && AllBelow(q, 256) && CheckedText(sha, p) == CheckedText(sha, q)
    ensures p == q
  {
    hide TextOf, BytesOf;
    AllBelowConcat(p, Tag(sha, p), 256);
    AllBelowConcat(q, Tag(sha, q), 256);
    TextBytesBijection(CheckedText(sha, p), p + Tag(sha, p));
    TextBytesBijection(CheckedText(sha, p), q + Tag(sha, q));
    assert (p + Tag(sha, p))[..|p|] == p && (q + Tag(sha, q))[..|p|] == q;
  }
}
