/**
  The browser's proof-of-work worker against the server: the byte-wise target comparison
  and the naming of solutions (faucet-pow-worker.js, argus/faucet/pow.py).
 */
module PowTarget {
  import opened Options
  import opened Positional

  // -- numerals ------------------------------------------------------------------

  function DigitChar(d: nat): char
    requires d < 16
  {
    if d < 10 then ('0' as int + d) as char else ('a' as int + d - 10) as char
  }

  predicate IsDigit(c: char) {
    '0' <= c <= '9' || 'a' <= c <= 'f'
  }

  /** parseInt of one lower-case hexadecimal digit. */
  function DigitValue(c: char): (d: nat)
    requires IsDigit(c)
    ensures d < 16 && DigitChar(d) == c
  {
    if c <= '9' then c as int - '0' as int else c as int - 'a' as int + 10
  }

  predicate IsHex(s: string) {
    forall i :: 0 <= i < |s| ==> IsDigit(s[i])
  }

  function Chars(ds: seq<nat>): (s: string)
    requires AllBelow(ds, 16)
    ensures |s| == |ds| && IsHex(s)
  {
    seq(|ds|, i requires 0 <= i < |ds| => DigitChar(ds[i]))
  }

  function DigitValues(s: string): (ds: seq<nat>)
    requires IsHex(s)
    ensures |ds| == |s| && AllBelow(ds, 16)
  {
    seq(|s|, i requires 0 <= i < |s| => DigitValue(s[i]))
  }

  lemma DigitValuesOfChars(ds: seq<nat>)
    requires AllBelow(ds, 16)
    ensures DigitValues(Chars(ds)) == ds
  {
  }

  lemma DigitValuesConcat(s: string, t: string)
    requires IsHex(s) && IsHex(t)
    ensures IsHex(s + t) && DigitValues(s + t) == DigitValues(s) + DigitValues(t)
  {
  }

  /** format(v, "x") for base 16, the decimal form for base 10. */
  function Numeral(v: nat, b: nat): (s: string)
    requires 2 <= b <= 16
    ensures s != [] && IsHex(s)
  {
    if v == 0 then "0"
    else
      MinDigitsFacts(v, b);
      Chars(MinDigits(v, b))
  }

  /** Reading a numeral back, as the server does for the target in the token. */
  lemma NumeralValue(v: nat, b: nat)
    requires 2 <= b <= 16
    ensures Value(DigitValues(Numeral(v, b)), b) == v
  {
    if v == 0 {
      assert DigitValues("0") == [] + [0];
      ValueSnoc([], 0, b);
    } else {
      MinDigitsFacts(v, b);
      DigitValuesOfChars(MinDigits(v, b));
    }
  }

  lemma {:induction false} MinDigitsLength(v: nat, b: nat, n: nat)
    requires b >= 2 && v < Pow(b, n)
    ensures |MinDigits(v, b)| <= n
    decreases n
  {
    if v > 0 && n > 0 {
      DivBelow(v, b, Pow(b, n - 1));
      MinDigitsLength(v / b, b, n - 1);
    }
  }

  lemma NumeralLength(v: nat, b: nat, n: nat)
    requires 2 <= b <= 16 && v < Pow(b, n) && n > 0
    ensures |Numeral(v, b)| <= n
  {
    MinDigitsLength(v, b, n);
  }

  // -- the target as bytes ---------------------------------------------------------

  const TARGET_BYTES: nat := 32

  function Padding(n: nat): (s: string)
    ensures |s| == n && IsHex(s) && forall i :: 0 <= i < n ==> s[i] == '0'
  {
    seq(n, _ => '0')
  }

  /** padStart(n, '0'). */
  function PadStart(s: string, n: nat): (t: string)
    ensures |t| >= n && (|s| <= n ==> |t| == n)
    ensures IsHex(s) ==> IsHex(t)
  {
    Padding(if |s| < n then n - |s| else 0) + s
  }

  lemma PaddingKeepsValue(s: string, n: nat)
    requires IsHex(s)
    ensures Value(DigitValues(PadStart(s, n)), 16) == Value(DigitValues(s), 16)
  {
    var z := Padding(if |s| < n then n - |s| else 0);
    DigitValuesConcat(z, s);
    assert DigitValues(z) == Zeros(|z|);
    ValueZeros(|z|, 16);
    ValueConcat(DigitValues(z), DigitValues(s), 16);
  }

  /** Reading the digits two by two gives the same number in base 256. */
  lemma {:induction false} PairsValue(bytes: seq<nat>, ds: seq<nat>)
    requires |ds| == 2 * |bytes|
    requires forall i :: 0 <= i < |bytes| ==> bytes[i] == ds[2 * i] * 16 + ds[2 * i + 1]
    ensures Value(bytes, 256) == Value(ds, 16)
  {
    if bytes != [] {
      var n := |bytes| - 1;
      PairsValue(bytes[..n], ds[..2 * n]);
      var head, high, low := ds[..2 * n], ds[2 * n], ds[2 * n + 1];
      assert ds == head + [high] + [low];
      ValueSnoc(head + [high], low, 16);
      ValueSnoc(head, high, 16);
    }
  }

  method HexToBytes32(hex: string) returns (out: array<nat>)
    requires IsHex(hex)
    ensures fresh(out) && out.Length == TARGET_BYTES && AllBelow(out[..], 256)
    ensures Value(out[..], 256) == Value(DigitValues(PadStart(hex, 64)[..64]), 16)
  {
    var padded := PadStart(hex, 64);
    out := new nat[32];
    for i := 0 to 32
      invariant forall j :: 0 <= j < i ==>
                  out[j] == DigitValue(padded[2 * j]) * 16 + DigitValue(padded[2 * j + 1]) && out[j] < 256
    {
      out[i] := DigitValue(padded[2 * i]) * 16 + DigitValue(padded[2 * i + 1]);
    }
    PairsValue(out[..], DigitValues(padded[..64]));
  }

  // -- the comparison ---------------------------------------------------------------

  /** The first differing byte decides a big-endian comparison. */
  lemma FirstDifferenceDecides(xs: seq<nat>, ys: seq<nat>, i: nat)
    requires |xs| == |ys| && i < |xs| && AllBelow(xs, 256) && AllBelow(ys, 256)
    requires xs[..i] == ys[..i] && xs[i] < ys[i]
    ensures Value(xs, 256) < Value(ys, 256)
  {
    hide Pow, Value;
    var rest := |xs| - i - 1;
    assert xs == (xs[..i] + [xs[i]]) + xs[i + 1..] && ys == (ys[..i] + [ys[i]]) + ys[i + 1..];
    ValueConcat(xs[..i] + [xs[i]], xs[i + 1..], 256);
    ValueConcat(ys[..i] + [ys[i]], ys[i + 1..], 256);
    ValueBound(xs[i + 1..], 256);
    ValueSnoc(xs[..i], xs[i], 256);
    ValueSnoc(ys[..i], ys[i], 256);
    var x, y, p := Value(xs[..i] + [xs[i]], 256), Value(ys[..i] + [ys[i]], 256), Pow(256, rest);
    MulMono(x + 1, y, p);
    Distribute(x, 1, p);
  }

  /** The worker's byte-wise test is the numeric comparison, strict at equality. */
  method LessThanTarget(digest: array<nat>, target: array<nat>) returns (less: bool)
    requires digest.Length == TARGET_BYTES && target.Length == TARGET_BYTES
    requires AllBelow(digest[..], 256) && AllBelow(target[..], 256)
    ensures less <==> Value(digest[..], 256) < Value(target[..], 256)
  {
    hide Value;
    for i := 0 to 32
      invariant digest[..i] == target[..i]
    {
      if digest[i] != target[i] {
        if digest[i] < target[i] {
          FirstDifferenceDecides(digest[..], target[..], i);
        } else {
          FirstDifferenceDecides(target[..], digest[..], i);
        }
        return digest[i] < target[i];
      }
    }
    assert digest[..] == digest[..32] && target[..] == target[..32];
    return false;
  }

  /** int.from_bytes(digest, "big") < target, the server's test. */
  predicate ServerWins(digest: seq<nat>, target: nat) {
    Value(digest, 256) < target
  }

  /** The bytes the worker compares with denote the server's target. */
  lemma PaddedNumeral(target: nat)
    requires target < Pow(256, 32)
    ensures |PadStart(Numeral(target, 16), 64)| == 64
    ensures Value(DigitValues(PadStart(Numeral(target, 16), 64)), 16) == target
  {
    hide Pow, Value;
    SixteenSquared();
    PowPow(16, 2, 32);
    NumeralLength(target, 16, 64);
    PaddingKeepsValue(Numeral(target, 16), 64);
    NumeralValue(target, 16);
  }

  lemma SixteenSquared()
    ensures Pow(16, 2) == 256
  {
    assert Pow(16, 1) == 16;
  }

  // -- solution names -----------------------------------------------------------------

  const MAX_SOLUTION_LEN := 80

  function SolutionName(worker: nat, counter: nat): string {
    Numeral(worker, 10) + "-" + Numeral(counter, 10)
  }

  lemma NumeralInjective(v: nat, w: nat)
    requires Numeral(v, 10) == Numeral(w, 10)
    ensures v == w
  {
    NumeralValue(v, 10);
    NumeralValue(w, 10);
  }

  lemma SameBeforeDash(s: string, t: string, x: string, y: string)
    requires IsHex(s) && IsHex(t) && s + "-" + x == t + "-" + y
    ensures s == t && x == y
  {
    var all := s + "-" + x;
    assert all[|s|] == '-' && all[|t|] == '-';
    assert forall i :: 0 <= i < |s| ==> all[i] == s[i];
    assert forall i :: 0 <= i < |t| ==> all[i] == (t + "-" + y)[i] == t[i];
    assert all[..|s|] == s && all[..|t|] == t;
    assert all[|s| + 1..] == x && (t + "-" + y)[|t| + 1..] == y;
  }

  /** Parallel workers never try the same solution twice. */
  lemma SolutionNamesDistinct(worker: nat, counter: nat, worker': nat, counter': nat)
    requires SolutionName(worker, counter) == SolutionName(worker', counter')
    ensures worker == worker' && counter == counter'
  {
    hide Numeral;
    SameBeforeDash(Numeral(worker, 10), Numeral(worker', 10), Numeral(counter, 10), Numeral(counter', 10));
    NumeralInjective(worker, worker');
    NumeralInjective(counter, counter');
  }

  /** 2^53, from where adding one to a JavaScript number changes nothing. */
  const LAST_COUNTER := 9007199254740992

  /** counter++ on a JavaScript number. */
  function Increment(counter: nat): nat {
    if counter < LAST_COUNTER then counter + 1 else counter
  }

  lemma CounterDigits()
    ensures LAST_COUNTER < Pow(10, 16)
  {
    assert Pow(10, 1) == 10;
    PowSplit(10, 1, 1);
    PowSplit(10, 2, 2);
    PowSplit(10, 4, 4);
    PowSplit(10, 8, 8);
  }

  /** No counter the script reaches outgrows the server's length limit. */
  lemma SolutionNameFits(worker: nat, counter: nat)
    requires worker < 8 && counter <= LAST_COUNTER
    ensures 0 < |SolutionName(worker, counter)| <= 18 <= MAX_SOLUTION_LEN
  {
    hide Numeral;
    assert Pow(10, 1) == 10;
    hide Pow;
    CounterDigits();
    NumeralLength(worker, 10, 1);
    NumeralLength(counter, 10, 16);
  }

  // -- the search loop ------------------------------------------------------------------

  type Digest = d: seq<nat> | |d| == TARGET_BYTES && AllBelow(d, 256) witness Zeros(32)

  /** The server's verdict on a submitted solution. */
  predicate CheckSolution(hash: string -> Digest, token: string, solution: string, target: nat) {
    0 < |solution| <= MAX_SOLUTION_LEN && ServerWins(hash(token + solution), target)
  }

  /** Browser and server agree on every digest and every target below 2^256. */
  method WorkerWins(digest: Digest, target: array<nat>, value: nat) returns (won: bool)
    requires target.Length == TARGET_BYTES && AllBelow(target[..], 256) && Value(target[..], 256) == value
    ensures won <==> ServerWins(digest, value)
  {
    hide Value;
    var bytes := new nat[32](i requires 0 <= i < 32 => digest[i]);
    assert bytes[..] == digest;
    won := LessThanTarget(bytes, target);
  }

  /** The digest of the token followed by worker, dash and counter is below the target. */
  predicate Solves(hash: string -> Digest, token: string, worker: nat, counter: nat, target: nat) {
    Value(hash(token + (Numeral(worker, 10) + "-" + Numeral(counter, 10))), 256) < target
  }

  lemma SolvesIff(hash: string -> Digest, token: string, worker: nat, counter: nat, target: nat)
    requires worker < 8 && counter <= LAST_COUNTER
    ensures Solves(hash, token, worker, counter, target)
       <==> CheckSolution(hash, token, SolutionName(worker, counter), target)
  {
    hide Value, Numeral;
    SolutionNameFits(worker, counter);
  }

  /**
    One worker's search over its first attempts: it reports the first counter the server
    would accept, and stays silent only when the server would accept none of them. However
    long it runs, it tries no counter past the last.
   */
  method Search(hash: string -> Digest, token: string, worker: nat, target: nat, attempts: nat)
    returns (solved: Option<nat>)
    requires worker < 8 && target < Pow(256, 32)
    ensures solved.Some? ==> solved.value < attempts && solved.value <= 9007199254740992
    ensures forall c :: 0 <= c < (if solved.Some? then solved.value else attempts) && c <= 9007199254740992 ==>
              !CheckSolution(hash, token, SolutionName(worker, c), target)
    ensures solved.Some? ==> CheckSolution(hash, token, SolutionName(worker, solved.value), target)
    ensures solved.Some? ==> Solves(hash, token, worker, solved.value, target)
    ensures forall c :: 0 <= c < (if solved.Some? then solved.value else attempts) && c <= 9007199254740992 ==>
              !Solves(hash, token, worker, c, target)
  {
    hide Pow, Value, SolutionName, Numeral, Solves;
    forall c: nat | c <= LAST_COUNTER
      ensures Solves(hash, token, worker, c, target)
         <==> CheckSolution(hash, token, SolutionName(worker, c), target)
    {
      SolvesIff(hash, token, worker, c, target);
    }
    var hex := Numeral(target, 16);
    var bytes := HexToBytes32(hex);
    PaddedNumeral(target);
    assert PadStart(hex, 64)[..64] == PadStart(hex, 64);
    var counter := 0;
    for n := 0 to attempts
      invariant AllBelow(bytes[..], 256) && Value(bytes[..], 256) == target
      invariant counter == (if n < LAST_COUNTER then n else LAST_COUNTER)
      invariant forall c :: 0 <= c < n && c <= LAST_COUNTER ==>
                  !CheckSolution(hash, token, SolutionName(worker, c), target)
    {
      var solution := SolutionName(worker, counter);
      SolutionNameFits(worker, counter);
      var won := WorkerWins(hash(token + solution), bytes, target);
      if won {
        return Some(counter);
      }
      counter := Increment(counter);
    }
    return None;
  }
}
