/**
  Big-endian positional numbers: the arithmetic shared by the bit regrouper, the base58
  codec and the proof-of-work target comparison.
 */
module Positional {
  function Pow(b: nat, n: nat): (p: nat)
    ensures b > 0 ==> p > 0
  {
    if n == 0 then 1 else b * Pow(b, n - 1)
  }

  predicate AllBelow(ds: seq<nat>, b: nat) {
    forall i :: 0 <= i < |ds| ==> ds[i] < b
  }

  lemma AllBelowConcat(xs: seq<nat>, ys: seq<nat>, b: nat)
    requires AllBelow(xs, b) && AllBelow(ys, b)
    ensures AllBelow(xs + ys, b)
  {
  }

  /** The number a big-endian digit string denotes. */
  function Value(ds: seq<nat>, b: nat): nat {
    if ds == [] then 0 else Value(ds[..|ds| - 1], b) * b + ds[|ds| - 1]
  }

  /** The n low-order base-b digits of v, most significant first. */
  function Digits(v: nat, b: nat, n: nat): (ds: seq<nat>)
    requires b >= 2
    ensures |ds| == n && AllBelow(ds, b)
    decreases n
  {
    if n == 0 then [] else Digits(v / b, b, n - 1) + [v % b]
  }

  /** The base-b digits of v without leading zeros; zero is the empty string. */
  function MinDigits(v: nat, b: nat): (ds: seq<nat>)
    requires b >= 2
    ensures AllBelow(ds, b)
  {
    if v == 0 then [] else MinDigits(v / b, b) + [v % b]
  }

  function Zeros(n: nat): (ds: seq<nat>)
    ensures |ds| == n && forall i :: 0 <= i < n ==> ds[i] == 0
  {
    seq(n, _ => 0)
  }

  function LeadingZeros(ds: seq<nat>): (n: nat)
    ensures n <= |ds| && ds[..n] == Zeros(n) && (n < |ds| ==> ds[n] != 0)
  {
    if ds == [] || ds[0] != 0 then 0 else 1 + LeadingZeros(ds[1..])
  }

  lemma {:induction false} PowSplit(b: nat, m: nat, n: nat)
    ensures Pow(b, m + n) == Pow(b, m) * Pow(b, n)
  {
    if m == 0 {
    } else {
      PowSplit(b, m - 1, n);
      MulAssoc(Pow(b, m - 1), Pow(b, n), b);
      MulAssoc(Pow(b, n), Pow(b, m - 1), b);
    }
  }

  lemma {:induction false} PowPow(b: nat, k: nat, n: nat)
    ensures Pow(Pow(b, k), n) == Pow(b, k * n)
  {
    if n == 0 {
    } else {
      PowPow(b, k, n - 1);
      PowSplit(b, k, k * (n - 1));
      assert k + k * (n - 1) == k * n;
    }
  }

  lemma {:induction false} ValueSnoc(ds: seq<nat>, d: nat, b: nat)
    ensures Value(ds + [d], b) == Value(ds, b) * b + d
  {
    assert (ds + [d])[..|ds|] == ds;
  }

  lemma MulMono(x: int, y: int, c: nat)
    requires x <= y
    ensures x * c <= y * c
  {
    assert y * c == x * c + (y - x) * c;
  }

  lemma Distribute(x: int, y: int, c: int)
    ensures (x + y) * c == x * c + y * c
  {
  }

  lemma MulAssoc(x: int, y: int, z: int)
    ensures (x * y) * z == x * (z * y)
  {
  }

  /** The quotient and remainder of q * b + r by b. */
  lemma DivModUnique(q: int, b: nat, r: nat)
    requires r < b
    ensures (q * b + r) / b == q && (q * b + r) % b == r
  {
    var v := q * b + r;
    var k := v / b;
    assert v == b * k + v % b;
    if k < q {
      MulMono(k + 1, q, b);
      Distribute(k, 1, b);
      assert false;
    } else if q < k {
      MulMono(q + 1, k, b);
      Distribute(q, 1, b);
      assert false;
    }
  }

  lemma DivModSum(v: nat, b: nat)
    requires b > 0
    ensures v == v / b * b + v % b
  {
  }

  lemma SmallerQuotient(v: nat, b: nat)
    requires v > 0 && b >= 2
    ensures v / b < v
    ensures v / b == 0 ==> v % b == v
  {
    DivModSum(v, b);
    MulMono(2, b, v / b);
  }

  lemma DivBelow(v: nat, b: nat, p: nat)
    requires b > 0 && v < b * p
    ensures v / b < p
  {
    assert v == b * (v / b) + v % b;
    if p <= v / b {
      MulMono(p, v / b, b);
      assert false;
    }
  }

  lemma {:induction false} ValueBound(ds: seq<nat>, b: nat)
    requires AllBelow(ds, b)
    ensures Value(ds, b) < Pow(b, |ds|)
  {
    if ds != [] {
      var init, d := ds[..|ds| - 1], ds[|ds| - 1];
      ValueBound(init, b);
      MulMono(Value(init, b) + 1, Pow(b, |ds| - 1), b);
      Distribute(Value(init, b), 1, b);
    }
  }

  /** Reading back the digits of a value gives the digits: fixed-width form. */
  lemma {:induction false} DigitsOfValue(ds: seq<nat>, b: nat)
    requires b >= 2 && AllBelow(ds, b)
    ensures Digits(Value(ds, b), b, |ds|) == ds
  {
    if ds != [] {
      var init, d := ds[..|ds| - 1], ds[|ds| - 1];
      DigitsOfValue(init, b);
      DivModUnique(Value(init, b), b, d);
    }
  }

  lemma ValueOfQuotientAndRemainder(ds: seq<nat>, v: nat, b: nat)
    requires b > 0 && Value(ds, b) == v / b
    ensures Value(ds + [v % b], b) == v
  {
    ValueSnoc(ds, v % b, b);
    DivModSum(v, b);
  }

  lemma {:induction false} ValueOfDigits(v: nat, b: nat, n: nat)
    requires b >= 2 && v < Pow(b, n)
    ensures Value(Digits(v, b, n), b) == v
    decreases n
  {
    if n > 0 {
      DivBelow(v, b, Pow(b, n - 1));
      ValueOfDigits(v / b, b, n - 1);
      ValueOfQuotientAndRemainder(Digits(v / b, b, n - 1), v, b);
    }
  }

  /** Two digit strings of one length with one value are the same string. */
  lemma ValueInjective(xs: seq<nat>, ys: seq<nat>, b: nat)
    requires b >= 2 && AllBelow(xs, b) && AllBelow(ys, b)
    requires |xs| == |ys| && Value(xs, b) == Value(ys, b)
    ensures xs == ys
  {
    DigitsOfValue(xs, b);
    DigitsOfValue(ys, b);
  }

  lemma {:induction false} ValueConcat(xs: seq<nat>, ys: seq<nat>, b: nat)
    ensures Value(xs + ys, b) == Value(xs, b) * Pow(b, |ys|) + Value(ys, b)
  {
    if ys == [] {
      assert xs + ys == xs;
    } else {
      var init, d := ys[..|ys| - 1], ys[|ys| - 1];
      assert xs + ys == (xs + init) + [d] && ys == init + [d];
      ValueConcat(xs, init, b);
      ValueSnoc(xs + init, d, b);
      ValueSnoc(init, d, b);
      Distribute(Value(xs, b) * Pow(b, |init|), Value(init, b), b);
      MulAssoc(Value(xs, b), Pow(b, |init|), b);
    }
  }

  lemma {:induction false} ValueZeros(n: nat, b: nat)
    ensures Value(Zeros(n), b) == 0
  {
    if n > 0 {
      assert Zeros(n) == Zeros(n - 1) + [0];
      ValueZeros(n - 1, b);
      ValueSnoc(Zeros(n - 1), 0, b);
    }
  }

  lemma {:induction false} MinDigitsFacts(v: nat, b: nat)
    requires b >= 2
    ensures Value(MinDigits(v, b), b) == v
    ensures v > 0 ==> MinDigits(v, b) != [] && MinDigits(v, b)[0] != 0
    decreases v
  {
    if v > 0 {
      SmallerQuotient(v, b);
      MinDigitsFacts(v / b, b);
      ValueOfQuotientAndRemainder(MinDigits(v / b, b), v, b);
    }
  }

  /** A digit string without leading zeros is the minimal form of its value. */
  lemma {:induction false} MinDigitsOfValue(ds: seq<nat>, b: nat)
    requires b >= 2 && AllBelow(ds, b)
    requires ds != [] ==> ds[0] != 0
    ensures MinDigits(Value(ds, b), b) == ds
    ensures ds != [] ==> Value(ds, b) > 0
  {
    if ds != [] {
      var init, d := ds[..|ds| - 1], ds[|ds| - 1];
      MinDigitsOfValue(init, b);
      DivModUnique(Value(init, b), b, d);
      if init != [] {
        assert Value(init, b) * b > 0;
      }
    }
  }

  /** The fixed-width form with exactly as many digits as needed is the minimal form. */
  lemma DigitsAreMinimal(v: nat, b: nat, n: nat)
    requires b >= 2 && n > 0 && Pow(b, n - 1) <= v < Pow(b, n)
    ensures Digits(v, b, n) == MinDigits(v, b)
  {
    var ds := Digits(v, b, n);
    ValueOfDigits(v, b, n);
    assert ds == [ds[0]] + ds[1..];
    ValueConcat([ds[0]], ds[1..], b);
    ValueBound(ds[1..], b);
    ValueSnoc([], ds[0], b);
    assert ds[0] != 0;
    MinDigitsOfValue(ds, b);
  }

  /** Base conversion that keeps leading zeros one for one, the rule of base58. */
  function Rebase(ds: seq<nat>, from: nat, to: nat): (r: seq<nat>)
    requires to >= 2
    ensures AllBelow(r, to)
  {
    Zeros(LeadingZeros(ds)) + MinDigits(Value(ds, from), to)
  }

  lemma {:induction false} LeadingZerosOf(n: nat, ds: seq<nat>)
    requires ds != [] ==> ds[0] != 0
    ensures LeadingZeros(Zeros(n) + ds) == n
  {
    if n == 0 {
    } else {
      assert (Zeros(n) + ds)[1..] == Zeros(n - 1) + ds;
      LeadingZerosOf(n - 1, ds);
    }
  }

  /** Converting to another base and back gives the digit string again. */
  lemma RebaseRoundTrip(ds: seq<nat>, from: nat, to: nat)
    requires from >= 2 && to >= 2 && AllBelow(ds, from)
    ensures Rebase(Rebase(ds, from, to), to, from) == ds
  {
    var z := LeadingZeros(ds);
    var rest := ds[z..];
    assert ds == Zeros(z) + rest;
    ValueConcat(Zeros(z), rest, from);
    ValueZeros(z, from);
    MinDigitsOfValue(rest, from);
    var v := Value(ds, from);
    var ts := MinDigits(v, to);
    MinDigitsFacts(v, to);
    LeadingZerosOf(z, ts);
    ValueConcat(Zeros(z), ts, to);
    ValueZeros(z, to);
  }
}
