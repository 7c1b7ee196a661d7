/** Shifts and low-bit masks on unbounded natural numbers, and the laws proofs use. */
module Bits {
  import opened Positional

  /** x << k. */
  function Shl(x: nat, k: nat): nat {
    x * Pow(2, k)
  }

  /** x >> k. */
  function Shr(x: nat, k: nat): nat {
    x / Pow(2, k)
  }

  /** x & ((1 << k) - 1). */
  function Low(x: nat, k: nat): (r: nat)
    ensures r < Pow(2, k)
  {
    x % Pow(2, k)
  }

  lemma Split(x: nat, k: nat)
    ensures x == Shl(Shr(x, k), k) + Low(x, k)
  {
    DivModSum(x, Pow(2, k));
  }

  lemma Unique(q: nat, r: nat, k: nat)
    requires r < Pow(2, k)
    ensures Shr(Shl(q, k) + r, k) == q && Low(Shl(q, k) + r, k) == r
  {
    DivModUnique(q, Pow(2, k), r);
  }

  lemma ShlSum(x: nat, y: nat, k: nat)
    ensures Shl(x + y, k) == Shl(x, k) + Shl(y, k)
  {
    Distribute(x, y, Pow(2, k));
  }

  lemma ShlShl(x: nat, a: nat, b: nat)
    ensures Shl(Shl(x, a), b) == Shl(x, a + b)
  {
    PowSplit(2, b, a);
    MulAssoc(x, Pow(2, a), Pow(2, b));
  }

  lemma ShlMono(x: nat, y: nat, k: nat)
    requires x <= y
    ensures Shl(x, k) <= Shl(y, k)
  {
    MulMono(x, y, Pow(2, k));
  }

  lemma ShlPow(a: nat, k: nat)
    ensures Shl(Pow(2, a), k) == Pow(2, a + k)
  {
    PowSplit(2, a, k);
  }

  /** A number below 2^a, shifted by k and topped up with k low bits, is below 2^(a+k). */
  lemma ShlBound(x: nat, r: nat, a: nat, k: nat)
    requires x < Pow(2, a) && r < Pow(2, k)
    ensures Shl(x, k) + r < Pow(2, a + k)
  {
    hide Shl;
    ShlMono(x + 1, Pow(2, a), k);
    ShlSum(x, 1, k);
    ShlPow(0, k);
    ShlPow(a, k);
  }

  lemma ShrShr(x: nat, a: nat, b: nat)
    ensures Shr(Shr(x, a), b) == Shr(x, a + b)
  {
    hide Shl, Shr, Low;
    var q, r, s := Shr(Shr(x, a), b), Low(Shr(x, a), b), Low(x, a);
    Split(x, a);
    Split(Shr(x, a), b);
    ShlSum(Shl(q, b), r, a);
    ShlShl(q, b, a);
    ShlBound(r, s, b, a);
    Unique(q, Shl(r, a) + s, a + b);
  }

  lemma ValueSnocBits(ds: seq<nat>, d: nat, w: nat)
    ensures Value(ds + [d], Pow(2, w)) == Shl(Value(ds, Pow(2, w)), w) + d
  {
    ValueSnoc(ds, d, Pow(2, w));
  }
}
