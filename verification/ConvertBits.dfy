/** The bit regrouper of argus/faucet/addresses.py. */
module ConvertBits {
  import opened Options
  import opened Positional
  import opened Bits

  predicate InRange(data: seq<int>, b: nat) {
    forall i :: 0 <= i < |data| ==> 0 <= data[i] < b
  }

  /**
    The from-bit groups data spell the same bit string as the to-bit groups ret followed
    by pad zero bits, where pad is too short to fill a group of either width.
   */
  predicate SameBits(data: seq<int>, ret: seq<nat>, from: nat, to: nat, pad: nat) {
    && InRange(data, Pow(2, from))
    && AllBelow(ret, Pow(2, to))
    && pad < from && pad < to
    && from * |data| == to * |ret| + pad
    && Value(data, Pow(2, from)) == Shl(Value(ret, Pow(2, to)), pad)
  }

  ghost predicate Regroups(data: seq<int>, ret: seq<nat>, from: nat, to: nat) {
    exists pad: nat :: SameBits(data, ret, from, to, pad)
  }

  /** Appending a from-bit group leaves the completed part of the accumulator alone. */
  lemma PushGroup(acc: nat, v: nat, from: nat, bits: nat)
    requires v < Pow(2, from)
    ensures Shr(Shl(acc, from) + v, bits + from) == Shr(acc, bits)
  {
    hide Shl, Shr, Low;
    Unique(acc, v, from);
    ShrShr(Shl(acc, from) + v, from, bits);
  }

  /** Emitting a to-bit group moves it from the pending to the completed part. */
  lemma PopGroup(acc: nat, to: nat, bits: nat)
    ensures Shr(acc, bits) == Shl(Shr(acc, bits + to), to) + Low(Shr(acc, bits), to)
  {
    hide Shl, Shr, Low;
    ShrShr(acc, bits, to);
    Split(Shr(acc, bits), to);
  }

  /** The padding test: the pending bits, moved to the top of a group, are all zero. */
  lemma PaddingTest(acc: nat, to: nat, bits: nat)
    requires bits <= to
    ensures Low(Shl(acc, to - bits), to) == 0 <==> Low(acc, bits) == 0
  {
    hide Shl, Shr, Low;
    var k, r := Shr(acc, bits), Low(acc, bits);
    Split(acc, bits);
    ShlSum(Shl(k, bits), r, to - bits);
    ShlShl(k, bits, to - bits);
    ShlBound(r, 0, bits, to - bits);
    Unique(k, Shl(r, to - bits), to);
    ShlZero(r, to - bits);
  }

  lemma ShlZero(r: nat, k: nat)
    ensures Shl(r, k) == 0 <==> r == 0
  {
    if r > 0 {
      MulMono(1, r, Pow(2, k));
    }
  }

  /** The pending and completed lengths are determined by the input length. */
  lemma LengthsUnique(to: nat, k: nat, b: nat, k': nat, b': nat)
    requires b < to && b' < to
    requires to * k + b == to * k' + b'
    ensures k == k' && b == b'
  {
    DivModUnique(k, to, b);
    DivModUnique(k', to, b');
  }

  /** A value with nothing left above its low bits fits in them. */
  lemma FitsInGroup(v: nat, w: nat)
    ensures Shr(v, w) == 0 <==> v < Pow(2, w)
  {
    DivModSum(v, Pow(2, w));
    if v < Pow(2, w) {
      DivModUnique(0, Pow(2, w), v);
    }
  }

  /** Why the final test may reject: no regrouping has these pending bits. */
  lemma NoRegrouping(data: seq<int>, from: nat, to: nat, k: nat, bits: nat)
    requires InRange(data, Pow(2, from)) && bits < to && from * |data| == to * k + bits
    requires bits >= from || Low(Value(data, Pow(2, from)), bits) != 0
    ensures forall ret :: !Regroups(data, ret, from, to)
  {
    hide Shl, Shr, Low, Value, Pow;
    forall ret ensures !Regroups(data, ret, from, to) {
      if pad: nat :| SameBits(data, ret, from, to, pad) {
        LengthsUnique(to, k, bits, |ret|, pad);
        PowPositive(bits);
        Unique(Value(ret, Pow(2, to)), 0, bits);
        assert false;
      }
    }
  }

  lemma PowPositive(k: nat)
    ensures Pow(2, k) > 0
  {
  }

  method Convert(data: seq<int>, from: nat, to: nat) returns (r: Option<seq<nat>>)
    requires from > 0 && to > 0
    ensures r.Some? ==> Regroups(data, r.value, from, to)
    ensures r.None? ==> forall ret :: !Regroups(data, ret, from, to)
  {
    hide Shl, Shr, Low, Value, Pow;
    var acc: nat, bits: nat := 0, 0;
    var ret: seq<nat> := [];
    var i := 0;
    EmptyAccumulator(data, from, to);
    while i < |data|
      invariant 0 <= i <= |data|
      invariant InRange(data[..i], Pow(2, from))
      invariant acc == Value(data[..i], Pow(2, from))
      invariant bits < to && from * i == to * |ret| + bits
      invariant AllBelow(ret, Pow(2, to))
      invariant Shr(acc, bits) == Value(ret, Pow(2, to))
    {
      var value := data[i];
      if value < 0 || Shr(value, from) != 0 {
        if value >= 0 {
          FitsInGroup(value, from);
        }
        assert !InRange(data, Pow(2, from));
        return None;
      }
      FitsInGroup(value, from);
      assert data[..i + 1] == data[..i] + [value];
      ValueSnocBits(data[..i], value, from);
      PushGroup(acc, value, from, bits);
      acc := Shl(acc, from) + value;
      bits := bits + from;
      assert from * (i + 1) == from * i + from;
      while bits >= to
        invariant from * (i + 1) == to * |ret| + bits
        invariant AllBelow(ret, Pow(2, to))
        invariant Shr(acc, bits) == Value(ret, Pow(2, to))
      {
        bits := bits - to;
        PopGroup(acc, to, bits);
        ValueSnocBits(ret, Low(Shr(acc, bits), to), to);
        LengthStep(to, |ret|);
        ret := ret + [Low(Shr(acc, bits), to)];
      }
      i := i + 1;
    }
    assert data[..i] == data;
    PaddingTest(acc, to, bits);
    if bits >= from || Low(Shl(acc, to - bits), to) != 0 {
      NoRegrouping(data, from, to, |ret|, bits);
      return None;
    }
    Split(acc, bits);
    assert SameBits(data, ret, from, to, bits);
    return Some(ret);
  }

  lemma LengthStep(to: nat, n: nat)
    ensures to * (n + 1) == to * n + to
  {
  }

  lemma EmptyAccumulator(data: seq<int>, from: nat, to: nat)
    ensures Value(data[..0], Pow(2, from)) == 0 && Value([], Pow(2, to)) == 0
    ensures Shr(0, 0) == 0
  {
    DivModUnique(0, Pow(2, 0), 0);
  }

  /** How many 5-bit groups n bytes need, and how many zero bits fill the last one. */
  function FiveBitLength(n: nat): nat {
    (8 * n + 4) / 5
  }

  function FiveBitPadding(n: nat): (pad: nat)
    ensures pad < 5 && 5 * FiveBitLength(n) == 8 * n + pad
  {
    5 * FiveBitLength(n) - 8 * n
  }

  /** The zero-padded 5-bit form of a byte string. */
  function FiveBitForm(prog: seq<nat>): (groups: seq<nat>)
    ensures |groups| == FiveBitLength(|prog|) && AllBelow(groups, 32)
  {
    Digits(Shl(Value(prog, 256), FiveBitPadding(|prog|)), 32, FiveBitLength(|prog|))
  }

  lemma SmallPowers()
    ensures Pow(2, 5) == 32 && Pow(2, 8) == 256
  {
    assert Pow(2, 3) == 8 && Pow(2, 2) == 4;
    PowSplit(2, 3, 2);
    PowSplit(2, 5, 3);
  }

  lemma FiveBitFormFits(prog: seq<nat>)
    requires AllBelow(prog, 256)
    ensures Shl(Value(prog, 256), FiveBitPadding(|prog|)) < Pow(32, FiveBitLength(|prog|))
  {
    hide Shl, Value, Pow, FiveBitLength, FiveBitPadding;
    SmallPowers();
    ValueBound(prog, 256);
    PowPow(2, 8, |prog|);
    PowPow(2, 5, FiveBitLength(|prog|));
    PowPositive(FiveBitPadding(|prog|));
    ShlBound(Value(prog, 256), 0, 8 * |prog|, FiveBitPadding(|prog|));
  }

  /**
    Regrouping 5 to 8 succeeds exactly on the zero-padded 5-bit forms of byte strings, and
    returns the byte string: 8-to-5 regrouping has a two-sided inverse on accepted inputs.
   */
  lemma RegroupsFiveToEight(data: seq<int>, prog: seq<nat>)
    ensures Regroups(data, prog, 5, 8) <==> AllBelow(prog, 256) && data == FiveBitForm(prog)
  {
    hide Shl, Value, Pow, Digits;
    SmallPowers();
    var m := FiveBitLength(|prog|);
    if pad: nat :| SameBits(data, prog, 5, 8, pad) {
      assert |data| == m && pad == FiveBitPadding(|prog|);
      DigitsOfValue(data, 32);
    }
    if AllBelow(prog, 256) && data == FiveBitForm(prog) {
      FiveBitFormFits(prog);
      ValueOfDigits(Shl(Value(prog, 256), FiveBitPadding(|prog|)), 32, m);
      assert SameBits(data, prog, 5, 8, FiveBitPadding(|prog|));
    }
  }

  /** Different byte strings have different 5-bit forms. */
  lemma FiveBitFormInjective(p: seq<nat>, q: seq<nat>)
    requires AllBelow(p, 256) && AllBelow(q, 256)
    ensures FiveBitForm(p) == FiveBitForm(q) ==> p == q
  {
    hide Shl, Value, Pow, Digits;
    if FiveBitForm(p) == FiveBitForm(q) {
      var m, pad := FiveBitLength(|p|), FiveBitPadding(|p|);
      assert |p| == |q|;
      FiveBitFormFits(p);
      FiveBitFormFits(q);
      ValueOfDigits(Shl(Value(p, 256), pad), 32, m);
      ValueOfDigits(Shl(Value(q, 256), pad), 32, m);
      PowPositive(pad);
      Unique(Value(p, 256), 0, pad);
      Unique(Value(q, 256), 0, pad);
      ValueInjective(p, q, 256);
    }
  }

  /** Five bytes fill eight groups exactly, so a form is made five bytes at a time. */
  lemma FiveBitFormConcat(p: seq<nat>, q: seq<nat>)
    requires AllBelow(p, 256) && AllBelow(q, 256) && |p| % 5 == 0
    ensures FiveBitForm(p + q) == FiveBitForm(p) + FiveBitForm(q)
  {
    var pad := FiveBitPadding(|q|);
    var xs, ys := FiveBitForm(p), FiveBitForm(q);
    assert FiveBitLength(|p + q|) == FiveBitLength(|p|) + FiveBitLength(|q|) && FiveBitPadding(|p|) == 0;
    assert FiveBitPadding(|p + q|) == pad;
    hide Value, Digits, Pow, Shl, FiveBitLength, FiveBitPadding;
    AllBelowConcat(p, q, 256);
    AllBelowConcat(xs, ys, 32);
    FormValue(p);
    FormValue(q);
    FormsMeet(p, q, xs, ys, pad);
    DigitsOfValue(xs + ys, 32);
  }

  /** The number a form denotes. */
  lemma FormValue(p: seq<nat>)
    requires AllBelow(p, 256)
    ensures Value(FiveBitForm(p), 32) == Shl(Value(p, 256), FiveBitPadding(|p|))
  {
    FiveBitFormFits(p);
    ValueOfDigits(Shl(Value(p, 256), FiveBitPadding(|p|)), 32, FiveBitLength(|p|));
  }

  lemma FormsMeet(p: seq<nat>, q: seq<nat>, xs: seq<nat>, ys: seq<nat>, pad: nat)
    requires Value(xs, 32) == Shl(Value(p, 256), 0) && Value(ys, 32) == Shl(Value(q, 256), pad)
    requires 5 * |ys| == 8 * |q| + pad
    ensures Value(xs + ys, 32) == Shl(Value(p + q, 256), pad)
  {
    hide Value, Shl, Pow;
    SmallPowers();
    ValueConcat(xs, ys, 32);
    ValueConcat(p, q, 256);
    PowPow(2, 5, |ys|);
    PowPow(2, 8, |q|);
    ShlByPower(Value(p, 256), 8 * |q|);
    ShlByPower(Value(p, 256), 5 * |ys|);
    ShlByPower(Value(p, 256), 0);
    PowZero();
    ShlShl(Value(p, 256), 8 * |q|, pad);
    ShlSum(Shl(Value(p, 256), 8 * |q|), Value(q, 256), pad);
  }

  lemma ShlByPower(x: nat, k: nat)
    ensures Shl(x, k) == x * Pow(2, k)
  {
  }

  lemma PowZero()
    ensures Pow(2, 0) == 1
  {
  }

  // -- concrete forms -----------------------------------------------------------------

  /** Five bytes and the eight groups that denote the same number. */
  lemma FormOfFive(a: nat, b: nat, c: nat, d: nat, e: nat,
                   s: nat, t: nat, u: nat, v: nat, w: nat, x: nat, y: nat, z: nat)
    requires a < 256 && b < 256 && c < 256 && d < 256 && e < 256
    requires s < 32 && t < 32 && u < 32 && v < 32 && w < 32 && x < 32 && y < 32 && z < 32
    requires (((a * 256 + b) * 256 + c) * 256 + d) * 256 + e
          == ((((((s * 32 + t) * 32 + u) * 32 + v) * 32 + w) * 32 + x) * 32 + y) * 32 + z
    ensures FiveBitForm([a, b, c, d, e]) == [s, t, u, v, w, x, y, z]
  {
    hide Digits, Pow, Value;
    FiveValue(a, b, c, d, e, 256);
    EightValue(s, t, u, v, w, x, y, z, 32);
    PowZero();
    DigitsOfValue([s, t, u, v, w, x, y, z], 32);
  }

  lemma FiveValue(a: nat, b: nat, c: nat, d: nat, e: nat, base: nat)
    ensures Value([a, b, c, d, e], base) == (((a * base + b) * base + c) * base + d) * base + e
  {
    hide Value;
    assert [a, b, c, d, e] == [a, b, c, d] + [e];
    FourValue(a, b, c, d, base);
    ValueSnoc([a, b, c, d], e, base);
  }

  lemma EightValue(s: nat, t: nat, u: nat, v: nat, w: nat, x: nat, y: nat, z: nat, base: nat)
    ensures Value([s, t, u, v, w, x, y, z], base)
         == ((((((s * base + t) * base + u) * base + v) * base + w) * base + x) * base + y) * base + z
  {
    hide Value;
    assert [s, t, u, v, w, x] == [s, t, u, v, w] + [x] && [s, t, u, v, w, x, y] == [s, t, u, v, w, x] + [y];
    assert [s, t, u, v, w, x, y, z] == [s, t, u, v, w, x, y] + [z];
    FiveValue(s, t, u, v, w, base);
    ValueSnoc([s, t, u, v, w], x, base);
    ValueSnoc([s, t, u, v, w, x], y, base);
    ValueSnoc([s, t, u, v, w, x, y], z, base);
  }

  /** Two bytes and four zero bits are four groups. */
  lemma FormOfTwo(a: nat, b: nat, w: nat, x: nat, y: nat, z: nat)
    requires a < 256 && b < 256 && w < 32 && x < 32 && y < 32 && z < 32
    requires (a * 256 + b) * 16 == ((w * 32 + x) * 32 + y) * 32 + z
    ensures FiveBitForm([a, b]) == [w, x, y, z]
  {
    hide Digits, Pow, Value;
    TwoValue(a, b, 256);
    FourValue(w, x, y, z, 32);
    SixteenIsAPower();
    DigitsOfValue([w, x, y, z], 32);
  }

  lemma SixteenIsAPower()
    ensures Pow(2, 4) == 16
  {
    assert Pow(2, 2) == 4;
  }

  lemma TwoValue(a: nat, b: nat, base: nat)
    ensures Value([a, b], base) == a * base + b
  {
    hide Value;
    assert [a] == [] + [a] && [a, b] == [a] + [b];
    ValueZeros(0, base);
    ValueSnoc([], a, base);
    ValueSnoc([a], b, base);
  }

  lemma FourValue(a: nat, b: nat, c: nat, d: nat, base: nat)
    ensures Value([a, b, c, d], base) == ((a * base + b) * base + c) * base + d
  {
    hide Value;
    assert [a, b, c] == [a, b] + [c] && [a, b, c, d] == [a, b, c] + [d];
    TwoValue(a, b, base);
    ValueSnoc([a, b], c, base);
    ValueSnoc([a, b, c], d, base);
  }
}
