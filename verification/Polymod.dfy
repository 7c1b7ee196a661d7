/**
  The bech32 checksum register of argus/faucet/addresses.py: a 30-bit state fed one 5-bit
  symbol at a time. The step is linear over exclusive or and has a trivial kernel.
 */
module Polymod {
  import opened Positional

  const GENERATOR: seq<bv30> := [0x3B6A57B2, 0x26508E6D, 0x1EA119FA, 0x3D4233DD, 0x2A1462B3]

  /** Exclusive or, named so that its laws can be applied term by term. */
  function Xor(a: bv30, b: bv30): bv30 {
    a ^ b
  }

  /** The contribution of generator g, selected by bit i of the symbol shifted out. */
  function Gate(top: bv30, i: nat, g: bv30): bv30
    requires i < 5
  {
    if (top >> i) & 1 == 1 then g else 0
  }

  function Mixed(chk: bv30, top: bv30, n: nat): bv30
    requires n <= |GENERATOR|
  {
    if n == 0 then chk else Xor(Mixed(chk, top, n - 1), Gate(top, n - 1, GENERATOR[n - 1]))
  }

  /** The low 25 bits moved up by one symbol. */
  function Raised(chk: bv30): bv30 {
    (chk & 0x1FFFFFF) << 5
  }

  function Shifted(chk: bv30, v: bv30): bv30 {
    Xor(Raised(chk), v)
  }

  /** One step of the register. */
  function Step(chk: bv30, v: bv30): bv30 {
    Mixed(Shifted(chk, v), chk >> 25, |GENERATOR|)
  }

  function Run(chk: bv30, ws: seq<bv30>): bv30 {
    if ws == [] then chk else Step(Run(chk, ws[..|ws| - 1]), ws[|ws| - 1])
  }

  /** The symbols of a list as register words. */
  function Words(values: seq<nat>): (ws: seq<bv30>)
    requires AllBelow(values, 32)
    ensures |ws| == |values|
  {
    seq(|values|, i requires 0 <= i < |values| => values[i] as bv30)
  }

  function Checksum(values: seq<nat>): bv30
    requires AllBelow(values, 32)
  {
    Run(1, Words(values))
  }

  method Compute(values: seq<nat>) returns (chk: bv30)
    requires AllBelow(values, 32)
    ensures chk == Checksum(values)
  {
    hide Gate, Xor;
    chk := 1;
    var n := 0;
    while n < |values|
      invariant 0 <= n <= |values|
      invariant chk == Run(1, Words(values)[..n])
    {
      var v := values[n] as bv30;
      var top := chk >> 25;
      ghost var base := Shifted(chk, v);
      ghost var before := chk;
      chk := Shifted(chk, v);
      for i := 0 to 5
        invariant chk == Mixed(base, top, i)
      {
        chk := Xor(chk, Gate(top, i, GENERATOR[i]));
      }
      assert chk == Step(before, v);
      assert Words(values)[..n + 1][..n] == Words(values)[..n];
      n := n + 1;
    }
    assert Words(values)[..n] == Words(values);
  }

  // -- linearity ------------------------------------------------------------

  lemma BitXor(s: bv30, t: bv30, i: nat)
    requires i < 5
    ensures ((s ^ t) >> i) & 1 == ((s >> i) & 1) ^ ((t >> i) & 1)
  {
    match i
    case 0 =>
    case 1 =>
    case 2 =>
    case 3 =>
    case 4 =>
  }

  lemma GateXor(s: bv30, t: bv30, i: nat, g: bv30)
    requires i < 5
    ensures Gate(Xor(s, t), i, g) == Xor(Gate(s, i, g), Gate(t, i, g))
  {
    BitXor(s, t, i);
    assert (s >> i) & 1 == 0 || (s >> i) & 1 == 1;
    assert (t >> i) & 1 == 0 || (t >> i) & 1 == 1;
  }

  lemma XorCommutes(a: bv30, b: bv30)
    ensures Xor(a, b) == Xor(b, a)
  {
  }

  lemma XorAssociates(a: bv30, b: bv30, c: bv30)
    ensures Xor(Xor(a, b), c) == Xor(a, Xor(b, c))
  {
  }

  lemma XorSwap(a: bv30, b: bv30, c: bv30, d: bv30)
    ensures Xor(Xor(a, b), Xor(c, d)) == Xor(Xor(a, c), Xor(b, d))
  {
    hide Xor;
    XorAssociates(Xor(a, b), c, d);
    XorAssociates(a, b, c);
    XorCommutes(b, c);
    XorAssociates(a, c, b);
    XorAssociates(Xor(a, c), b, d);
  }

  lemma XorSelf(a: bv30)
    ensures Xor(a, a) == 0
  {
  }

  lemma XorWithZero(a: bv30)
    ensures Xor(a, 0) == a && Xor(0, a) == a
  {
  }

  lemma XorZero(a: bv30, b: bv30)
    ensures Xor(a, b) == 0 <==> a == b
  {
    hide Xor;
    XorSelf(b);
    XorAssociates(a, b, b);
    XorWithZero(a);
    XorWithZero(b);
  }

  lemma {:induction false} MixedXor(a: bv30, b: bv30, s: bv30, t: bv30, n: nat)
    requires n <= |GENERATOR|
    ensures Mixed(Xor(a, b), Xor(s, t), n) == Xor(Mixed(a, s, n), Mixed(b, t, n))
  {
    hide Xor, Gate;
    if n > 0 {
      var g := GENERATOR[n - 1];
      MixedXor(a, b, s, t, n - 1);
      GateXor(s, t, n - 1, g);
      XorSwap(Mixed(a, s, n - 1), Mixed(b, t, n - 1), Gate(s, n - 1, g), Gate(t, n - 1, g));
    }
  }

  lemma RaisedXor(a: bv30, b: bv30)
    ensures Raised(Xor(a, b)) == Xor(Raised(a), Raised(b))
  {
    assert ((a ^ b) & 0x1FFFFFF) << 5 == ((a & 0x1FFFFFF) << 5) ^ ((b & 0x1FFFFFF) << 5);
  }

  lemma ShiftedXor(a: bv30, b: bv30, u: bv30, v: bv30)
    ensures Shifted(Xor(a, b), Xor(u, v)) == Xor(Shifted(a, u), Shifted(b, v))
  {
    hide Xor, Raised;
    RaisedXor(a, b);
    XorSwap(Raised(a), Raised(b), u, v);
  }

  lemma TopXor(a: bv30, b: bv30)
    ensures Xor(a, b) >> 25 == Xor(a >> 25, b >> 25)
  {
    assert (a ^ b) >> 25 == (a >> 25) ^ (b >> 25);
  }

  /** The step is linear over exclusive or. */
  lemma StepXor(a: bv30, b: bv30, u: bv30, v: bv30)
    ensures Step(Xor(a, b), Xor(u, v)) == Xor(Step(a, u), Step(b, v))
  {
    hide Xor, Mixed, Shifted;
    ShiftedXor(a, b, u, v);
    TopXor(a, b);
    MixedXor(Shifted(a, u), Shifted(b, v), a >> 25, b >> 25, |GENERATOR|);
  }

  function XorAll(us: seq<bv30>, vs: seq<bv30>): (ws: seq<bv30>)
    requires |us| == |vs|
    ensures |ws| == |us|
  {
    seq(|us|, i requires 0 <= i < |us| => Xor(us[i], vs[i]))
  }

  /** So is a whole run. */
  lemma {:induction false} RunXor(a: bv30, b: bv30, us: seq<bv30>, vs: seq<bv30>)
    requires |us| == |vs|
    ensures Run(Xor(a, b), XorAll(us, vs)) == Xor(Run(a, us), Run(b, vs))
  {
    hide Xor, Step;
    if us == [] {
    } else {
      var k := |us| - 1;
      assert XorAll(us, vs)[..k] == XorAll(us[..k], vs[..k]);
      RunXor(a, b, us[..k], vs[..k]);
      StepXor(Run(a, us[..k]), Run(b, vs[..k]), us[k], vs[k]);
    }
  }

  lemma {:induction false} RunConcat(chk: bv30, us: seq<bv30>, vs: seq<bv30>)
    ensures Run(chk, us + vs) == Run(Run(chk, us), vs)
  {
    hide Step;
    if vs == [] {
      assert us + vs == us;
    } else {
      var k := |vs| - 1;
      assert (us + vs)[..|us| + k] == us + vs[..k];
      RunConcat(chk, us, vs[..k]);
    }
  }

  // -- trivial kernel -------------------------------------------------------

  lemma AllGates(x: bv30, t: bv30)
    ensures Mixed(x, t, |GENERATOR|)
         == Xor(Xor(Xor(Xor(Xor(x, Gate(t, 0, 0x3B6A57B2)), Gate(t, 1, 0x26508E6D)),
                        Gate(t, 2, 0x1EA119FA)), Gate(t, 3, 0x3D4233DD)), Gate(t, 4, 0x2A1462B3))
  {
    hide Xor, Gate;
    assert Mixed(x, t, 1) == Xor(Mixed(x, t, 0), Gate(t, 0, GENERATOR[0]));
    assert Mixed(x, t, 2) == Xor(Mixed(x, t, 1), Gate(t, 1, GENERATOR[1]));
    assert Mixed(x, t, 3) == Xor(Mixed(x, t, 2), Gate(t, 2, GENERATOR[2]));
    assert Mixed(x, t, 4) == Xor(Mixed(x, t, 3), Gate(t, 3, GENERATOR[3]));
  }

  /** Only the zero state steps to zero on the zero symbol. */
  lemma StepKernel(a: bv30)
    requires Step(a, 0) == 0
    ensures a == 0
  {
    AllGates(Shifted(a, 0), a >> 25);
  }

  function ZeroWords(n: nat): (ws: seq<bv30>)
    ensures |ws| == n
  {
    seq(n, _ => 0)
  }

  lemma {:induction false} RunKernel(a: bv30, n: nat)
    requires Run(a, ZeroWords(n)) == 0
    ensures a == 0
  {
    hide Step;
    if n > 0 {
      assert ZeroWords(n)[..n - 1] == ZeroWords(n - 1);
      StepKernel(Run(a, ZeroWords(n - 1)));
      RunKernel(a, n - 1);
    }
  }

  // -- the first six symbols from the zero state are simply packed ----------

  lemma GateZero(i: nat, g: bv30)
    requires i < 5
    ensures Gate(0, i, g) == 0
  {
    match i
    case 0 =>
    case 1 =>
    case 2 =>
    case 3 =>
    case 4 =>
  }

  lemma {:induction false} MixedZero(chk: bv30, n: nat)
    requires n <= |GENERATOR|
    ensures Mixed(chk, 0, n) == chk
  {
    hide Gate;
    if n > 0 {
      MixedZero(chk, n - 1);
      GateZero(n - 1, GENERATOR[n - 1]);
    }
  }

  /** While the top symbol is zero a step only shifts the new symbol in. */
  lemma StepShifts(chk: bv30, v: bv30)
    requires chk < 0x2000000 && v < 32
    ensures Step(chk, v) == Shifted(chk, v)
  {
    hide Mixed, Shifted;
    assert chk >> 25 == 0;
    MixedZero(Shifted(chk, v), |GENERATOR|);
  }

  /** The bound on a register that has taken k symbols from zero. */
  function Limit(k: nat): bv30
    requires k <= 5
  {
    match k
    case 0 => 1
    case 1 => 0x20
    case 2 => 0x400
    case 3 => 0x8000
    case 4 => 0x100000
    case 5 => 0x2000000
  }

  predicate Symbols(ws: seq<bv30>) {
    forall i :: 0 <= i < |ws| ==> ws[i] < 32
  }

  lemma LimitAtMost(k: nat)
    requires k <= 5
    ensures 0 < Limit(k) <= 0x2000000
  {
  }

  lemma LimitStep(chk: bv30, v: bv30, k: nat)
    requires k < 5 && chk < Limit(k) && v < 32
    ensures Shifted(chk, v) < Limit(k + 1)
  {
    match k
    case 0 =>
    case 1 =>
    case 2 =>
    case 3 =>
    case 4 =>
  }

  lemma {:induction false} RunBelowLimit(ws: seq<bv30>)
    requires |ws| <= 5 && Symbols(ws)
    ensures Run(0, ws) < Limit(|ws|)
  {
    hide Step, Shifted, Limit;
    if ws == [] {
      LimitAtMost(0);
    } else {
      var k := |ws| - 1;
      RunBelowLimit(ws[..k]);
      LimitAtMost(k);
      StepShifts(Run(0, ws[..k]), ws[k]);
      LimitStep(Run(0, ws[..k]), ws[k], k);
    }
  }

  /** A run of at most six symbols from zero shifts them in one by one. */
  lemma RunShifts(ws: seq<bv30>)
    requires 0 < |ws| <= 6 && Symbols(ws)
    ensures Run(0, ws[..|ws| - 1]) < 0x2000000
    ensures Run(0, ws) == Shifted(Run(0, ws[..|ws| - 1]), ws[|ws| - 1])
  {
    hide Step, Shifted, Limit;
    var k := |ws| - 1;
    RunBelowLimit(ws[..k]);
    LimitAtMost(k);
    StepShifts(Run(0, ws[..k]), ws[k]);
  }

  lemma ShiftedInjective(a: bv30, v: bv30, b: bv30, w: bv30)
    requires a < 0x2000000 && b < 0x2000000 && v < 32 && w < 32
    requires Shifted(a, v) == Shifted(b, w)
    ensures a == b && v == w
  {
  }

  /** Distinct short symbol strings leave the zero state in distinct states. */
  lemma {:induction false} RunInjective(us: seq<bv30>, vs: seq<bv30>)
    requires |us| == |vs| <= 6 && Symbols(us) && Symbols(vs)
    requires Run(0, us) == Run(0, vs)
    ensures us == vs
  {
    hide Run, Shifted;
    if us != [] {
      var k := |us| - 1;
      RunShifts(us);
      RunShifts(vs);
      ShiftedInjective(Run(0, us[..k]), us[k], Run(0, vs[..k]), vs[k]);
      RunInjective(us[..k], vs[..k]);
    }
  }

  // -- burst detection ------------------------------------------------------

  lemma XorSymbols(u: bv30, v: bv30)
    requires u < 32 && v < 32
    ensures Xor(u, v) < 32
  {
  }

  lemma StepZero()
    ensures Step(0, 0) == 0
  {
    StepShifts(0, 0);
  }

  lemma {:induction false} RunZero(n: nat)
    ensures Run(0, ZeroWords(n)) == 0
  {
    hide Step;
    if n > 0 {
      assert ZeroWords(n)[..n - 1] == ZeroWords(n - 1);
      RunZero(n - 1);
      StepZero();
    }
  }

  /** From one state, distinct windows of at most six symbols lead to distinct states. */
  lemma WindowsDiffer(chk: bv30, us: seq<bv30>, vs: seq<bv30>)
    requires |us| == |vs| <= 6 && Symbols(us) && Symbols(vs) && us != vs
    ensures Run(chk, us) != Run(chk, vs)
  {
    hide Xor, Run;
    if Run(chk, us) == Run(chk, vs) {
      var ds := XorAll(us, vs);
      RunXor(chk, chk, us, vs);
      XorSelf(chk);
      XorSelf(Run(chk, us));
      forall i | 0 <= i < |ds| ensures ds[i] < 32 {
        XorSymbols(us[i], vs[i]);
      }
      RunZero(|ds|);
      RunInjective(ds, ZeroWords(|ds|));
      forall i | 0 <= i < |us| ensures us[i] == vs[i] {
        assert ds[i] == ZeroWords(|ds|)[i];
        XorZero(us[i], vs[i]);
      }
      assert false;
    }
  }

  /** Distinct states stay distinct under any common continuation. */
  lemma SuffixKeepsDifference(a: bv30, b: bv30, ws: seq<bv30>)
    requires a != b
    ensures Run(a, ws) != Run(b, ws)
  {
    hide Xor, Run;
    if Run(a, ws) == Run(b, ws) {
      RunXor(a, b, ws, ws);
      XorSelf(Run(a, ws));
      forall i | 0 <= i < |ws| ensures XorAll(ws, ws)[i] == 0 {
        XorSelf(ws[i]);
      }
      assert XorAll(ws, ws) == ZeroWords(|ws|);
      RunKernel(Xor(a, b), |ws|);
      XorZero(a, b);
      assert false;
    }
  }

  lemma WordFacts(v: nat)
    requires v < 32
    ensures (v as bv30) < 32 && (v as bv30) as nat == v
  {
  }

  lemma WordsAreSymbols(values: seq<nat>)
    requires AllBelow(values, 32)
    ensures Symbols(Words(values))
  {
    forall i | 0 <= i < |values| ensures Words(values)[i] < 32 {
      WordFacts(values[i]);
    }
  }

  lemma WordsInjective(xs: seq<nat>, ys: seq<nat>)
    requires AllBelow(xs, 32) && AllBelow(ys, 32) && Words(xs) == Words(ys)
    ensures xs == ys
  {
    forall i | 0 <= i < |xs| ensures xs[i] == ys[i] {
      assert Words(xs)[i] == Words(ys)[i];
      WordFacts(xs[i]);
      WordFacts(ys[i]);
    }
  }

  lemma WordsConcat(xs: seq<nat>, ys: seq<nat>)
    requires AllBelow(xs, 32) && AllBelow(ys, 32)
    ensures Words(xs + ys) == Words(xs) + Words(ys)
  {
    hide Words;
    AllBelowConcat(xs, ys, 32);
    forall i | 0 <= i < |xs| + |ys| ensures Words(xs + ys)[i] == (Words(xs) + Words(ys))[i] {
      WordAt(xs + ys, i);
      if i < |xs| {
        WordAt(xs, i);
      } else {
        WordAt(ys, i - |xs|);
      }
    }
  }

  lemma WordAt(values: seq<nat>, i: nat)
    requires AllBelow(values, 32) && i < |values|
    ensures Words(values)[i] == values[i] as bv30
  {
  }

  /**
    Any error burst confined to six consecutive symbols changes the checksum register.
   */
  lemma BurstChangesChecksum(prefix: seq<nat>, us: seq<nat>, vs: seq<nat>, suffix: seq<nat>)
    requires AllBelow(prefix, 32) && AllBelow(us, 32) && AllBelow(vs, 32) && AllBelow(suffix, 32)
    requires |us| == |vs| <= 6 && us != vs
    ensures Checksum(prefix + us + suffix) != Checksum(prefix + vs + suffix)
  {
    hide Run;
    WordsConcat(prefix + us, suffix);
    WordsConcat(prefix, us);
    WordsConcat(prefix + vs, suffix);
    WordsConcat(prefix, vs);
    var p, u, v, s := Words(prefix), Words(us), Words(vs), Words(suffix);
    RunConcat(1, p + u, s);
    RunConcat(1, p, u);
    RunConcat(1, p + v, s);
    RunConcat(1, p, v);
    WordsAreSymbols(us);
    WordsAreSymbols(vs);
    if u == v {
      WordsInjective(us, vs);
      assert false;
    }
    WindowsDiffer(Run(1, p), u, v);
    SuffixKeepsDifference(Run(Run(1, p), u), Run(Run(1, p), v), s);
  }

  // -- the checksum that completes a symbol string ---------------------------

  /** The six symbols of a register value, most significant first. */
  function Slices(p: bv30): (ws: seq<bv30>)
    ensures |ws| == 6 && Symbols(ws)
  {
    [(p >> 25) & 31, (p >> 20) & 31, (p >> 15) & 31, (p >> 10) & 31, (p >> 5) & 31, p & 31]
  }

  lemma NumberOf(w: bv30)
    requires w < 32
    ensures (w as nat) < 32 && (w as nat) as bv30 == w
  {
  }

  /** Register words as numbers. */
  function Numbers(ws: seq<bv30>): (vs: seq<nat>)
    requires Symbols(ws)
    ensures |vs| == |ws| && AllBelow(vs, 32)
  {
    seq(|ws|, i requires 0 <= i < |ws| => NumberOf(ws[i]); ws[i] as nat)
  }

  lemma WordsOfNumbers(ws: seq<bv30>)
    requires Symbols(ws)
    ensures Words(Numbers(ws)) == ws
  {
    forall i | 0 <= i < |ws| ensures Words(Numbers(ws))[i] == ws[i] {
      NumberOf(ws[i]);
    }
  }

  /** The six checksum symbols BIP 173 appends to values for the target constant. */
  function ChecksumSymbols(values: seq<nat>, target: bv30): (vs: seq<nat>)
    requires AllBelow(values, 32)
    ensures |vs| == 6 && AllBelow(vs, 32)
  {
    Numbers(Slices(Xor(Run(1, Words(values) + ZeroWords(6)), target)))
  }

  lemma SlicesInjective(p: bv30, q: bv30)
    requires Slices(p) == Slices(q)
    ensures p == q
  {
    var s, t := Slices(p), Slices(q);
    assert s[0] == t[0] && s[1] == t[1] && s[2] == t[2] && s[3] == t[3] && s[4] == t[4] && s[5] == t[5];
  }

  lemma PackedSix(a: bv30, b: bv30, c: bv30, d: bv30, e: bv30, f: bv30, p: bv30)
    requires a < 32 && b < 32 && c < 32 && d < 32 && e < 32 && f < 32
    requires p == Shifted(Shifted(Shifted(Shifted(Shifted(Shifted(0, a), b), c), d), e), f)
    ensures [a, b, c, d, e, f] == Slices(p)
  {
  }

  lemma RunEmpty(chk: bv30)
    ensures Run(chk, []) == chk
  {
  }

  lemma RunOfSix(ws: seq<bv30>)
    requires |ws| == 6 && Symbols(ws)
    ensures ws == Slices(Run(0, ws))
  {
    hide Run, Shifted, Slices;
    RunShifts(ws);
    RunShifts(ws[..5]);
    RunShifts(ws[..4]);
    RunShifts(ws[..3]);
    RunShifts(ws[..2]);
    RunShifts(ws[..1]);
    assert ws[..5][..4] == ws[..4] && ws[..4][..3] == ws[..3] && ws[..3][..2] == ws[..2] && ws[..2][..1] == ws[..1];
    assert ws[..1][..0] == [];
    RunEmpty(0);
    PackedSix(ws[0], ws[1], ws[2], ws[3], ws[4], ws[5], Run(0, ws));
    assert ws == [ws[0], ws[1], ws[2], ws[3], ws[4], ws[5]];
  }

  /** The register after six more symbols, split into old state and new symbols. */
  lemma RunSixSplit(a: bv30, ws: seq<bv30>)
    requires |ws| == 6
    ensures Run(a, ws) == Xor(Run(a, ZeroWords(6)), Run(0, ws))
  {
    hide Xor, Run;
    RunXor(a, 0, ZeroWords(6), ws);
    XorWithZero(a);
    forall i | 0 <= i < 6 ensures XorAll(ZeroWords(6), ws)[i] == ws[i] {
      XorCommutes(0, ws[i]);
      XorWithZero(ws[i]);
    }
    assert XorAll(ZeroWords(6), ws) == ws;
  }

  lemma XorSolve(a: bv30, b: bv30, t: bv30)
    ensures Xor(a, b) == t <==> b == Xor(a, t)
  {
    hide Xor;
    XorCancels(a, b);
    XorCancels(a, t);
  }

  lemma XorCancels(a: bv30, b: bv30)
    ensures Xor(a, Xor(a, b)) == b
  {
    hide Xor;
    XorAssociates(a, a, b);
    XorSelf(a);
    XorCommutes(0, b);
    XorWithZero(b);
  }

  /** Exactly one choice of six final symbols brings the checksum to a given constant. */
  lemma ChecksumSymbolsUnique(values: seq<nat>, c: seq<nat>, target: bv30)
    requires AllBelow(values, 32) && AllBelow(c, 32) && |c| == 6
    ensures Checksum(values + c) == target <==> c == ChecksumSymbols(values, target)
  {
    hide Xor, Run, Slices, Numbers;
    var a, w := Run(1, Words(values)), Words(c);
    var p := Xor(Run(a, ZeroWords(6)), target);
    WordsConcat(values, c);
    RunConcat(1, Words(values), w);
    RunConcat(1, Words(values), ZeroWords(6));
    RunSixSplit(a, w);
    XorSolve(Run(a, ZeroWords(6)), Run(0, w), target);
    WordsAreSymbols(c);
    RunOfSix(w);
    WordsOfNumbers(Slices(p));
    if Run(0, w) == p {
      WordsInjective(c, Numbers(Slices(p)));
    } else if c == Numbers(Slices(p)) {
      SlicesInjective(p, Run(0, w));
    }
  }
}
