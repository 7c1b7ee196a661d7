/**
  Reading concrete symbols with the bech32 register: the step with its generators written
  out, so that a run over given symbols is settled state by state.
 */
module Register {
  import opened Positional
  import opened Polymod

  /** x with generator g mixed in when its bit is set. */
  function Mix(x: bv30, bit: bv30, g: bv30): bv30 {
    if bit == 1 then x ^ g else x
  }

  function Moved(chk: bv30, v: bv30): bv30 {
    ((chk & 0x1FFFFFF) << 5) ^ v
  }

  /** One step of the register, its five generators written out. */
  function Shift(chk: bv30, v: bv30): bv30 {
    var t := chk >> 25;
    Mix(Mix(Mix(Mix(Mix(Moved(chk, v), t & 1, 0x3B6A57B2), (t >> 1) & 1, 0x26508E6D), (t >> 2) & 1, 0x1EA119FA),
            (t >> 3) & 1, 0x3D4233DD), (t >> 4) & 1, 0x2A1462B3)
  }

  lemma MixIsGate(x: bv30, t: bv30, i: nat, g: bv30)
    requires i < 5
    ensures Xor(x, Gate(t, i, g)) == Mix(x, (t >> i) & 1, g)
  {
    XorWithZero(x);
  }

  lemma MovedIsShifted(chk: bv30, v: bv30)
    ensures Shifted(chk, v) == Moved(chk, v)
  {
  }

  lemma ShiftIsStep(chk: bv30, v: bv30)
    ensures Step(chk, v) == Shift(chk, v)
  {
    hide Mixed, Gate, Xor, Mix, Moved, Shifted;
    var t, x := chk >> 25, Shifted(chk, v);
    MovedIsShifted(chk, v);
    AllGates(x, t);
    MixIsGate(x, t, 0, 0x3B6A57B2);
    var x0 := Mix(x, t & 1, 0x3B6A57B2);
    MixIsGate(x0, t, 1, 0x26508E6D);
    var x1 := Mix(x0, (t >> 1) & 1, 0x26508E6D);
    MixIsGate(x1, t, 2, 0x1EA119FA);
    var x2 := Mix(x1, (t >> 2) & 1, 0x1EA119FA);
    MixIsGate(x2, t, 3, 0x3D4233DD);
    MixIsGate(Mix(x2, (t >> 3) & 1, 0x3D4233DD), t, 4, 0x2A1462B3);
  }

  /** A run over a list in two parts. */
  lemma RunInParts(s: bv30, values: seq<nat>, more: seq<nat>)
    requires AllBelow(values, 32) && AllBelow(more, 32)
    ensures AllBelow(values + more, 32)
    ensures Run(s, Words(values + more)) == Run(Run(s, Words(values)), Words(more))
  {
    hide Run, Words;
    WordsConcat(values, more);
    RunConcat(s, Words(values), Words(more));
  }

  // The register reads symbols, step by step.

  lemma ReadsOne(s: bv30, a: nat)
    requires a < 32
    ensures Run(s, Words([a])) == Shift(s, a as bv30)
  {
    hide Shift, Step;
    ShiftIsStep(s, a as bv30);
    RunEmpty(s);
    assert [a as bv30][..0] == [];
    assert Words([a]) == [a as bv30];
  }

  lemma ReadsTwo(s: bv30, a: nat, b: nat)
    requires a < 32 && b < 32
    ensures Run(s, Words([a, b])) == Shift(Shift(s, a as bv30), b as bv30)
  {
    hide Shift, Run, Words;
    var s1 := Shift(s, a as bv30);
    ReadsOne(s, a);
    ReadsOne(s1, b);
    assert [a, b] == [a] + [b];
    RunInParts(s, [a], [b]);
  }

  lemma ReadsFour(s: bv30, a: nat, b: nat, c: nat, d: nat)
    requires a < 32 && b < 32 && c < 32 && d < 32
    ensures Run(s, Words([a, b, c, d])) == Shift(Shift(Shift(Shift(s, a as bv30), b as bv30), c as bv30), d as bv30)
  {
    hide Shift, Run, Words;
    var s2 := Shift(Shift(s, a as bv30), b as bv30);
    ReadsTwo(s, a, b);
    ReadsTwo(s2, c, d);
    assert [a, b, c, d] == [a, b] + [c, d];
    RunInParts(s, [a, b], [c, d]);
  }

  lemma ReadsEight(s: bv30, a: nat, b: nat, c: nat, d: nat, e: nat, f: nat, g: nat, h: nat)
    requires a < 32 && b < 32 && c < 32 && d < 32 && e < 32 && f < 32 && g < 32 && h < 32
    ensures var s4 := Shift(Shift(Shift(Shift(s, a as bv30), b as bv30), c as bv30), d as bv30);
            Run(s, Words([a, b, c, d, e, f, g, h]))
            == Shift(Shift(Shift(Shift(s4, e as bv30), f as bv30), g as bv30), h as bv30)
  {
    hide Shift, Run, Words;
    ReadsFour(s, a, b, c, d);
    var s4 := Shift(Shift(Shift(Shift(s, a as bv30), b as bv30), c as bv30), d as bv30);
    ReadsFour(s4, e, f, g, h);
    EightSplit(a, b, c, d, e, f, g, h);
    RunInParts(s, [a, b, c, d], [e, f, g, h]);
  }

  lemma EightSplit(a: nat, b: nat, c: nat, d: nat, e: nat, f: nat, g: nat, h: nat)
    ensures [a, b, c, d, e, f, g, h] == [a, b, c, d] + [e, f, g, h]
  {
  }
}
