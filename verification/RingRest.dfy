/**
  Where the rebalancer comes to rest: its band test and its minimum amount together, and the
  payments that stay planned for ever because the ring cannot carry them.
 */
module RingRest {
  import opened Positional
  import opened Ring

  /** The share lies in the band, whole percents rounded down as in the shell. */
  predicate InBandShare(local: nat, c: nat, cfg: Config) {
    cfg.low * c <= 100 * local < (cfg.high + 1) * c
  }

  /** Both of a node's channels are in the band. */
  predicate InBand(t: Triangle, n: Node, cfg: Config)
    requires t.Valid()
  {
    InBandShare(t.Forward(n), t.c, cfg) && InBandShare(t.Backward(n), t.c, cfg)
  }

  lemma RatioInBand(local: nat, c: nat, cfg: Config)
    requires c > 0
    ensures cfg.low <= local * 100 / c <= cfg.high <==> InBandShare(local, c, cfg)
  {
    var q := local * 100 / c;
    DivModSum(local * 100, c);
    if cfg.low <= q {
      MulMono(cfg.low, q, c);
    } else {
      MulMono(q + 1, cfg.low, c);
      Distribute(q, 1, c);
    }
    if q <= cfg.high {
      MulMono(q + 1, cfg.high + 1, c);
      Distribute(q, 1, c);
    } else {
      MulMono(cfg.high + 1, q, c);
    }
  }

  /** The shell's test of its two extremes is the band test of both channels. */
  lemma BandTest(t: Triangle, n: Node, swapped: bool, cfg: Config)
    requires t.Valid()
    ensures var e := Scan(Listing(t, n, swapped));
            e.hiRatio <= cfg.high && e.loRatio >= cfg.low <==> InBand(t, n, cfg)
  {
    hide Ratio, InBandShare, Scan;
    var ahead, behind := Line(true, Next(n), t.Forward(n), t.c), Line(true, Prev(n), t.Backward(n), t.c);
    ListingScan(t, n, swapped);
    RatioBound(ahead);
    RatioBound(behind);
    RatioIs(ahead);
    RatioIs(behind);
    RatioInBand(t.Forward(n), t.c, cfg);
    RatioInBand(t.Backward(n), t.c, cfg);
    Twice(ahead, behind);
    Twice(behind, ahead);
  }

  lemma RatioIs(line: Line)
    requires line.capacity > 0
    ensures Ratio(line) == line.local * 100 / line.capacity
  {
  }

  /** The extremes of two channels are their larger and smaller share. */
  lemma Twice(a: Line, b: Line)
    requires a.active && b.active && 0 < a.capacity && 0 < b.capacity && Ratio(a) <= 100 && Ratio(b) <= 100
    ensures var e := Note(Note(NOTHING_SEEN, a), b);
            && (e.hiRatio == Ratio(a) || e.hiRatio == Ratio(b)) && e.hiRatio >= Ratio(a) && e.hiRatio >= Ratio(b)
            && (e.loRatio == Ratio(a) || e.loRatio == Ratio(b)) && e.loRatio <= Ratio(a) && e.loRatio <= Ratio(b)
  {
    hide Ratio;
  }

  // -- quiet states -------------------------------------------------------------------

  /** No node plans a payment, in either listing order: the script does nothing. */
  ghost predicate Quiet(t: Triangle, cfg: Config)
    requires t.Valid()
  {
    forall n: Node, swapped :: Planned(Listing(t, n, swapped), cfg).None?
  }

  lemma PlansNothing(t: Triangle, n: Node, swapped: bool, cfg: Config)
    requires t.Valid() && cfg.minRebal > 0
    ensures Planned(Listing(t, n, swapped), cfg).None?
       <==> InBand(t, n, cfg) || (!Excess(t, n, cfg.minRebal) && !Shortage(t, n, cfg.minRebal))
  {
    hide Scan, Amount, Excess, Shortage, InBand;
    BandTest(t, n, swapped, cfg);
    ListingScan(t, n, swapped);
    AmountMeaning(t, n, swapped, cfg.minRebal);
  }

  /**
    The script is quiet exactly when every node is in the band or has no two channels off
    balance the same way by the minimum amount.
   */
  lemma QuietMeaning(t: Triangle, cfg: Config)
    requires t.Valid() && cfg.minRebal > 0
    ensures Quiet(t, cfg)
       <==> forall n: Node :: InBand(t, n, cfg) || (!Excess(t, n, cfg.minRebal) && !Shortage(t, n, cfg.minRebal))
  {
    hide Planned, Excess, Shortage, InBand;
    forall n: Node, swapped
      ensures Planned(Listing(t, n, swapped), cfg).None?
         <==> InBand(t, n, cfg) || (!Excess(t, n, cfg.minRebal) && !Shortage(t, n, cfg.minRebal))
    {
      PlansNothing(t, n, swapped, cfg);
    }
    if Quiet(t, cfg) {
      forall n: Node
        ensures InBand(t, n, cfg) || (!Excess(t, n, cfg.minRebal) && !Shortage(t, n, cfg.minRebal))
      {
        assert Planned(Listing(t, n, false), cfg).None?;
      }
    }
  }

  function CeilDiv(x: int): int {
    (x + 99) / 100
  }

  function Max(a: int, b: int): int {
    if a < b then b else a
  }

  /** The farthest a share in the band can be from half, one more than it. */
  function BandReach(c: nat, cfg: Config): int {
    Max(CeilDiv((cfg.high + 1) * c) - c / 2, c / 2 + 1 - CeilDiv(cfg.low * c))
  }

  /** How far from half a quiet ring may still be: what the band or the minimum allows. */
  function RestReach(c: nat, cfg: Config): int {
    Max(cfg.minRebal, BandReach(c, cfg))
  }

  lemma BandBounds(c: nat, local: nat, cfg: Config)
    requires InBandShare(local, c, cfg)
    ensures c / 2 - BandReach(c, cfg) < local < c / 2 + BandReach(c, cfg)
  {
    hide InBandShare;
    InBandPercent(c, local, cfg);
  }

  lemma InBandPercent(c: nat, local: nat, cfg: Config)
    requires InBandShare(local, c, cfg)
    ensures CeilDiv(cfg.low * c) <= local < CeilDiv((cfg.high + 1) * c)
  {
    var low, high := cfg.low * c, (cfg.high + 1) * c;
    assert low <= 100 * local < high;
  }

  /** A quiet ring has no excess or shortage beyond the reach. */
  lemma QuietIsAtRest(t: Triangle, cfg: Config)
    requires t.Valid() && cfg.minRebal > 0 && Quiet(t, cfg)
    ensures AtRest(t, RestReach(t.c, cfg))
  {
    hide AtRest, Quiet, InBandShare, BandReach;
    var m := RestReach(t.c, cfg);
    QuietMeaning(t, cfg);
    forall n: Node ensures !Excess(t, n, m) && !Shortage(t, n, m) {
      if InBand(t, n, cfg) {
        BandBounds(t.c, t.Forward(n), cfg);
      }
    }
    AtRestMeaning(t, m);
  }

  /**
    Where the script stops: in a quiet ring at most one channel is off by the reach in each
    direction, and the median channel is within the reach of half.
   */
  lemma QuietBounds(t: Triangle, cfg: Config)
    requires t.Valid() && cfg.minRebal > 0 && Quiet(t, cfg)
    ensures var m := RestReach(t.c, cfg);
            OneEachWay(t, m) && t.c / 2 - m < Median(t.x, t.y, t.z) < t.c - t.c / 2 + m
  {
    hide AtRest, Quiet, RestReach, OneEachWay, Median;
    QuietIsAtRest(t, cfg);
    ReachPositive(t.c, cfg);
    Fixpoint(t, RestReach(t.c, cfg));
  }

  lemma ReachPositive(c: nat, cfg: Config)
    requires cfg.minRebal > 0
    ensures RestReach(c, cfg) > 0
  {
  }

  /** The band is what keeps a ring that far off: skewed by ten times the minimum, and quiet. */
  lemma BandHidesSkew()
    ensures var t, cfg := Triangle(100000, 60000, 60000, 50000), Config(35, 65, 1000);
            Quiet(t, cfg) && !OneEachWay(t, 10000)
  {
    var t, cfg := Triangle(100000, 60000, 60000, 50000), Config(35, 65, 1000);
    forall n: Node ensures InBand(t, n, cfg) {
      match n {
        case First =>
        case Second =>
        case Third =>
      }
    }
    QuietMeaning(t, cfg);
  }

  /**
    No call of any node moves anything exactly when every planned payment needs more than
    the channel its node cannot see can carry; a quiet ring plans none.
   */
  lemma NothingMovesIff(t: Triangle, cfg: Config)
    requires t.Valid() && cfg.minRebal > 0
    ensures (forall a: Attempt :: Attempted(t, a, cfg) == t)
       <==> forall n: Node, swapped :: var p := Planned(Listing(t, n, swapped), cfg);
                                       p.Some? ==> !MiddleCarries(t, n, Direction(n, p.value))
  {
    hide Planned, MiddleCarries, Feasible;
    forall n: Node, swapped
      ensures var p := Planned(Listing(t, n, swapped), cfg);
              Attempted(t, Attempt(n, swapped, true), cfg) == t
              <==> (p.Some? ==> !MiddleCarries(t, n, Direction(n, p.value)))
    {
      MovesIff(t, n, swapped, cfg);
    }
    forall a: Attempt
      ensures Attempted(t, Attempt(a.node, a.swapped, true), cfg) == t ==> Attempted(t, a, cfg) == t
    {
    }
  }

  lemma MovesIff(t: Triangle, n: Node, swapped: bool, cfg: Config)
    requires t.Valid() && cfg.minRebal > 0
    ensures var p := Planned(Listing(t, n, swapped), cfg);
            Attempted(t, Attempt(n, swapped, true), cfg) == t
            <==> (p.Some? ==> !MiddleCarries(t, n, Direction(n, p.value)))
  {
    hide Scan, MiddleCarries, Feasible, Amount;
    var p := Planned(Listing(t, n, swapped), cfg);
    if p.Some? {
      FeasibleIffMiddleCarries(t, n, swapped, cfg);
      if Feasible(t, Direction(n, p.value)) {
        ShiftMoves(t, Direction(n, p.value));
      }
    }
  }

  lemma ShiftMoves(t: Triangle, d: int)
    requires Feasible(t, d) && d != 0
    ensures t.Shift(d) != t
  {
  }

  // -- settling -----------------------------------------------------------------------

  /** The order in which lncli lists its two channels does not change what a node plans. */
  lemma PlanIgnoresOrder(t: Triangle, n: Node, cfg: Config)
    requires t.Valid() && cfg.minRebal > 0
    ensures Planned(Listing(t, n, true), cfg) == Planned(Listing(t, n, false), cfg)
  {
    hide Scan, Amount, Excess, Shortage, InBand;
    var a, b := Amount(Scan(Listing(t, n, true))), Amount(Scan(Listing(t, n, false)));
    BandTest(t, n, true, cfg);
    BandTest(t, n, false, cfg);
    ListingScan(t, n, true);
    ListingScan(t, n, false);
    NextIsNotPrev(n);
    if a > 0 {
      AmountMeaning(t, n, true, a);
      AmountMeaning(t, n, false, a);
    }
    if b > 0 {
      AmountMeaning(t, n, true, b);
      AmountMeaning(t, n, false, b);
    }
  }

  /** No call of any node moves anything. */
  ghost predicate Settled(t: Triangle, cfg: Config)
    requires t.Valid()
  {
    forall a: Attempt :: Attempted(t, a, cfg) == t
  }

  /** One turn of the loop with every payment routed; the flags are the listing orders. */
  datatype Round = Round(first: bool, second: bool, third: bool)

  function Attempts(r: Round): seq<Attempt> {
    [Attempt(First, r.first, true), Attempt(Second, r.second, true), Attempt(Third, r.third, true)]
  }

  function AfterRounds(t: Triangle, rounds: seq<Round>, cfg: Config): (t': Triangle)
    requires t.Valid()
    ensures t'.Valid()
  {
    if rounds == [] then t
    else AfterAll(AfterRounds(t, rounds[..|rounds| - 1], cfg), Attempts(rounds[|rounds| - 1]), cfg)
  }

  /** A whole turn leaves a settled ring alone. */
  lemma SettledRound(t: Triangle, r: Round, cfg: Config)
    requires t.Valid() && Settled(t, cfg)
    ensures AfterAll(t, Attempts(r), cfg) == t
  {
    hide Attempted;
    var a1, a2, a3 := Attempt(First, r.first, true), Attempt(Second, r.second, true), Attempt(Third, r.third, true);
    ThreeAttempts(t, a1, a2, a3, cfg);
  }

  /** An attempt never raises the imbalance, and lowers it when it moves. */
  lemma AttemptLowers(t: Triangle, a: Attempt, cfg: Config)
    requires t.Valid() && cfg.minRebal > 0 && Gain(t.c, cfg.minRebal) > 0
    ensures Attempted(t, a, cfg).Valid() && Attempted(t, a, cfg).c == t.c
    ensures Attempted(t, a, cfg) == t || Imbalance(Attempted(t, a, cfg)) + Gain(t.c, cfg.minRebal) <= Imbalance(t)
  {
    hide Planned, Imbalance;
    if Attempted(t, a, cfg) != t {
      MoveLowersImbalance(t, a, cfg);
    }
  }

  /** A turn that does not find the ring settled brings it closer to balance. */
  lemma RoundProgress(t: Triangle, r: Round, cfg: Config)
    requires t.Valid() && cfg.minRebal > 0 && Gain(t.c, cfg.minRebal) > 0 && !Settled(t, cfg)
    ensures AfterAll(t, Attempts(r), cfg).c == t.c
    ensures Imbalance(AfterAll(t, Attempts(r), cfg)) + Gain(t.c, cfg.minRebal) <= Imbalance(t)
  {
    hide Attempted, Imbalance, Gain;
    var a1, a2, a3 := Attempt(First, r.first, true), Attempt(Second, r.second, true), Attempt(Third, r.third, true);
    ThreeAttempts(t, a1, a2, a3, cfg);
    var t1 := Attempted(t, a1, cfg);
    var t2 := Attempted(t1, a2, cfg);
    AttemptLowers(t, a1, cfg);
    AttemptLowers(t1, a2, cfg);
    AttemptLowers(t2, a3, cfg);
    var a: Attempt :| Attempted(t, a, cfg) != t;
    RoutedMoves(t, a, r, cfg);
  }

  /** Whatever can move a ring moves it in a turn's own call of that node. */
  lemma RoutedMoves(t: Triangle, a: Attempt, r: Round, cfg: Config)
    requires t.Valid() && cfg.minRebal > 0 && Attempted(t, a, cfg) != t
    ensures exists b: Attempt :: b in Attempts(r) && b.node == a.node && Attempted(t, b, cfg) != t
  {
    hide Planned;
    var b := Attempts(r)[if a.node.First? then 0 else if a.node.Second? then 1 else 2];
    PlanIgnoresOrder(t, a.node, cfg);
    assert b in Attempts(r) && Attempted(t, b, cfg) == Attempted(t, a, cfg);
  }

  lemma {:induction false} EveryRoundCounts(t: Triangle, rounds: seq<Round>, cfg: Config)
    requires t.Valid() && cfg.minRebal > 0 && Gain(t.c, cfg.minRebal) > 0
    ensures var t' := AfterRounds(t, rounds, cfg);
            t'.c == t.c
            && (Settled(t', cfg) || |rounds| * Gain(t.c, cfg.minRebal) + Imbalance(t') <= Imbalance(t))
  {
    hide Settled, Imbalance, Gain, AfterAll;
    if rounds != [] {
      var n, gain := |rounds| - 1, Gain(t.c, cfg.minRebal);
      var before := AfterRounds(t, rounds[..n], cfg);
      EveryRoundCounts(t, rounds[..n], cfg);
      Distribute(n, 1, gain);
      if Settled(before, cfg) {
        SettledRound(before, rounds[n], cfg);
      } else {
        RoundProgress(before, rounds[n], cfg);
      }
    }
  }

  /**
    With every payment routed the loop settles: after more turns than the initial imbalance
    has gains of the minimum amount, no call moves anything again, every node keeps its
    total, and what is still planned is more than the unseen channel can carry.
   */
  lemma LoopSettles(t: Triangle, rounds: seq<Round>, cfg: Config)
    requires t.Valid() && cfg.minRebal > 0
    requires |rounds| * Gain(t.c, cfg.minRebal) > Imbalance(t)
    ensures var t' := AfterRounds(t, rounds, cfg);
            && Settled(t', cfg) && (forall n: Node :: t'.Total(n) == t.Total(n))
            && (forall n: Node, swapped :: var p := Planned(Listing(t', n, swapped), cfg);
                                           p.Some? ==> !MiddleCarries(t', n, Direction(n, p.value)))
  {
    hide Imbalance, Gain, Planned, MiddleCarries, AfterRounds;
    var t' := AfterRounds(t, rounds, cfg);
    if Gain(t.c, cfg.minRebal) <= 0 {
      MulMono(Gain(t.c, cfg.minRebal), 0, |rounds|);
    }
    EveryRoundCounts(t, rounds, cfg);
    forall n: Node ensures t'.Total(n) == t.Total(n) {
      RoundsConserve(t, rounds, cfg, n);
    }
    NothingMovesIff(t', cfg);
  }

  lemma {:induction false} RoundsConserve(t: Triangle, rounds: seq<Round>, cfg: Config, n: Node)
    requires t.Valid()
    ensures AfterRounds(t, rounds, cfg).Total(n) == t.Total(n)
  {
    hide AfterAll;
    if rounds != [] {
      RoundsConserve(t, rounds[..|rounds| - 1], cfg, n);
      Conserved(AfterRounds(t, rounds[..|rounds| - 1], cfg), Attempts(rounds[|rounds| - 1]), cfg, n);
    }
  }

  /** Turns after which any ring has settled under the generated minimum amount. */
  const ENOUGH_TURNS := 1504

  lemma EnoughTurns(t: Triangle, turns: nat)
    requires t.Valid() && turns >= ENOUGH_TURNS
    ensures turns * Gain(t.c, MinRebal(t.c)) > Imbalance(t)
  {
    var gain := Gain(t.c, MinRebal(t.c));
    MulMono(ENOUGH_TURNS, turns, gain);
    ImbalanceBound(t);
  }

  lemma ImbalanceBound(t: Triangle)
    requires t.Valid()
    ensures Imbalance(t) <= 3 * t.c
  {
  }

  /** As generated, whatever the capacity and the balances: 1504 routed turns settle the ring. */
  lemma GeneratedRingSettles(t: Triangle, rounds: seq<Round>, cfg: Config)
    requires t.Valid() && cfg.minRebal == MinRebal(t.c) && |rounds| >= ENOUGH_TURNS
    ensures Settled(AfterRounds(t, rounds, cfg), cfg)
  {
    hide Settled, Gain, Imbalance, AfterRounds;
    EnoughTurns(t, |rounds|);
    LoopSettles(t, rounds, cfg);
  }
}
