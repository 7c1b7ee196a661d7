/**
  The proof-of-work difficulty of a request, floats read as reals (argus/faucet/pow.py,
  difficulty.py).
 */
module Difficulty {
  import opened Options
  import opened Positional

  datatype PowCfg = PowCfg(
    secondsPer100k: real, minSeconds: real, maxSeconds: real, ttlSeconds: nat,
    valuePegged: bool, valueSafetyFactor: real, valueCapSeconds: real,
    balanceAnchor: bool, balanceFullSat: nat, balanceMaxMult: real,
    demandRetarget: bool, demandTargetPerDay: nat, demandMaxMult: real,
    referenceHps: real, referenceSha256dHps: real)

  /** The bounds the configuration model enforces; it does not relate minSeconds and valueCapSeconds. */
  predicate ValidCfg(cfg: PowCfg) {
    && cfg.secondsPer100k > 0.0 && 0.0 <= cfg.minSeconds <= cfg.maxSeconds && cfg.ttlSeconds >= 30
    && cfg.valueSafetyFactor > 0.0 && cfg.valueCapSeconds > 0.0
    && cfg.balanceFullSat >= 1 && cfg.balanceMaxMult >= 1.0
    && cfg.demandTargetPerDay >= 1 && cfg.demandMaxMult >= 1.0
    && cfg.referenceHps > 0.0 && cfg.referenceSha256dHps > 0.0
  }

  function Min(x: real, y: real): real {
    if x <= y then x else y
  }

  function Max(x: real, y: real): real {
    if x >= y then x else y
  }

  function Clamp(v: real, lo: real, hi: real): real {
    Max(lo, Min(hi, v))
  }

  // Products and quotients behind names, so that only their laws below are reasoned with.

  function Times(x: real, y: real): real {
    x * y
  }

  function Over(x: real, y: real): real
    requires y > 0.0
  {
    x / y
  }

  lemma TimesMono(x: real, x': real, y: real, y': real)
    requires 0.0 <= x <= x' && 0.0 <= y <= y'
    ensures 0.0 <= Times(x, y) <= Times(x', y')
  {
    assert (x' - x) * y >= 0.0;
    assert x' * (y' - y) >= 0.0;
  }

  lemma OverMono(x: real, x': real, y: real, y': real)
    requires 0.0 <= x <= x' && 0.0 < y' <= y
    ensures 0.0 <= Over(x, y) <= Over(x', y')
  {
    var q, q' := x / y, x' / y';
    assert q * y == x && q' * y' == x';
    NotNegative(q, y);
    assert q * (y - y') >= 0.0;
    assert (q' - q) * y' == x' - q * y';
    NotNegative(q' - q, y');
  }

  lemma NotNegative(d: real, y: real)
    requires y > 0.0 && d * y >= 0.0
    ensures d >= 0.0
  {
  }

  // -- seconds of work ---------------------------------------------------------------

  const TWO_32 := 4294967296.0

  /** The share of the full balance still there, between 0 and 1. */
  function BalanceShare(cfg: PowCfg, balance: nat): real
    requires cfg.balanceFullSat >= 1
  {
    Clamp(Over(balance as real, cfg.balanceFullSat as real), 0.0, 1.0)
  }

  function Anchor(cfg: PowCfg, balance: Option<nat>): real
    requires cfg.balanceFullSat >= 1
  {
    if cfg.balanceAnchor && balance.Some?
    then 1.0 + Times(cfg.balanceMaxMult - 1.0, 1.0 - BalanceShare(cfg, balance.value))
    else 1.0
  }

  function Demand(cfg: PowCfg, claimsToday: nat): real
    requires cfg.demandTargetPerDay >= 1
  {
    if cfg.demandRetarget
    then Clamp(Over(claimsToday as real, cfg.demandTargetPerDay as real), 1.0, cfg.demandMaxMult)
    else 1.0
  }

  /** The wall-clock seconds of work; None when a value-pegged network knows no subsidy. */
  function TargetSeconds(cfg: PowCfg, amount: nat, balance: Option<nat>, claimsToday: nat,
                         subsidy: Option<nat>): Option<real>
    requires ValidCfg(cfg)
  {
    if cfg.valuePegged then
      if subsidy.None? || subsidy.value == 0 then None
      else
        var hashes := Over(Times(amount as real, TWO_32), subsidy.value as real);
        var seconds := Over(Times(cfg.valueSafetyFactor, hashes), cfg.referenceSha256dHps);
        Some(Clamp(Min(seconds, cfg.valueCapSeconds), cfg.minSeconds, cfg.valueCapSeconds))
    else
      var base := Over(Times(cfg.secondsPer100k, amount as real), 100000.0);
      Some(Clamp(Times(Times(base, Anchor(cfg, balance)), Demand(cfg, claimsToday)), cfg.minSeconds, cfg.maxSeconds))
  }

  const INITIAL_SUBSIDY := 5000000000
  const HALVING_INTERVAL := 210000
  const MAX_HALVINGS := 64

  /** The block subsidy: a right shift is a division by a power of two. */
  function SubsidyForHeight(height: nat): nat {
    var halvings := height / HALVING_INTERVAL;
    if halvings >= MAX_HALVINGS then 0 else INITIAL_SUBSIDY / Pow(2, halvings)
  }

  lemma {:induction false} PowGrows(m: nat, n: nat)
    requires m <= n
    ensures Pow(2, m) <= Pow(2, n)
  {
    if m < n {
      PowGrows(m, n - 1);
    }
  }

  lemma DivideByMore(x: nat, p: nat, q: nat)
    requires 0 < p <= q
    ensures x / q <= x / p
  {
    DivModSum(x, p);
    DivModSum(x, q);
    if x / p < x / q {
      MulMono(x / p + 1, x / q, p);
      Distribute(x / p, 1, p);
      MulMono(p, q, x / q);
      assert false;
    }
  }

  lemma SubsidyFalls(height: nat, higher: nat)
    requires height <= higher
    ensures SubsidyForHeight(higher) <= SubsidyForHeight(height)
  {
    hide Pow;
    var m, n := height / HALVING_INTERVAL, higher / HALVING_INTERVAL;
    if n < MAX_HALVINGS {
      PowGrows(m, n);
      DivideByMore(INITIAL_SUBSIDY, Pow(2, m), Pow(2, n));
    }
  }

  // -- the scale of the work ------------------------------------------------------------

  /** v is x, but never under lo and, as far as lo allows, never over hi. */
  predicate Clamped(v: real, x: real, lo: real, hi: real) {
    && v >= lo && (v <= hi || v == lo)
    && (lo <= x <= hi ==> v == x) && (x < lo ==> v == lo) && (x > hi ==> v == if hi < lo then lo else hi)
  }

  /**
    On a value-pegged network the work is worth factor times the hashes that mining the
    amount would take, at 2^32 hashes for one subsidy, kept between the two clamps.
   */
  lemma PeggedScale(cfg: PowCfg, amount: nat, balance: Option<nat>, claims: nat, subsidy: nat) returns (ideal: real)
    requires ValidCfg(cfg) && cfg.valuePegged && subsidy > 0
    ensures ideal * cfg.referenceSha256dHps * subsidy as real == cfg.valueSafetyFactor * amount as real * 4294967296.0
    ensures var seconds := TargetSeconds(cfg, amount, balance, claims, Some(subsidy));
            seconds.Some? && Clamped(seconds.value, ideal, cfg.minSeconds, cfg.valueCapSeconds)
  {
    hide Times, Over;
    var hashes := Over(Times(amount as real, TWO_32), subsidy as real);
    ideal := Over(Times(cfg.valueSafetyFactor, hashes), cfg.referenceSha256dHps);
    OverTimes(Times(amount as real, TWO_32), subsidy as real);
    OverTimes(Times(cfg.valueSafetyFactor, hashes), cfg.referenceSha256dHps);
    PeggedProduct(ideal, cfg.referenceSha256dHps, subsidy as real, cfg.valueSafetyFactor, hashes, amount as real);
  }

  lemma OverTimes(x: real, y: real)
    requires y > 0.0
    ensures Over(x, y) * y == x
  {
  }

  lemma PeggedProduct(ideal: real, hps: real, subsidy: real, factor: real, hashes: real, amount: real)
    requires ideal * hps == Times(factor, hashes) && hashes * subsidy == Times(amount, TWO_32)
    ensures ideal * hps * subsidy == factor * amount * 4294967296.0
  {
    assert factor * hashes * subsidy == factor * (hashes * subsidy);
  }

  /** The balance factor: one when full or unread, its maximum when empty, and linear between. */
  lemma AnchorScale(cfg: PowCfg, balance: Option<nat>)
    requires ValidCfg(cfg)
    ensures !cfg.balanceAnchor || balance.None? ==> Anchor(cfg, balance) == 1.0
    ensures cfg.balanceAnchor && balance.Some? ==>
              var full := cfg.balanceFullSat as real;
              var missing := if balance.value < cfg.balanceFullSat then full - balance.value as real else 0.0;
              (Anchor(cfg, balance) - 1.0) * full == (cfg.balanceMaxMult - 1.0) * missing
  {
    hide Over;
    if cfg.balanceAnchor && balance.Some? {
      var full, b := cfg.balanceFullSat as real, balance.value as real;
      OverTimes(b, full);
      OverMono(b, b, full, full);
      OneWhenFull(b, full);
      assert (1.0 - BalanceShare(cfg, balance.value)) * full
          == if balance.value < cfg.balanceFullSat then full - b else 0.0;
      Rearranged(cfg.balanceMaxMult - 1.0, 1.0 - BalanceShare(cfg, balance.value), full);
    }
  }

  lemma OneWhenFull(b: real, full: real)
    requires full > 0.0 && b >= 0.0
    ensures Over(b, full) < 1.0 <==> b < full
  {
    hide Over;
    QuotientBounds(b, full, 1.0);
  }

  lemma Rearranged(x: real, y: real, z: real)
    ensures Times(x, y) * z == x * (y * z)
  {
  }

  /** The demand factor: claims over target, between one and the maximum. */
  lemma DemandScale(cfg: PowCfg, claims: nat) returns (share: real)
    requires ValidCfg(cfg)
    ensures share * cfg.demandTargetPerDay as real == claims as real
    ensures Demand(cfg, claims) == if !cfg.demandRetarget || share <= 1.0 then 1.0
                                   else if share <= cfg.demandMaxMult then share else cfg.demandMaxMult
  {
    hide Over;
    share := Over(claims as real, cfg.demandTargetPerDay as real);
    OverTimes(claims as real, cfg.demandTargetPerDay as real);
  }

  /** Elsewhere: the seconds per 100000 sats, times both factors, kept between the two clamps. */
  lemma FlatScale(cfg: PowCfg, amount: nat, balance: Option<nat>, claims: nat, subsidy: Option<nat>)
    returns (ideal: real)
    requires ValidCfg(cfg) && !cfg.valuePegged
    ensures ideal * 100000.0 == cfg.secondsPer100k * amount as real * Anchor(cfg, balance) * Demand(cfg, claims)
    ensures var seconds := TargetSeconds(cfg, amount, balance, claims, subsidy);
            seconds.Some? && Clamped(seconds.value, ideal, cfg.minSeconds, cfg.maxSeconds)
  {
    hide Times, Over, Anchor, Demand;
    var base := Over(Times(cfg.secondsPer100k, amount as real), 100000.0);
    ideal := Times(Times(base, Anchor(cfg, balance)), Demand(cfg, claims));
    OverTimes(Times(cfg.secondsPer100k, amount as real), 100000.0);
    FlatProduct(base, cfg.secondsPer100k, amount as real, Anchor(cfg, balance), Demand(cfg, claims));
  }

  lemma FlatProduct(base: real, rate: real, amount: real, anchor: real, demand: real)
    requires base * 100000.0 == Times(rate, amount)
    ensures Times(Times(base, anchor), demand) * 100000.0 == rate * amount * anchor * demand
  {
    assert base * anchor * demand * 100000.0 == base * 100000.0 * anchor * demand;
  }

  /** Only a value-pegged network without a positive subsidy offers no proof of work. */
  lemma OfferedIff(cfg: PowCfg, amount: nat, balance: Option<nat>, claims: nat, subsidy: Option<nat>)
    requires ValidCfg(cfg)
    ensures TargetSeconds(cfg, amount, balance, claims, subsidy).None?
       <==> cfg.valuePegged && (subsidy.None? || subsidy.value == 0)
  {
    hide Times, Over;
  }

  /** Fifty coins at first, half as many sats, rounded down, every 210000 blocks, none after 64 halvings. */
  lemma SubsidyHalves(height: nat)
    ensures height < 210000 ==> SubsidyForHeight(height) == 5000000000
    ensures SubsidyForHeight(height + 210000) == SubsidyForHeight(height) / 2
    ensures height >= 64 * 210000 ==> SubsidyForHeight(height) == 0
  {
    hide Pow;
    var n := height / HALVING_INTERVAL;
    assert (height + 210000) / HALVING_INTERVAL == n + 1;
    PowersOfTwo(n);
    if n + 1 < MAX_HALVINGS {
      HalveAgain(INITIAL_SUBSIDY, Pow(2, n));
    } else if n + 1 == MAX_HALVINGS {
      NothingLeft(n);
    }
  }

  lemma PowersOfTwo(n: nat)
    ensures Pow(2, n + 1) == 2 * Pow(2, n) && Pow(2, n) > 0 && Pow(2, 0) == 1
  {
  }

  lemma HalveAgain(x: nat, p: nat)
    requires p > 0
    ensures x / (2 * p) == x / p / 2
  {
    var q := x / p;
    DivModSum(x, p);
    assert x == q / 2 * (2 * p) + ((q % 2) * p + x % p);
    assert (q % 2) * p + x % p < 2 * p;
    DivModUnique(q / 2, 2 * p, (q % 2) * p + x % p);
  }

  lemma NothingLeft(n: nat)
    requires n == 63
    ensures INITIAL_SUBSIDY / Pow(2, n) == 0
  {
    FortyDoublings();
    PowGrows(40, n);
    hide Pow;
    DivModUnique(0, Pow(2, n), INITIAL_SUBSIDY);
  }

  lemma FortyDoublings()
    ensures Pow(2, 40) == 1099511627776
  {
    assert Pow(2, 5) == 32;
    hide Pow;
    PowSplit(2, 5, 5);
    PowSplit(2, 10, 10);
    PowSplit(2, 20, 20);
  }

  // -- monotone difficulty --------------------------------------------------------------

  lemma AnchorFalls(cfg: PowCfg, balance: nat, lower: nat)
    requires ValidCfg(cfg) && lower <= balance
    ensures 1.0 <= Anchor(cfg, Some(balance)) <= Anchor(cfg, Some(lower)) <= cfg.balanceMaxMult
  {
    hide Times, Over;
    OverMono(lower as real, balance as real, cfg.balanceFullSat as real, cfg.balanceFullSat as real);
    var more, less := 1.0 - BalanceShare(cfg, balance), 1.0 - BalanceShare(cfg, lower);
    TimesMono(cfg.balanceMaxMult - 1.0, cfg.balanceMaxMult - 1.0, more, less);
    TimesMono(cfg.balanceMaxMult - 1.0, cfg.balanceMaxMult - 1.0, less, 1.0);
    TimesOne(cfg.balanceMaxMult - 1.0);
  }

  lemma TimesOne(x: real)
    ensures Times(x, 1.0) == x
  {
  }

  lemma DemandGrows(cfg: PowCfg, claims: nat, more: nat)
    requires ValidCfg(cfg) && claims <= more
    ensures 1.0 <= Demand(cfg, claims) <= Demand(cfg, more) <= cfg.demandMaxMult
  {
    hide Over;
    OverMono(claims as real, more as real, cfg.demandTargetPerDay as real, cfg.demandTargetPerDay as real);
  }

  /** A balance that is lower, or as unknown as before. */
  predicate NoRicher(balance: Option<nat>, other: Option<nat>) {
    balance == other || (balance.Some? && other.Some? && balance.value <= other.value)
  }

  /** A harder request never takes fewer seconds, and is offered no more widely. */
  lemma HarderTakesLonger(cfg: PowCfg, amount: nat, balance: Option<nat>, claims: nat, height: nat,
                          amount': nat, balance': Option<nat>, claims': nat, height': nat)
    requires ValidCfg(cfg) && amount <= amount' && NoRicher(balance', balance) && claims <= claims' && height <= height'
    ensures var easy, hard := TargetSeconds(cfg, amount, balance, claims, Some(SubsidyForHeight(height))),
                              TargetSeconds(cfg, amount', balance', claims', Some(SubsidyForHeight(height')));
            hard.Some? ==> easy.Some? && easy.value <= hard.value
  {
    hide Times, Over, SubsidyForHeight, Anchor, Demand;
    if cfg.valuePegged {
      SubsidyFalls(height, height');
      var s, s' := SubsidyForHeight(height) as real, SubsidyForHeight(height') as real;
      if s' > 0.0 {
        TimesMono(amount as real, amount' as real, TWO_32, TWO_32);
        OverMono(Times(amount as real, TWO_32), Times(amount' as real, TWO_32), s, s');
        var h, h' := Over(Times(amount as real, TWO_32), s), Over(Times(amount' as real, TWO_32), s');
        TimesMono(cfg.valueSafetyFactor, cfg.valueSafetyFactor, h, h');
        OverMono(Times(cfg.valueSafetyFactor, h), Times(cfg.valueSafetyFactor, h'),
                 cfg.referenceSha256dHps, cfg.referenceSha256dHps);
      }
    } else {
      FlatTakesLonger(cfg, amount, balance, claims, amount', balance', claims');
    }
  }

  lemma FlatTakesLonger(cfg: PowCfg, amount: nat, balance: Option<nat>, claims: nat,
                        amount': nat, balance': Option<nat>, claims': nat)
    requires ValidCfg(cfg) && amount <= amount' && NoRicher(balance', balance) && claims <= claims'
    ensures var base, base' := Over(Times(cfg.secondsPer100k, amount as real), 100000.0),
                               Over(Times(cfg.secondsPer100k, amount' as real), 100000.0);
            (Times(Times(base, Anchor(cfg, balance)), Demand(cfg, claims))
             <= Times(Times(base', Anchor(cfg, balance')), Demand(cfg, claims')))
  {
    hide Times, Over, Demand;
    var base, base' := Over(Times(cfg.secondsPer100k, amount as real), 100000.0),
                       Over(Times(cfg.secondsPer100k, amount' as real), 100000.0);
    TimesMono(cfg.secondsPer100k, cfg.secondsPer100k, amount as real, amount' as real);
    OverMono(Times(cfg.secondsPer100k, amount as real), Times(cfg.secondsPer100k, amount' as real), 100000.0, 100000.0);
    if balance.Some? {
      AnchorFalls(cfg, balance.value, balance'.value);
    }
    TimesMono(base, base', Anchor(cfg, balance), Anchor(cfg, balance'));
    DemandGrows(cfg, claims, claims');
    TimesMono(Times(base, Anchor(cfg, balance)), Times(base', Anchor(cfg, balance')),
              Demand(cfg, claims), Demand(cfg, claims'));
  }

  /** The ceiling that applies to a network. */
  function CapOf(cfg: PowCfg): real {
    if cfg.valuePegged then cfg.valueCapSeconds else cfg.maxSeconds
  }

  /**
    Seconds never fall under the minimum. They stay under the cap for every request exactly
    when the minimum does, which validation only enforces for networks that are not pegged.
   */
  lemma ClampsHold(cfg: PowCfg)
    requires ValidCfg(cfg)
    ensures forall amount, balance, claims, subsidy ::
              var seconds := TargetSeconds(cfg, amount, balance, claims, subsidy);
              seconds.Some? ==> cfg.minSeconds <= seconds.value
    ensures (forall amount, balance, claims, subsidy ::
               var seconds := TargetSeconds(cfg, amount, balance, claims, subsidy);
               seconds.Some? ==> seconds.value <= CapOf(cfg))
            <==> cfg.minSeconds <= CapOf(cfg)
    ensures !cfg.valuePegged ==> cfg.minSeconds <= CapOf(cfg)
  {
    hide Times, Over;
    var one := TargetSeconds(cfg, 0, None, 0, Some(1));
    assert one.Some? && cfg.minSeconds <= one.value;
  }

  /**
    The demand factor is at its maximum exactly from target * maximum claims a day on, not
    from the target itself.
   */
  lemma DemandPeaks(cfg: PowCfg, claims: nat)
    requires ValidCfg(cfg) && cfg.demandRetarget
    ensures Demand(cfg, claims) == cfg.demandMaxMult
       <==> (claims as real >= Times(cfg.demandTargetPerDay as real, cfg.demandMaxMult) || cfg.demandMaxMult == 1.0)
  {
    var t, q := cfg.demandTargetPerDay as real, claims as real / cfg.demandTargetPerDay as real;
    assert q * t == claims as real;
    if q >= cfg.demandMaxMult {
      assert (q - cfg.demandMaxMult) * t >= 0.0;
    } else {
      assert (cfg.demandMaxMult - q) * t > 0.0;
    }
  }

  // -- the hash target and the token's lifetime ---------------------------------------------

  function ExpectedHashes(seconds: real, hps: real): (e: real)
    ensures e >= 1.0
  {
    Max(1.0, Times(seconds, hps))
  }

  /** The threshold: range is 2^256, the number of digests. */
  function HashTarget(expected: real, range: nat): int
    requires expected >= 1.0 && range > 0
  {
    var t := Over(range as real, expected).Floor;
    if t <= range - 1 then t else range - 1
  }

  lemma QuotientBounds(n: real, y: real, t: real)
    requires y > 0.0
    ensures t <= Over(n, y) <==> Times(t, y) <= n
  {
    var q := n / y;
    assert q * y == n;
    assert (q - t) * y == n - t * y;
    if t <= q {
      assert (q - t) * y >= 0.0;
    } else {
      assert (t - q) * y > 0.0;
    }
  }

  /** A digest wins with probability at most one in expected, as close as an integer gets. */
  lemma TargetMatchesExpected(expected: real, range: nat)
    requires expected >= 1.0 && range > 0
    ensures var t := HashTarget(expected, range);
            && 0 <= t < range
            && Times(t as real, expected) <= range as real
            && (t < range - 1 ==> Times((t + 1) as real, expected) > range as real)
  {
    hide Times, Over;
    var t := HashTarget(expected, range);
    OverMono(range as real, range as real, expected, expected);
    QuotientBounds(range as real, expected, t as real);
    QuotientBounds(range as real, expected, (t + 1) as real);
  }

  /** A request's target makes seconds of work at the reference speed the expected number of tries. */
  lemma TargetTakesSeconds(seconds: real, hps: real)
    requires seconds >= 0.0 && hps > 0.0 && seconds * hps >= 1.0
    ensures var range := Pow(2, 256);
            var target := HashTarget(ExpectedHashes(seconds, hps), range);
            && target as real * (seconds * hps) <= range as real
            && (target < range - 1 ==> (target + 1) as real * (seconds * hps) > range as real)
  {
    hide Pow;
    TargetMatchesExpected(ExpectedHashes(seconds, hps), Pow(2, 256));
  }

  /** More seconds of work never give an easier target. */
  lemma LongerIsHarder(seconds: real, longer: real, hps: real, range: nat)
    requires 0.0 <= seconds <= longer && hps > 0.0 && range > 0
    ensures HashTarget(ExpectedHashes(longer, hps), range) <= HashTarget(ExpectedHashes(seconds, hps), range)
  {
    hide Times, Over;
    TimesMono(seconds, longer, hps, hps);
    OverMono(range as real, range as real, ExpectedHashes(longer, hps), ExpectedHashes(seconds, hps));
  }

  /** A harder request never gets an easier hash target. */
  lemma HarderTarget(cfg: PowCfg, range: nat, amount: nat, balance: Option<nat>, claims: nat, height: nat,
                     amount': nat, balance': Option<nat>, claims': nat, height': nat)
    requires ValidCfg(cfg) && range > 0
    requires amount <= amount' && NoRicher(balance', balance) && claims <= claims' && height <= height'
    ensures var easy, hard := TargetSeconds(cfg, amount, balance, claims, Some(SubsidyForHeight(height))),
                              TargetSeconds(cfg, amount', balance', claims', Some(SubsidyForHeight(height')));
            hard.Some? ==>
              && easy.Some?
              && HashTarget(ExpectedHashes(hard.value, cfg.referenceHps), range)
                 <= HashTarget(ExpectedHashes(easy.value, cfg.referenceHps), range)
  {
    hide TargetSeconds, SubsidyForHeight, HashTarget;
    HarderTakesLonger(cfg, amount, balance, claims, height, amount', balance', claims', height');
    var easy, hard := TargetSeconds(cfg, amount, balance, claims, Some(SubsidyForHeight(height))),
                      TargetSeconds(cfg, amount', balance', claims', Some(SubsidyForHeight(height')));
    if hard.Some? {
      ClampsHold(cfg);
      LongerIsHarder(easy.value, hard.value, cfg.referenceHps, range);
    }
  }

  function Ceiling(x: real): int {
    -((-x).Floor)
  }

  function EffectiveTtl(seconds: real, ttlSeconds: nat): int {
    var twice := Ceiling(2.0 * seconds);
    if ttlSeconds >= twice then ttlSeconds else twice
  }

  /** The token lives at least twice the estimate, and no longer than that or the setting asks. */
  lemma TimeToSolve(seconds: real, ttlSeconds: nat)
    ensures var ttl := EffectiveTtl(seconds, ttlSeconds) as real;
            && ttl >= 2.0 * seconds && ttl >= ttlSeconds as real
            && (ttl == ttlSeconds as real || ttl < 2.0 * seconds + 1.0)
  {
  }
}
