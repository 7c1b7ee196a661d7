/**
  When exactly the faucet pays: the outcome of a request in terms of the visitor, the wallet
  and the challenge, and the payout log of whole runs.
 */
module FaucetAcceptance {
  import opened FaucetStore
  import opened Faucet
  import opened FaucetRuns
  import Usage

  /** Expected claims over the planning horizon, at least one. */
  function ExpectedClaims(expectedYear: nat, horizonDays: real): (e: real)
    ensures e >= 1.0
  {
    var scaled := expectedYear as real * horizonDays / 365.0;
    if scaled > 1.0 then scaled else 1.0
  }

  lemma FloorAtLeast(x: real, n: nat)
    requires x >= 0.0
    ensures n <= Truncated(x) <==> n as real <= x
  {
  }

  lemma QuotientAtLeast(b: real, e: real, n: real)
    requires e > 0.0
    ensures n <= b / e <==> n * e <= b
  {
    var q := b / e;
    assert q * e == b;
    assert (q - n) * e == b - n * e;
    if n <= q {
      assert (q - n) * e >= 0.0;
    } else {
      assert (n - q) * e > 0.0;
    }
  }

  /** The daily cap is the largest amount every expected claim could be paid from the balance. */
  lemma DailyCapMeaning(balance: nat, expectedYear: nat, horizonDays: real, sats: nat)
    ensures sats <= DailyCap(balance, expectedYear, horizonDays)
       <==> sats as real * ExpectedClaims(expectedYear, horizonDays) <= balance as real
  {
    var e := ExpectedClaims(expectedYear, horizonDays);
    QuotientAtLeast(balance as real, e, 0.0);
    QuotientAtLeast(balance as real, e, sats as real);
    FloorAtLeast(balance as real / e, sats);
  }

  lemma BalanceCapMeaning(balance: nat, fraction: real, sats: nat)
    requires fraction >= 0.0
    ensures sats <= BalanceCap(balance, fraction) <==> sats as real <= balance as real * fraction
  {
    assert balance as real * fraction >= 0.0;
    FloorAtLeast(balance as real * fraction, sats);
  }

  /** The submitted proof answers a live, unspent challenge issued for this very request. */
  predicate ProofPays(t: Tables, cfg: FaucetCfg, r: Request, sats: nat, now: real, proof: Proof) {
    && cfg.powAvailable && proof.solved && proof.token.Issued?
    && proof.token.net == r.net && proof.token.address == r.address && proof.token.amount == sats
    && now <= Expiry(proof.token)
    && KeyOf(proof.token) !in t.nonces
  }

  /** A visitor without a proof has had no free coins for a day. */
  predicate FreeClaimLeft(t: Tables, cfg: FaucetCfg, r: Request, now: real) {
    cfg.onePerIpPerDay && r.ip.Some? && IpKey(r.net, r.ip.value) in t.ipClaims ==>
      now - t.ipClaims[IpKey(r.net, r.ip.value)] >= 86400.0
  }

  /** A visitor with a proof is below the daily cap, if there is one. */
  predicate PowClaimLeft(t: Tables, cfg: FaucetCfg, r: Request, now: real) {
    cfg.powMaxPerDay > 0 && r.ip.Some? ==>
      CountOf(t.powClaims, PowKey(r.net, r.ip.value, DayOf(now))) < cfg.powMaxPerDay
  }

  /** The amount is at least the minimum, and the known balance can afford it. */
  ghost predicate AmountAllowed(t: Tables, cfg: FaucetCfg, r: Request, sats: nat, now: real) {
    && (cfg.minClaimEnabled ==> sats >= cfg.minClaimSat)
    && (r.balance.Some? && cfg.maxAmountPerDay ==>
          var year := Usage.Expected(t.usage, r.net, Usage.Busiest(t.usage, r.net), DayOf(now));
          sats as real * ExpectedClaims(year, cfg.horizonDays) <= r.balance.value as real)
    && (r.balance.Some? && cfg.perRequestBalanceCap ==>
          sats as real <= r.balance.value as real * cfg.balanceCapFraction)
  }

  ghost predicate Entitled(t: Tables, cfg: FaucetCfg, r: Request, sats: nat, now: real) {
    && AmountAllowed(t, cfg, r, sats, now)
    && (if r.proof.Some?
        then ProofPays(t, cfg, r, sats, now, r.proof.value) && PowClaimLeft(t, cfg, r, now)
        else FreeClaimLeft(t, cfg, r, now))
  }

  lemma ProofChecks(t: Tables, cfg: FaucetCfg, r: Request, sats: nat, now: real)
    ensures var pow := VerifyPow(cfg, r, sats, now);
            && (pow.NoProof? <==> r.proof.None?)
            && (r.proof.Some? ==> (ProofPays(t, cfg, r, sats, now, r.proof.value)
                                   <==> pow.GoodProof? && KeyOf(pow.token) !in t.nonces))
  {
  }

  /** The three amount rules together are AmountAllowed. */
  lemma AmountRules(t: Tables, cfg: FaucetCfg, r: Request, sats: nat, now: real)
    requires cfg.balanceCapFraction >= 0.0
    ensures var ctx := ContextOf(cfg, t, r, sats, now);
            (AmountAllowed(t, cfg, r, sats, now)
             <==> (Check(MaxAmountPerDay, cfg, t, ctx).None? && Check(PerRequestBalanceCap, cfg, t, ctx).None?
                   && Check(MinClaim, cfg, t, ctx).None?))
  {
    hide DailyCap, BalanceCap, ExpectedClaims, Usage.Expected, VerifyPow, DayOf;
    if r.balance.Some? {
      var year := Usage.Expected(t.usage, r.net, Usage.Busiest(t.usage, r.net), DayOf(now));
      DailyCapMeaning(r.balance.value, year, cfg.horizonDays, sats);
      BalanceCapMeaning(r.balance.value, cfg.balanceCapFraction, sats);
    }
  }

  lemma VisitorRules(t: Tables, cfg: FaucetCfg, r: Request, sats: nat, now: real)
    ensures var ctx := ContextOf(cfg, t, r, sats, now);
            && (ctx.powVerified ==>
                  (PowClaimLeft(t, cfg, r, now)
                   <==> Check(OnePerIpPerDay, cfg, t, ctx).None? && Check(PowDailyCap, cfg, t, ctx).None?))
            && (!ctx.powVerified ==>
                  (FreeClaimLeft(t, cfg, r, now)
                   <==> Check(OnePerIpPerDay, cfg, t, ctx).None? && Check(PowDailyCap, cfg, t, ctx).None?))
  {
    hide LimitsOf, VerifyPow, DayOf;
  }

  lemma NoFailureIff(t: Tables, cfg: FaucetCfg, r: Request, now: real)
    requires r.sats.Some? && cfg.balanceCapFraction >= 0.0
    ensures var pow := VerifyPow(cfg, r, r.sats.value, now);
            (FailuresOf(cfg, t, r, now) == []
             <==> (r.approved && !pow.BadProof? && AmountAllowed(t, cfg, r, r.sats.value, now)
                   && (if pow.GoodProof? then PowClaimLeft(t, cfg, r, now) else FreeClaimLeft(t, cfg, r, now))))
  {
    hide VerifyPow, Failing, Check, AmountAllowed, PowClaimLeft, FreeClaimLeft;
    var sats := r.sats.value;
    var ctx := ContextOf(cfg, t, r, sats, now);
    NoneFailing(RULES, cfg, t, ctx);
    AmountRules(t, cfg, r, sats, now);
    VisitorRules(t, cfg, r, sats, now);
    AllRules(cfg, t, ctx);
    assert |AsFailures(Failing(RULES, cfg, t, ctx))| == |Failing(RULES, cfg, t, ctx)|;
  }

  lemma AllRules(cfg: FaucetCfg, t: Tables, ctx: Context)
    ensures (forall i :: 0 <= i < |RULES| ==> Check(RULES[i], cfg, t, ctx).None?)
       <==> (Check(OnePerIpPerDay, cfg, t, ctx).None? && Check(PowDailyCap, cfg, t, ctx).None?
             && Check(MaxAmountPerDay, cfg, t, ctx).None? && Check(PerRequestBalanceCap, cfg, t, ctx).None?
             && Check(MinClaim, cfg, t, ctx).None?)
  {
    hide Check;
    assert RULES[0] == OnePerIpPerDay && RULES[1] == PowDailyCap && RULES[2] == MaxAmountPerDay
        && RULES[3] == PerRequestBalanceCap && RULES[4] == MinClaim;
  }

  /**
    The faucet pays exactly the requests that are well-formed, approved, entitled and
    routable. A proof that fails blocks a request even while its free claim is unused.
   */
  lemma PaysExactly(t: Tables, cfg: FaucetCfg, r: Request, now: real)
    requires cfg.balanceCapFraction >= 0.0
    ensures Processed(t, cfg, r, now).1.Success?
       <==> (r.addressValid && r.approved && r.routed && r.sats.Some? && Entitled(t, cfg, r, r.sats.value, now))
  {
    hide VerifyPow, FailuresOf, AmountAllowed, PowClaimLeft, FreeClaimLeft, ProofPays;
    if r.sats.Some? {
      NoFailureIff(t, cfg, r, now);
      ProofChecks(t, cfg, r, r.sats.value, now);
    }
  }

  /** Every refusal keeps the tables, but for a challenge spent on a send that failed. */
  lemma RefusalsChangeNothing(t: Tables, cfg: FaucetCfg, r: Request, now: real)
    requires !Processed(t, cfg, r, now).1.Success?
    ensures Processed(t, cfg, r, now).0 == t
         || (Processed(t, cfg, r, now).1.PaymentFailure? && r.sats.Some?
             && VerifyPow(cfg, r, r.sats.value, now).GoodProof?
             && Processed(t, cfg, r, now).0
                == t.(nonces := t.nonces[KeyOf(r.proof.value.token) := Expiry(r.proof.value.token)]))
  {
    hide VerifyPow, FailuresOf;
    if r.sats.Some? && VerifyPow(cfg, r, r.sats.value, now).GoodProof? {
      GoodProofFacts(cfg, r, r.sats.value, now);
    }
  }

  // -- the payout log ------------------------------------------------------------------

  /** The payouts the answers of a run report, in order. */
  ghost function Reported(events: seq<Event>, cfgs: Configs, n: nat): seq<Payout>
    requires n <= |events|
  {
    if n == 0 then []
    else
      var result := ResultAt(events, cfgs, true, n - 1);
      Reported(events, cfgs, n - 1)
      + if result.Some? && result.value.Success?
        then [Payout(events[n - 1].r.net, result.value.sats, events[n - 1].r.address)] else []
  }

  lemma PayoutsAfter(t: Tables, cfg: FaucetCfg, r: Request, now: real)
    ensures var (t', result) := Processed(t, cfg, r, now);
            t'.payouts == t.payouts + if result.Success? then [Payout(r.net, result.sats, r.address)] else []
  {
    hide FailuresOf, VerifyPow, Upserted;
  }

  /** Over every run the payout log is exactly the answers that reported success. */
  lemma {:induction false} LogIsReported(events: seq<Event>, cfgs: Configs, n: nat)
    requires n <= |events|
    ensures Final(events[..n], cfgs, true).payouts == Reported(events, cfgs, n)
  {
    hide Processed;
    if n > 0 {
      assert events[..n][..n - 1] == events[..n - 1];
      LogIsReported(events, cfgs, n - 1);
      var before, e := Final(events[..n - 1], cfgs, true), events[n - 1];
      if e.Submit? {
        PayoutsAfter(before, cfgs(e.r.net), e.r, e.at);
      }
    }
  }

  // -- the documented bound on expected usage, on a reached table ------------------------

  lemma UsageAfter(t: Tables, cfg: FaucetCfg, r: Request, now: real)
    ensures var (t', result) := Processed(t, cfg, r, now);
            t'.usage == if result.Success? then Upserted(t.usage, DayKey(r.net, DayOf(now))) else t.usage
  {
    hide FailuresOf, VerifyPow, DayOf, Upserted;
  }

  /** The first payout of a network that starts empty leaves an expectation of 3641 claims. */
  lemma FirstPayoutBreaksTheBound(cfgs: Configs, r: Request, at: real)
    requires cfgs(r.net).balanceCapFraction >= 0.0
    requires r.addressValid && r.approved && r.routed && r.sats.Some? && r.proof.None? && r.balance.None?
    requires cfgs(r.net).minClaimEnabled ==> r.sats.value >= cfgs(r.net).minClaimSat
    ensures var run := [Submit(r, at)];
            var usage := Final(run, cfgs, true).usage;
            && ResultAt(run, cfgs, true, 0).Some? && ResultAt(run, cfgs, true, 0).value.Success?
            && Usage.IsBusiest(usage, r.net, 1) && Usage.Expected(usage, r.net, 1, DayOf(at)) == 3641
  {
    hide Processed, DayOf, Usage.Expected;
    var run := [Submit(r, at)];
    assert run[..0] == [];
    PaysExactly(EMPTY, cfgs(r.net), r, at);
    UsageAfter(EMPTY, cfgs(r.net), r, at);
    Usage.OneClaimBreaksTheBound(r.net, DayOf(at));
  }
}
