/**
  One dispense request of the faucet: proof-of-work verification, the speed-limit rules and
  the order of redeem, send and record (argus/faucet/app.py, rules.py, pow.py).
 */
module Faucet {
  import opened Options
  import opened FaucetStore
  import Usage

  datatype FaucetCfg = FaucetCfg(
    onePerIpPerDay: bool, maxAmountPerDay: bool, horizonDays: real,
    perRequestBalanceCap: bool, balanceCapFraction: real,
    minClaimEnabled: bool, minClaimSat: nat,
    powAvailable: bool, powMaxPerDay: nat)

  /** A submitted challenge: forged, or one the server signed for a bound request. */
  datatype Token =
    | Forged
    | Issued(net: string, address: string, amount: nat, issuedAt: int, ttl: int, nonce: string)

  type IssuedToken = t: Token | t.Issued? witness Issued("", "", 0, 0, 0, "")

  datatype Proof = Proof(token: Token, solved: bool)

  /** A request as parsed; balance is the node's answer, routed whether the send succeeds. */
  datatype Request = Request(
    net: string, address: string, addressValid: bool, approved: bool, sats: Option<nat>,
    ip: Option<string>, balance: Option<nat>, proof: Option<Proof>, routed: bool)

  // -- proof of work -----------------------------------------------------------

  datatype PowError = NotAvailable | BadSignature | OtherNetwork | OtherAddress | OtherAmount | Expired | Unsolved

  datatype PowCheck = NoProof | BadProof(error: PowError) | GoodProof(token: IssuedToken)

  function KeyOf(token: IssuedToken): NonceKey {
    NonceKey(token.net, token.nonce)
  }

  function Expiry(token: IssuedToken): real {
    (token.issuedAt + token.ttl) as real
  }

  /** Authenticates a challenge against the request it is submitted with. */
  function Verify(token: Token, r: Request, sats: nat, now: real): Option<PowError> {
    if token.Forged? then Some(BadSignature)
    else if token.net != r.net then Some(OtherNetwork)
    else if token.address != r.address then Some(OtherAddress)
    else if token.amount != sats then Some(OtherAmount)
    else if now > Expiry(token) then Some(Expired)
    else None
  }

  function VerifyPow(cfg: FaucetCfg, r: Request, sats: nat, now: real): (c: PowCheck)
    ensures c.NoProof? <==> r.proof.None?
    ensures c.GoodProof? <==>
              && cfg.powAvailable && r.proof.Some? && r.proof.value.solved && r.proof.value.token.Issued?
              && var token := r.proof.value.token;
                 token.net == r.net && token.address == r.address && token.amount == sats && now <= Expiry(token)
    ensures c.GoodProof? ==> r.proof == Some(Proof(c.token, true))
  {
    if r.proof.None? then NoProof
    else if !cfg.powAvailable then BadProof(NotAvailable)
    else
      var error := Verify(r.proof.value.token, r, sats, now);
      if error.Some? then BadProof(error.value)
      else if !r.proof.value.solved then BadProof(Unsolved)
      else GoodProof(r.proof.value.token)
  }

  // -- limits and rules ----------------------------------------------------------

  datatype Limits = Limits(dailyCap: Option<nat>, balanceCap: Option<nat>)

  /** int() of a number that is not negative. */
  function Truncated(x: real): nat {
    if x < 0.0 then 0 else x.Floor
  }

  function DailyCap(balance: nat, expectedYear: nat, horizonDays: real): nat {
    var scaled := expectedYear as real * horizonDays / 365.0;
    var expected := if scaled > 1.0 then scaled else 1.0;
    Truncated(balance as real / expected)
  }

  function BalanceCap(balance: nat, fraction: real): nat {
    Truncated(balance as real * fraction)
  }

  /** The ceilings, given the year's expected claims; unknown when the balance is. */
  function LimitsGiven(cfg: FaucetCfg, expectedYear: nat, balance: Option<nat>): Limits {
    Limits(
      if cfg.maxAmountPerDay && balance.Some?
      then Some(DailyCap(balance.value, expectedYear, cfg.horizonDays))
      else None,
      if cfg.perRequestBalanceCap && balance.Some?
      then Some(BalanceCap(balance.value, cfg.balanceCapFraction))
      else None)
  }

  ghost function LimitsOf(cfg: FaucetCfg, t: Tables, net: string, balance: Option<nat>, now: real): Limits {
    LimitsGiven(cfg, Usage.Expected(t.usage, net, Usage.Busiest(t.usage, net), DayOf(now)), balance)
  }

  method ComputeLimits(cfg: FaucetCfg, store: FaucetStore, net: string, balance: Option<nat>, now: real)
    returns (limits: Limits)
    ensures limits == LimitsOf(cfg, store.Snapshot(), net, balance, now)
  {
    var dailyCap: Option<nat> := None;
    if cfg.maxAmountPerDay && balance.Some? {
      var expectedYear, historicalMax := Usage.UsageStats(store.usage, net, now);
      Usage.BusiestUnique(store.usage, net, historicalMax, Usage.Busiest(store.usage, net));
      dailyCap := Some(DailyCap(balance.value, expectedYear, cfg.horizonDays));
    }
    var balanceCap: Option<nat> := None;
    if cfg.perRequestBalanceCap && balance.Some? {
      balanceCap := Some(BalanceCap(balance.value, cfg.balanceCapFraction));
    }
    return Limits(dailyCap, balanceCap);
  }

  datatype Context = Context(
    net: string, ip: Option<string>, sats: nat, now: real, limits: Limits, powVerified: bool, powClaimsToday: nat)

  datatype Rule = OnePerIpPerDay | PowDailyCap | MaxAmountPerDay | PerRequestBalanceCap | MinClaim

  const RULES: seq<Rule> := [OnePerIpPerDay, PowDailyCap, MaxAmountPerDay, PerRequestBalanceCap, MinClaim]

  datatype RuleOutcome = RuleOutcome(rule: Rule, retryAfter: Option<real>)

  /** One rule's verdict: None when it passes or does not apply. */
  function Check(rule: Rule, cfg: FaucetCfg, t: Tables, ctx: Context): Option<RuleOutcome> {
    match rule
    case OnePerIpPerDay =>
      if ctx.powVerified || !cfg.onePerIpPerDay || ctx.ip.None? then None
      else
        var last := TimeOf(t.ipClaims, IpKey(ctx.net, ctx.ip.value));
        if last.None? || ctx.now - last.value >= DAY_SECONDS then None
        else Some(RuleOutcome(rule, Some(last.value + DAY_SECONDS)))
    case PowDailyCap =>
      if !ctx.powVerified || cfg.powMaxPerDay == 0 || ctx.powClaimsToday < cfg.powMaxPerDay then None
      else Some(RuleOutcome(rule, Some((DayOf(ctx.now) + 1) as real * DAY_SECONDS)))
    case MaxAmountPerDay =>
      if !cfg.maxAmountPerDay || ctx.limits.dailyCap.None? || ctx.sats <= ctx.limits.dailyCap.value then None
      else Some(RuleOutcome(rule, None))
    case PerRequestBalanceCap =>
      if !cfg.perRequestBalanceCap || ctx.limits.balanceCap.None? || ctx.sats <= ctx.limits.balanceCap.value then None
      else Some(RuleOutcome(rule, None))
    case MinClaim =>
      if !cfg.minClaimEnabled || ctx.sats >= cfg.minClaimSat then None
      else Some(RuleOutcome(rule, None))
  }

  function Failing(rules: seq<Rule>, cfg: FaucetCfg, t: Tables, ctx: Context): seq<RuleOutcome> {
    if rules == [] then []
    else
      var rest, last := Failing(rules[..|rules| - 1], cfg, t, ctx), Check(rules[|rules| - 1], cfg, t, ctx);
      if last.Some? then rest + [last.value] else rest
  }

  /** The place of a rule in the report. */
  function Place(rule: Rule): nat {
    match rule
    case OnePerIpPerDay => 0
    case PowDailyCap => 1
    case MaxAmountPerDay => 2
    case PerRequestBalanceCap => 3
    case MinClaim => 4
  }

  /** The request breaks the rule. */
  predicate Breaks(rule: Rule, cfg: FaucetCfg, t: Tables, ctx: Context) {
    match rule
    case OnePerIpPerDay =>
      && cfg.onePerIpPerDay && !ctx.powVerified && ctx.ip.Some?
      && IpKey(ctx.net, ctx.ip.value) in t.ipClaims && ctx.now < t.ipClaims[IpKey(ctx.net, ctx.ip.value)] + 86400.0
    case PowDailyCap => ctx.powVerified && 0 < cfg.powMaxPerDay <= ctx.powClaimsToday
    case MaxAmountPerDay => cfg.maxAmountPerDay && ctx.limits.dailyCap.Some? && ctx.limits.dailyCap.value < ctx.sats
    case PerRequestBalanceCap =>
      cfg.perRequestBalanceCap && ctx.limits.balanceCap.Some? && ctx.limits.balanceCap.value < ctx.sats
    case MinClaim => cfg.minClaimEnabled && ctx.sats < cfg.minClaimSat
  }

  /** A whole number of days since the epoch. */
  predicate Midnight(moment: real) {
    (moment / 86400.0).Floor as real * 86400.0 == moment
  }

  /**
    When the rule says to come back: a day after the last free claim, at the next midnight
    after now for proofs, and never a time for the amount rules.
   */
  predicate ComeBack(rule: Rule, t: Tables, ctx: Context, retry: Option<real>) {
    match rule
    case OnePerIpPerDay =>
      && ctx.ip.Some? && IpKey(ctx.net, ctx.ip.value) in t.ipClaims
      && retry == Some(t.ipClaims[IpKey(ctx.net, ctx.ip.value)] + 86400.0)
    case PowDailyCap =>
      retry.Some? && ctx.now < retry.value <= ctx.now + 86400.0 && Midnight(retry.value)
    case _ => retry.None?
  }

  predicate Listed(failures: seq<RuleOutcome>, rule: Rule) {
    exists i :: 0 <= i < |failures| && failures[i].rule == rule
  }

  /** Of the first n rules, the outcomes are those of the broken ones, each once, in order, with its time. */
  ghost predicate ReportsFirst(failures: seq<RuleOutcome>, cfg: FaucetCfg, t: Tables, ctx: Context, n: nat) {
    && (forall i, j :: 0 <= i < j < |failures| ==> Place(failures[i].rule) < Place(failures[j].rule))
    && (forall rule :: Listed(failures, rule) <==> Place(rule) < n && Breaks(rule, cfg, t, ctx))
    && (forall i :: 0 <= i < |failures| ==> ComeBack(failures[i].rule, t, ctx, failures[i].retryAfter))
  }

  /** The outcomes are those of the broken rules, each once, in order, with its time. */
  ghost predicate ReportsBroken(failures: seq<RuleOutcome>, cfg: FaucetCfg, t: Tables, ctx: Context) {
    ReportsFirst(failures, cfg, t, ctx, 5)
  }

  lemma NextMidnight(now: real)
    ensures var next := (DayOf(now) + 1) as real * 86400.0;
            now < next <= now + 86400.0 && Midnight(next) && next == (DayOf(now) + 1) as real * DAY_SECONDS
  {
    var q, next := now / 86400.0, (DayOf(now) + 1) as real * 86400.0;
    assert q * 86400.0 == now;
    assert next / 86400.0 == (DayOf(now) + 1) as real;
  }

  lemma CheckMeaning(rule: Rule, cfg: FaucetCfg, t: Tables, ctx: Context)
    ensures var outcome := Check(rule, cfg, t, ctx);
            && (outcome.Some? <==> Breaks(rule, cfg, t, ctx))
            && (outcome.Some? ==> outcome.value.rule == rule && ComeBack(rule, t, ctx, outcome.value.retryAfter))
  {
    hide DayOf;
    NextMidnight(ctx.now);
  }

  lemma ReportsOn(failures: seq<RuleOutcome>, cfg: FaucetCfg, t: Tables, ctx: Context, rule: Rule)
    requires ReportsFirst(failures, cfg, t, ctx, Place(rule))
    ensures var outcome := Check(rule, cfg, t, ctx);
            ReportsFirst(if outcome.Some? then failures + [outcome.value] else failures, cfg, t, ctx, Place(rule) + 1)
  {
    hide Breaks, ComeBack, Check;
    var outcome := Check(rule, cfg, t, ctx);
    CheckMeaning(rule, cfg, t, ctx);
    var after := if outcome.Some? then failures + [outcome.value] else failures;
    forall i | 0 <= i < |failures| ensures Place(failures[i].rule) < Place(rule) {
      assert Listed(failures, failures[i].rule);
    }
    forall other ensures Listed(after, other) <==> Place(other) < Place(rule) + 1 && Breaks(other, cfg, t, ctx) {
      PlacesApart(other, rule);
      ListedAfter(failures, after, other, outcome);
    }
  }

  lemma ListedAfter(failures: seq<RuleOutcome>, after: seq<RuleOutcome>, rule: Rule, outcome: Option<RuleOutcome>)
    requires after == if outcome.Some? then failures + [outcome.value] else failures
    ensures Listed(after, rule) <==> Listed(failures, rule) || (outcome.Some? && outcome.value.rule == rule)
  {
    if i :| 0 <= i < |failures| && failures[i].rule == rule {
      assert after[i].rule == rule;
    }
    if outcome.Some? {
      assert after[|failures|] == outcome.value;
    }
  }

  lemma {:induction false} FailingReportsFirst(cfg: FaucetCfg, t: Tables, ctx: Context, n: nat)
    requires n <= |RULES| == 5
    ensures ReportsFirst(Failing(RULES[..n], cfg, t, ctx), cfg, t, ctx, n)
  {
    hide Breaks, ComeBack, Check, ReportsFirst;
    if n == 0 {
      NothingBroken(cfg, t, ctx);
    } else {
      assert RULES[..n][..n - 1] == RULES[..n - 1];
      FailingReportsFirst(cfg, t, ctx, n - 1);
      RulePlace(n - 1);
      ReportsOn(Failing(RULES[..n - 1], cfg, t, ctx), cfg, t, ctx, RULES[n - 1]);
    }
  }

  lemma NothingBroken(cfg: FaucetCfg, t: Tables, ctx: Context)
    ensures ReportsFirst([], cfg, t, ctx, 0)
  {
  }

  lemma RulePlace(i: nat)
    requires i < 5
    ensures |RULES| == 5 && Place(RULES[i]) == i
  {
  }

  lemma PlacesApart(a: Rule, b: Rule)
    ensures Place(a) == Place(b) ==> a == b
  {
  }

  lemma FailingReports(cfg: FaucetCfg, t: Tables, ctx: Context)
    ensures ReportsBroken(Failing(RULES, cfg, t, ctx), cfg, t, ctx)
  {
    hide ReportsFirst, Failing;
    RulePlace(0);
    FailingReportsFirst(cfg, t, ctx, 5);
    assert RULES[..5] == RULES;
  }

  method Evaluate(cfg: FaucetCfg, store: FaucetStore, ctx: Context) returns (failures: seq<RuleOutcome>)
    ensures failures == Failing(RULES, cfg, store.Snapshot(), ctx)
    ensures ReportsBroken(failures, cfg, store.Snapshot(), ctx)
  {
    hide ReportsBroken;
    FailingReports(cfg, store.Snapshot(), ctx);
    failures := [];
    for n := 0 to |RULES|
      invariant failures == Failing(RULES[..n], cfg, store.Snapshot(), ctx)
    {
      assert RULES[..n + 1][..n] == RULES[..n];
      var outcome := Check(RULES[n], cfg, store.Snapshot(), ctx);
      if outcome.Some? {
        failures := failures + [outcome.value];
      }
    }
    assert RULES[..|RULES|] == RULES;
  }

  /** No failure means every rule passed. */
  lemma {:induction false} NoneFailing(rules: seq<Rule>, cfg: FaucetCfg, t: Tables, ctx: Context)
    ensures Failing(rules, cfg, t, ctx) == [] <==> forall i :: 0 <= i < |rules| ==> Check(rules[i], cfg, t, ctx).None?
  {
    hide Check;
    if rules != [] {
      NoneFailing(rules[..|rules| - 1], cfg, t, ctx);
    }
  }

  // -- one request -----------------------------------------------------------------

  datatype Failure =
    | AmountPolicy | AmountFormat | PowFailure(error: PowError) | RuleFailure(outcome: RuleOutcome) | ChallengeUsed

  datatype Result =
    | InvalidAddress
    | Disapproved(failures: seq<Failure>)
    | PaymentFailure
    | Success(sats: nat, viaPow: bool)

  function AsFailures(outcomes: seq<RuleOutcome>): seq<Failure> {
    seq(|outcomes|, i requires 0 <= i < |outcomes| => RuleFailure(outcomes[i]))
  }

  function PowClaimsToday(t: Tables, r: Request, now: real): nat {
    if r.ip.Some? then CountOf(t.powClaims, PowKey(r.net, r.ip.value, DayOf(now))) else 0
  }

  ghost function ContextOf(cfg: FaucetCfg, t: Tables, r: Request, sats: nat, now: real): Context {
    Context(r.net, r.ip, sats, now, LimitsOf(cfg, t, r.net, r.balance, now),
            VerifyPow(cfg, r, sats, now).GoodProof?, PowClaimsToday(t, r, now))
  }

  /** Everything that blocks the payout, in reporting order. */
  ghost function FailuresOf(cfg: FaucetCfg, t: Tables, r: Request, now: real): seq<Failure> {
    var policy := if r.approved then [] else [AmountPolicy];
    if r.sats.None? then
      if r.approved then [AmountFormat] else policy
    else
      var pow := VerifyPow(cfg, r, r.sats.value, now);
      policy
      + (if pow.BadProof? then [PowFailure(pow.error)] else [])
      + AsFailures(Failing(RULES, cfg, t, ContextOf(cfg, t, r, r.sats.value, now)))
  }

  /** The bookkeeping of a payout that went out. */
  function Paid(t: Tables, r: Request, sats: nat, now: real, viaPow: bool): Tables {
    var t1 := t.(payouts := t.payouts + [Payout(r.net, sats, r.address)],
                 usage := Upserted(t.usage, DayKey(r.net, DayOf(now))));
    if r.ip.None? then t1
    else if viaPow then t1.(powClaims := Upserted(t1.powClaims, PowKey(r.net, r.ip.value, DayOf(now))))
    else t1.(ipClaims := t1.ipClaims[IpKey(r.net, r.ip.value) := now])
  }

  /** What one request does when nothing else runs beside it. */
  ghost function Processed(t: Tables, cfg: FaucetCfg, r: Request, now: real): (Tables, Result) {
    if !r.addressValid then (t, InvalidAddress)
    else
      var failures := FailuresOf(cfg, t, r, now);
      if failures != [] || r.sats.None? then (t, Disapproved(failures))
      else
        var pow := VerifyPow(cfg, r, r.sats.value, now);
        if pow.GoodProof? && KeyOf(pow.token) in t.nonces then (t, Disapproved([ChallengeUsed]))
        else
          var t1 := if pow.GoodProof?
                    then t.(nonces := t.nonces[KeyOf(pow.token) := Expiry(pow.token)]) else t;
          if !r.routed then (t1, PaymentFailure)
          else (Paid(t1, r, r.sats.value, now, pow.GoodProof?), Success(r.sats.value, pow.GoodProof?))
  }

  method Process(store: FaucetStore, cfg: FaucetCfg, r: Request, now: real) returns (result: Result)
    modifies store
    ensures (store.Snapshot(), result) == Processed(old(store.Snapshot()), cfg, r, now)
  {
    hide Check, Verify, Usage.Expected;
    var limits := ComputeLimits(cfg, store, r.net, r.balance, now);
    if !r.addressValid {
      return InvalidAddress;
    }
    var failures: seq<Failure> := [];
    var pow := NoProof;
    if !r.approved {
      failures := failures + [AmountPolicy];
    }
    if r.sats.None? {
      if r.approved {
        failures := failures + [AmountFormat];
      }
    } else {
      pow := VerifyPow(cfg, r, r.sats.value, now);
      if pow.BadProof? {
        failures := failures + [PowFailure(pow.error)];
      }
      var powClaimsToday := PowClaimsToday(store.Snapshot(), r, now);
      var ctx := Context(r.net, r.ip, r.sats.value, now, limits, pow.GoodProof?, powClaimsToday);
      var outcomes := Evaluate(cfg, store, ctx);
      failures := failures + AsFailures(outcomes);
    }
    assert failures == FailuresOf(cfg, store.Snapshot(), r, now);
    if failures != [] {
      return Disapproved(failures);
    }
    var sats := r.sats.value;
    if pow.GoodProof? {
      var won := store.RedeemNonce(KeyOf(pow.token), Expiry(pow.token));
      if !won {
        return Disapproved([ChallengeUsed]);
      }
    }
    if !r.routed {
      return PaymentFailure;
    }
    store.Record(Payout(r.net, sats, r.address));
    store.IncrementUsage(r.net, now);
    if r.ip.Some? {
      if pow.GoodProof? {
        store.RecordPowClaim(r.net, r.ip.value, now);
      } else {
        store.RecordIpClaim(IpKey(r.net, r.ip.value), now);
      }
    }
    return Success(sats, pow.GoodProof?);
  }
}
