/**
  What a visitor is told and what a payout leaves behind: the answer to a request and its
  effect on every table, in terms of the request, the visitor's history and the wallet.
 */
module FaucetReports {
  import opened Options
  import opened FaucetStore
  import opened Faucet
  import opened FaucetAcceptance
  import Usage

  // -- which proof-of-work error ---------------------------------------------------------

  /** What the error says is wrong. */
  predicate Wrong(e: PowError, cfg: FaucetCfg, r: Request, sats: nat, now: real, proof: Proof) {
    match e
    case NotAvailable => !cfg.powAvailable
    case BadSignature => proof.token.Forged?
    case OtherNetwork => proof.token.Issued? && proof.token.net != r.net
    case OtherAddress => proof.token.Issued? && proof.token.address != r.address
    case OtherAmount => proof.token.Issued? && proof.token.amount != sats
    case Expired => proof.token.Issued? && (proof.token.issuedAt + proof.token.ttl) as real < now
    case Unsolved => !proof.solved
  }

  function Precedence(e: PowError): nat {
    match e
    case NotAvailable => 0
    case BadSignature => 1
    case OtherNetwork => 2
    case OtherAddress => 3
    case OtherAmount => 4
    case Expired => 5
    case Unsolved => 6
  }

  /** Of everything wrong with a submitted proof, the first is reported. */
  predicate FirstWrong(e: PowError, cfg: FaucetCfg, r: Request, sats: nat, now: real) {
    && r.proof.Some? && Wrong(e, cfg, r, sats, now, r.proof.value)
    && forall other: PowError :: Wrong(other, cfg, r, sats, now, r.proof.value) ==> Precedence(e) <= Precedence(other)
  }

  lemma PowErrorIff(cfg: FaucetCfg, r: Request, sats: nat, now: real, e: PowError)
    ensures VerifyPow(cfg, r, sats, now) == BadProof(e) <==> FirstWrong(e, cfg, r, sats, now)
  {
    var c := VerifyPow(cfg, r, sats, now);
    if c == BadProof(e) {
      forall other: PowError | Wrong(other, cfg, r, sats, now, r.proof.value)
        ensures Precedence(e) <= Precedence(other)
      {
      }
    }
    if FirstWrong(e, cfg, r, sats, now) {
      assert !c.GoodProof? && !c.NoProof?;
      assert Wrong(c.error, cfg, r, sats, now, r.proof.value);
      SamePrecedence(e, c.error);
    }
  }

  lemma SamePrecedence(e: PowError, f: PowError)
    ensures Precedence(e) == Precedence(f) ==> e == f
  {
  }

  // -- the report ------------------------------------------------------------------------

  /** The order in which failures are reported. */
  function Rank(f: Failure): nat {
    match f
    case AmountPolicy => 0
    case AmountFormat => 1
    case PowFailure(_) => 2
    case RuleFailure(outcome) => 3 + Place(outcome.rule)
    case ChallengeUsed => 8
  }

  /** The rule refuses the request, said of the visitor's history and the wallet. */
  ghost predicate Refuses(rule: Rule, cfg: FaucetCfg, t: Tables, r: Request, sats: nat, now: real) {
    var proven := r.proof.Some? && forall e: PowError :: !Wrong(e, cfg, r, sats, now, r.proof.value);
    match rule
    case OnePerIpPerDay => !proven && !FreeClaimLeft(t, cfg, r, now)
    case PowDailyCap => proven && !PowClaimLeft(t, cfg, r, now)
    case MaxAmountPerDay =>
      && cfg.maxAmountPerDay && r.balance.Some?
      && var year := Usage.Expected(t.usage, r.net, Usage.Busiest(t.usage, r.net), DayOf(now));
         sats as real * ExpectedClaims(year, cfg.horizonDays) > r.balance.value as real
    case PerRequestBalanceCap =>
      cfg.perRequestBalanceCap && r.balance.Some? && sats as real > r.balance.value as real * cfg.balanceCapFraction
    case MinClaim => cfg.minClaimEnabled && sats < cfg.minClaimSat
  }

  lemma ProvenIff(cfg: FaucetCfg, r: Request, sats: nat, now: real)
    ensures VerifyPow(cfg, r, sats, now).GoodProof?
       <==> r.proof.Some? && forall e: PowError :: !Wrong(e, cfg, r, sats, now, r.proof.value)
  {
    if r.proof.Some? {
      var proof := r.proof.value;
      if forall e: PowError :: !Wrong(e, cfg, r, sats, now, proof) {
        assert !Wrong(NotAvailable, cfg, r, sats, now, proof) && !Wrong(BadSignature, cfg, r, sats, now, proof);
        assert !Wrong(OtherNetwork, cfg, r, sats, now, proof) && !Wrong(OtherAddress, cfg, r, sats, now, proof);
        assert !Wrong(OtherAmount, cfg, r, sats, now, proof) && !Wrong(Expired, cfg, r, sats, now, proof);
        assert !Wrong(Unsolved, cfg, r, sats, now, proof);
      }
    }
  }

  /** Breaking a rule, said of the request. */
  lemma RefusesIff(rule: Rule, cfg: FaucetCfg, t: Tables, r: Request, sats: nat, now: real)
    requires cfg.balanceCapFraction >= 0.0
    ensures Breaks(rule, cfg, t, ContextOf(cfg, t, r, sats, now)) <==> Refuses(rule, cfg, t, r, sats, now)
  {
    hide DailyCap, BalanceCap, ExpectedClaims, Usage.Expected, VerifyPow, DayOf, Wrong;
    ProvenIff(cfg, r, sats, now);
    if r.balance.Some? {
      var year := Usage.Expected(t.usage, r.net, Usage.Busiest(t.usage, r.net), DayOf(now));
      DailyCapMeaning(r.balance.value, year, cfg.horizonDays, sats);
      BalanceCapMeaning(r.balance.value, cfg.balanceCapFraction, sats);
    }
  }

  /** The time a rule's failure tells the visitor to come back at. */
  predicate RetryTime(rule: Rule, t: Tables, r: Request, now: real, retry: Option<real>) {
    match rule
    case OnePerIpPerDay =>
      && r.ip.Some? && IpKey(r.net, r.ip.value) in t.ipClaims
      && retry == Some(t.ipClaims[IpKey(r.net, r.ip.value)] + 86400.0)
    case PowDailyCap => retry.Some? && now < retry.value <= now + 86400.0 && Midnight(retry.value)
    case _ => retry.None?
  }

  /** Everything that is wrong with a request is in the report, once and in order, and nothing else. */
  ghost predicate Tells(failures: seq<Failure>, cfg: FaucetCfg, t: Tables, r: Request, now: real) {
    && (forall i, j :: 0 <= i < j < |failures| ==> Rank(failures[i]) < Rank(failures[j]))
    && (AmountPolicy in failures <==> !r.approved)
    && (AmountFormat in failures <==> r.approved && r.sats.None?)
    && (forall e :: PowFailure(e) in failures <==> r.sats.Some? && FirstWrong(e, cfg, r, r.sats.value, now))
    && (forall rule :: Told(failures, rule) <==> r.sats.Some? && Refuses(rule, cfg, t, r, r.sats.value, now))
    && (forall o :: RuleFailure(o) in failures ==> RetryTime(o.rule, t, r, now, o.retryAfter))
    && ChallengeUsed !in failures
  }

  predicate Told(failures: seq<Failure>, rule: Rule) {
    exists i :: 0 <= i < |failures| && failures[i].RuleFailure? && failures[i].outcome.rule == rule
  }

  lemma OutcomesTold(outcomes: seq<RuleOutcome>, rule: Rule)
    ensures Told(AsFailures(outcomes), rule) <==> Listed(outcomes, rule)
  {
    if Listed(outcomes, rule) {
      var i :| 0 <= i < |outcomes| && outcomes[i].rule == rule;
      assert AsFailures(outcomes)[i] == RuleFailure(outcomes[i]);
    }
  }

  lemma ToldAfter(head: seq<Failure>, tail: seq<Failure>, rule: Rule)
    requires forall i :: 0 <= i < |head| ==> !head[i].RuleFailure?
    ensures Told(head + tail, rule) <==> Told(tail, rule)
  {
    if Told(tail, rule) {
      var i :| 0 <= i < |tail| && tail[i].RuleFailure? && tail[i].outcome.rule == rule;
      assert (head + tail)[|head| + i] == tail[i];
    }
  }

  /** The report of a request whose amount could be read. */
  lemma RulesTold(cfg: FaucetCfg, t: Tables, r: Request, sats: nat, now: real, head: seq<Failure>)
    requires cfg.balanceCapFraction >= 0.0
    requires forall i :: 0 <= i < |head| ==> !head[i].RuleFailure? && Rank(head[i]) < 3
    requires forall i, j :: 0 <= i < j < |head| ==> Rank(head[i]) < Rank(head[j])
    ensures var failures := head + AsFailures(Failing(RULES, cfg, t, ContextOf(cfg, t, r, sats, now)));
            && (forall i, j :: 0 <= i < j < |failures| ==> Rank(failures[i]) < Rank(failures[j]))
            && (forall rule :: Told(failures, rule) <==> Refuses(rule, cfg, t, r, sats, now))
            && (forall o :: RuleFailure(o) in failures ==> RetryTime(o.rule, t, r, now, o.retryAfter))
            && (forall f: Failure :: !f.RuleFailure? ==> (f in failures <==> f in head))
  {
    hide Breaks, Refuses, Failing, FreeClaimLeft, PowClaimLeft, Place, LimitsOf, VerifyPow, PowClaimsToday, Midnight;
    var ctx := ContextOf(cfg, t, r, sats, now);
    var outcomes := Failing(RULES, cfg, t, ctx);
    var failures := head + AsFailures(outcomes);
    FailingReports(cfg, t, ctx);
    forall rule ensures Told(failures, rule) <==> Refuses(rule, cfg, t, r, sats, now) {
      ToldAfter(head, AsFailures(outcomes), rule);
      OutcomesTold(outcomes, rule);
      RefusesIff(rule, cfg, t, r, sats, now);
      PlaceBelow(rule);
    }
    forall f: Failure | !f.RuleFailure? ensures f in failures <==> f in head {
    }
  }

  lemma PlaceBelow(rule: Rule)
    ensures Place(rule) < 5
  {
  }

  /** What stands before the rules in the report. */
  function Head(cfg: FaucetCfg, r: Request, now: real): seq<Failure>
    requires r.sats.Some?
  {
    var pow := VerifyPow(cfg, r, r.sats.value, now);
    (if r.approved then [] else [AmountPolicy]) + (if pow.BadProof? then [PowFailure(pow.error)] else [])
  }

  lemma HeadTells(cfg: FaucetCfg, r: Request, now: real)
    requires r.sats.Some?
    ensures var head := Head(cfg, r, now);
            && (forall i, j :: 0 <= i < j < |head| ==> Rank(head[i]) < Rank(head[j]))
            && (forall i :: 0 <= i < |head| ==> !head[i].RuleFailure? && Rank(head[i]) < 3)
            && (AmountPolicy in head <==> !r.approved)
            && AmountFormat !in head && ChallengeUsed !in head
            && (forall e :: PowFailure(e) in head <==> FirstWrong(e, cfg, r, r.sats.value, now))
  {
    hide VerifyPow, FirstWrong;
    forall e ensures PowFailure(e) in Head(cfg, r, now) <==> FirstWrong(e, cfg, r, r.sats.value, now) {
      PowErrorIff(cfg, r, r.sats.value, now, e);
    }
  }

  /** The report of every request: complete, without repetition and in order. */
  lemma ReportTells(t: Tables, cfg: FaucetCfg, r: Request, now: real)
    requires cfg.balanceCapFraction >= 0.0
    ensures Tells(FailuresOf(cfg, t, r, now), cfg, t, r, now)
  {
    hide Refuses, Failing, RetryTime, VerifyPow, FirstWrong, ContextOf, Told, Rank, Head;
    if r.sats.None? {
      Unreadable(cfg, t, r, now);
    } else {
      HeadTells(cfg, r, now);
      RulesTold(cfg, t, r, r.sats.value, now, Head(cfg, r, now));
      HeadFirst(cfg, t, r, now);
    }
  }

  lemma HeadFirst(cfg: FaucetCfg, t: Tables, r: Request, now: real)
    requires r.sats.Some?
    ensures FailuresOf(cfg, t, r, now)
         == Head(cfg, r, now) + AsFailures(Failing(RULES, cfg, t, ContextOf(cfg, t, r, r.sats.value, now)))
  {
    hide VerifyPow, Failing, ContextOf;
  }

  lemma Unreadable(cfg: FaucetCfg, t: Tables, r: Request, now: real)
    requires r.sats.None?
    ensures Tells(FailuresOf(cfg, t, r, now), cfg, t, r, now)
  {
    hide Refuses, RetryTime, FirstWrong, Told;
    NothingTold(FailuresOf(cfg, t, r, now));
  }

  lemma NothingTold(failures: seq<Failure>)
    requires forall f :: f in failures ==> !f.RuleFailure?
    ensures forall rule :: !Told(failures, rule)
  {
  }

  // -- the answer ------------------------------------------------------------------------

  /** Which answer a request gets, and what it carries. */
  lemma AnswerExactly(t: Tables, cfg: FaucetCfg, r: Request, now: real)
    requires cfg.balanceCapFraction >= 0.0
    ensures var answer, failures := Processed(t, cfg, r, now).1, FailuresOf(cfg, t, r, now);
            var used := r.proof.Some? && r.proof.value.token.Issued? && KeyOf(r.proof.value.token) in t.nonces;
            && Tells(failures, cfg, t, r, now)
            && (answer == InvalidAddress <==> !r.addressValid)
            && (r.addressValid ==>
                  (answer == Disapproved(failures) <==> failures != [])
                  && (answer == Disapproved([ChallengeUsed]) <==> failures == [] && used)
                  && (answer == PaymentFailure <==> failures == [] && !used && !r.routed))
            && (answer.Success? ==> r.sats == Some(answer.sats) && (answer.viaPow <==> r.proof.Some?))
  {
    hide VerifyPow, FailuresOf, Tells;
    ReportTells(t, cfg, r, now);
    if FailuresOf(cfg, t, r, now) == [] {
      NoFailureMeans(t, cfg, r, now);
    }
    UsedNotTold(FailuresOf(cfg, t, r, now), cfg, t, r, now);
  }

  lemma UsedNotTold(failures: seq<Failure>, cfg: FaucetCfg, t: Tables, r: Request, now: real)
    requires Tells(failures, cfg, t, r, now)
    ensures failures != [ChallengeUsed]
  {
    assert ChallengeUsed in [ChallengeUsed];
  }

  lemma NoFailureMeans(t: Tables, cfg: FaucetCfg, r: Request, now: real)
    requires FailuresOf(cfg, t, r, now) == []
    ensures r.sats.Some?
    ensures var pow := VerifyPow(cfg, r, r.sats.value, now);
            && (pow.GoodProof? <==> r.proof.Some?)
            && (pow.GoodProof? ==> r.proof.value.token == pow.token)
            && (r.proof.Some? ==> r.proof.value.token.Issued?)
  {
    hide Failing;
  }

  // -- what a payout leaves behind -------------------------------------------------------

  /** One more in the counter k, and nothing else changed. */
  ghost predicate CountedOnce<K(!new)>(before: map<K, nat>, after: map<K, nat>, k: K) {
    forall j :: CountOf(after, j) == CountOf(before, j) + if j == k then 1 else 0
  }

  /**
    A payout is logged and counted for the day; a free one stamps the visitor's claim and a
    proven one counts against the visitor's proofs and spends its challenge, never both.
   */
  lemma PayoutEffects(t: Tables, cfg: FaucetCfg, r: Request, now: real)
    requires Processed(t, cfg, r, now).1.Success?
    ensures var (t', answer) := Processed(t, cfg, r, now);
            && t'.payouts == t.payouts + [Payout(r.net, answer.sats, r.address)]
            && CountedOnce(t.usage, t'.usage, DayKey(r.net, DayOf(now)))
            && t'.lastRun == t.lastRun
            && (if answer.viaPow && r.ip.Some?
                then CountedOnce(t.powClaims, t'.powClaims, PowKey(r.net, r.ip.value, DayOf(now)))
                else t'.powClaims == t.powClaims)
            && (if !answer.viaPow && r.ip.Some?
                then t'.ipClaims == t.ipClaims[IpKey(r.net, r.ip.value) := now] else t'.ipClaims == t.ipClaims)
            && (if answer.viaPow
                then r.proof.Some? && r.proof.value.token.Issued?
                     && var token := r.proof.value.token;
                        NonceKey(r.net, token.nonce) !in t.nonces
                        && t'.nonces == t.nonces[NonceKey(r.net, token.nonce) := (token.issuedAt + token.ttl) as real]
                else t'.nonces == t.nonces)
  {
    hide VerifyPow, FailuresOf, DayOf, CountOf, Upserted, CountedOnce;
    NoFailureMeans(t, cfg, r, now);
    UpsertCounts(t.usage, DayKey(r.net, DayOf(now)));
    if r.ip.Some? {
      UpsertCounts(t.powClaims, PowKey(r.net, r.ip.value, DayOf(now)));
    }
    var pow := VerifyPow(cfg, r, r.sats.value, now);
    if pow.GoodProof? {
      GoodIsForRequest(cfg, r, r.sats.value, now);
    }
  }

  lemma GoodIsForRequest(cfg: FaucetCfg, r: Request, sats: nat, now: real)
    requires VerifyPow(cfg, r, sats, now).GoodProof?
    ensures VerifyPow(cfg, r, sats, now).token.net == r.net
  {
  }

  lemma UpsertCounts<K(!new)>(m: map<K, nat>, k: K)
    ensures CountedOnce(m, Upserted(m, k), k)
  {
  }

  /** The day of a moment, in seconds. */
  lemma DayBounds(now: real)
    ensures DayOf(now) as real * 86400.0 <= now < (DayOf(now) + 1) as real * 86400.0
  {
    var q := now / 86400.0;
    assert q * 86400.0 == now;
  }
}
