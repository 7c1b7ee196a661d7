/**
  Two short runs that show what the interleaved faucet does not promise: a purge that
  overtakes a request lets one challenge pay twice, and two requests of one visitor that
  run side by side both get the daily free payout.
 */
module FaucetRaces {
  import opened Options
  import opened FaucetStore
  import opened Faucet
  import opened FaucetWorkers
  import opened FaucetInterleaved

  const CHALLENGE: IssuedToken := Issued("net", "address", 1000, 0, 10, "nonce")

  /** Only the one-per-day rule can block this configuration's requests. */
  const CONFIG := FaucetCfg(true, false, 365.0, false, 0.0, false, 0, true, 0)

  const PROVEN := Request("net", "address", true, true, Some(1000), Some("visitor"), None,
                          Some(Proof(CHALLENGE, true)), true)
  const FREE := Request("net", "address", true, true, Some(1000), Some("visitor"), None, None, true)

  ghost function RunOf(steps: seq<Step>): Run {
    Run((net: string) => CONFIG, (k: NonceKey) => 10.0, State(EMPTY, 0.0, [Idle, Idle]), steps)
  }

  /** Steps n to n + count - 1 all advance worker i. */
  predicate Advances(run: Run, n: nat, count: nat, i: nat) {
    n + count <= |run.steps| && forall m :: n <= m < n + count ==> run.steps[m] == Advance(i)
  }

  lemma OneStep(run: Run, n: nat)
    requires n < |run.steps| && Enabled(run.expiryOf, At(run, n), run.steps[n])
    ensures At(run, n + 1) == Next(run.cfgs, At(run, n), run.steps[n])
  {
  }

  lemma RulesPass(t: Tables, ctx: Context)
    requires ctx.powVerified || ctx.ip.None? || IpKey(ctx.net, ctx.ip.value) !in t.ipClaims
    ensures Failing(RULES, CONFIG, t, ctx) == []
  {
    NoneFailing(RULES, CONFIG, t, ctx);
  }

  /** A request with a proof that is still in time reaches its redeem. */
  lemma ReachesRedeem(t: Tables, now: real)
    requires now <= 10.0
    ensures var (t1, w1) := Advanced(t, CONFIG, Busy(PROVEN, now, CountUsage));
            t1 == t && w1.Busy? &&
            var (t2, w2) := Advanced(t, CONFIG, w1);
            t2 == t && w2.Busy? && Advanced(t, CONFIG, w2) == (t, Busy(PROVEN, now, Redeem(1000, CHALLENGE)))
  {
    hide Failing, PowClaimsToday;
    var w1 := Advanced(t, CONFIG, Busy(PROVEN, now, CountUsage)).1;
    var w2 := Advanced(t, CONFIG, w1).1;
    RulesPass(t, w2.stage.ctx);
  }

  /** Undisturbed, with its nonce unspent, that request sends at its fifth statement. */
  lemma ProvenSends(run: Run, n: nat, i: nat, now: real)
    requires Advances(run, n, 5, i) && (forall net :: run.cfgs(net) == CONFIG) && now <= 10.0
    requires var s := At(run, n); i < |s.workers| && s.workers[i] == Busy(PROVEN, now, CountUsage)
    requires KeyOf(CHALLENGE) !in At(run, n).t.nonces
    ensures Turn(At(run, n + 4), run.steps[n + 4]) && Holds(At(run, n + 4).workers[i], KeyOf(CHALLENGE))
    ensures var s, s' := At(run, n), At(run, n + 5);
            && s'.clock == s.clock && |s'.workers| == |s.workers|
            && (forall j :: 0 <= j < |s.workers| && j != i ==> s'.workers[j] == s.workers[j])
            && s'.t.nonces == s.t.nonces[KeyOf(CHALLENGE) := 10.0]
  {
    hide At, Failing, LimitsGiven, PowClaimsToday, VerifyPow;
    ReachesRedeem(At(run, n).t, now);
    assert forall m :: n <= m < n + 5 ==> run.steps[m] == Advance(i);
    OneStep(run, n);
    OneStep(run, n + 1);
    OneStep(run, n + 2);
    OneStep(run, n + 3);
    OneStep(run, n + 4);
  }

  lemma {:induction false} SendsGrow(run: Run, k: NonceKey, m: nat, n: nat)
    requires m <= n <= |run.steps|
    ensures Sends(run, k, m) <= Sends(run, k, n)
  {
    if m < n {
      SendsGrow(run, k, m, n - 1);
    }
  }

  /** The challenge expires at 10; the purge at 11 runs while worker 1 still holds a reading of 0. */
  ghost function OvertakingSteps(): (steps: seq<Step>)
    ensures |steps| == 14
  {
    [Begin(0, PROVEN), Begin(1, PROVEN)] + seq(5, _ => Advance(0))
    + [Tick(11.0), PurgeNonces(11.0)] + seq(5, _ => Advance(1))
  }

  /** One overtaking purge, two sends of one challenge: the bound is reached. */
  lemma OvertakenChallengePaysTwice()
    ensures Initial(RunOf(OvertakingSteps()).start)
    ensures Overtakings(RunOf(OvertakingSteps()), KeyOf(CHALLENGE), 14) == 1
    ensures Sends(RunOf(OvertakingSteps()), KeyOf(CHALLENGE), 14) == 2
  {
    hide *;
    PaysTwice();
    OneOvertaking();
    AtMostOneSend(RunOf(OvertakingSteps()), KeyOf(CHALLENGE));
  }

  /** Only nonce purges overtake. */
  lemma {:induction false} QuietSteps(run: Run, k: NonceKey, m: nat, n: nat)
    requires m <= n <= |run.steps|
    requires forall i :: m <= i < n ==> !run.steps[i].PurgeNonces?
    ensures Overtakings(run, k, n) == Overtakings(run, k, m)
  {
    hide At;
    if m < n {
      QuietSteps(run, k, m, n - 1);
    }
  }

  lemma OneOvertaking()
    ensures Overtakings(RunOf(OvertakingSteps()), KeyOf(CHALLENGE), 14) <= 1
  {
    hide At;
    var run, k := RunOf(OvertakingSteps()), KeyOf(CHALLENGE);
    QuietSteps(run, k, 0, 8);
    QuietSteps(run, k, 9, 14);
  }

  lemma PaysTwice()
    ensures |RunOf(OvertakingSteps()).steps| == 14
    ensures Initial(RunOf(OvertakingSteps()).start)
    ensures Sends(RunOf(OvertakingSteps()), KeyOf(CHALLENGE), 14) >= 2
  {
    hide At, Advanced, OvertakingSteps, RunOf, Advances, AsIssued, Sends, Holds, Turn;
    var run, k := RunOf(OvertakingSteps()), KeyOf(CHALLENGE);
    OvertakingRun();
    BothBegun(run, PROVEN);
    ProvenSends(run, 2, 0, 0.0);
    SendCounts(run, k, 6);
    PurgedMeanwhile(run, 7);
    ProvenSends(run, 9, 1, 0.0);
    SendsGrow(run, k, 7, 13);
    SendCounts(run, k, 13);
  }

  lemma OvertakingRun()
    ensures var run := RunOf(OvertakingSteps());
            && |run.steps| == 14 && run.start == State(EMPTY, 0.0, [Idle, Idle]) && AsIssued(run.expiryOf, PROVEN)
            && (forall net :: run.cfgs(net) == CONFIG)
            && run.steps[0] == Begin(0, PROVEN) && run.steps[1] == Begin(1, PROVEN) && Advances(run, 2, 5, 0)
            && run.steps[7] == Tick(11.0) && run.steps[8] == PurgeNonces(11.0) && Advances(run, 9, 5, 1)
            && run.steps[6] == Advance(0) && run.steps[13] == Advance(1)
  {
  }

  /** A tick past the expiry and a purge drop the spent challenge and leave the workers alone. */
  lemma PurgedMeanwhile(run: Run, n: nat)
    requires n + 2 <= |run.steps| && run.steps[n] == Tick(11.0) && run.steps[n + 1] == PurgeNonces(11.0)
    requires At(run, n).clock == 0.0 && KeyOf(CHALLENGE) in At(run, n).t.nonces
    requires At(run, n).t.nonces[KeyOf(CHALLENGE)] == 10.0
    ensures At(run, n + 2).workers == At(run, n).workers && KeyOf(CHALLENGE) !in At(run, n + 2).t.nonces
  {
    hide At, Advanced;
    OneStep(run, n);
    OneStep(run, n + 1);
  }

  lemma SendCounts(run: Run, k: NonceKey, n: nat)
    requires n < |run.steps| && Turn(At(run, n), run.steps[n]) && Holds(At(run, n).workers[run.steps[n].i], k)
    ensures Sends(run, k, n + 1) == Sends(run, k, n) + 1
  {
    hide At;
  }

  lemma BothBegun(run: Run, r: Request)
    requires |run.steps| >= 2 && run.steps[0] == Begin(0, r) && run.steps[1] == Begin(1, r)
    requires run.start == State(EMPTY, 0.0, [Idle, Idle]) && AsIssued(run.expiryOf, r)
    ensures At(run, 2) == State(EMPTY, 0.0, [Busy(r, 0.0, CountUsage), Busy(r, 0.0, CountUsage)])
  {
    OneStep(run, 0);
    assert At(run, 0) == run.start;
    OneStep(run, 1);
  }

  // -- the daily free payout -----------------------------------------------------------

  /** Step n is a free send to the visitor, in a request whose clock reading was now. */
  ghost predicate FreeSend(run: Run, n: nat, k: IpKey, now: real)
    requires n < |run.steps|
  {
    var s, step := At(run, n), run.steps[n];
    Turn(s, step) &&
    var w := s.workers[step.i];
    w.stage.Send? && w.stage.spent.None? && w.r.routed && w.r.ip == Some(k.ip) && w.r.net == k.net && w.now == now
  }

  /** A free request evaluated before any claim is recorded is ready to send. */
  lemma ReachesSend(t: Tables, now: real)
    requires IpKey("net", "visitor") !in t.ipClaims
    ensures var (t1, w1) := Advanced(t, CONFIG, Busy(FREE, now, CountUsage));
            t1 == t && w1.Busy? &&
            var (t2, w2) := Advanced(t, CONFIG, w1);
            t2 == t && w2.Busy? && Advanced(t, CONFIG, w2) == (t, Busy(FREE, now, Send(1000, None)))
  {
    hide Failing, PowClaimsToday;
    var w1 := Advanced(t, CONFIG, Busy(FREE, now, CountUsage)).1;
    var w2 := Advanced(t, CONFIG, w1).1;
    RulesPass(t, w2.stage.ctx);
  }

  lemma FreeReady(run: Run, n: nat, i: nat)
    requires Advances(run, n, 3, i) && (forall net :: run.cfgs(net) == CONFIG)
    requires var s := At(run, n); i < |s.workers| && s.workers[i] == Busy(FREE, 0.0, CountUsage)
    requires IpKey("net", "visitor") !in At(run, n).t.ipClaims
    ensures At(run, n + 3) == At(run, n).(workers := At(run, n).workers[i := Busy(FREE, 0.0, Send(1000, None))])
  {
    hide At, Failing, LimitsGiven, PowClaimsToday, VerifyPow, Advanced;
    ReachesSend(At(run, n).t, 0.0);
    assert forall m :: n <= m < n + 3 ==> run.steps[m] == Advance(i);
    OneStep(run, n);
    OneStep(run, n + 1);
    OneStep(run, n + 2);
  }

  ghost function SideBySide(): (steps: seq<Step>)
    ensures |steps| == 10
  {
    [Begin(0, FREE), Begin(1, FREE)] + seq(3, _ => Advance(0)) + seq(3, _ => Advance(1)) + [Advance(0), Advance(1)]
  }

  /** Two requests of one visitor, checked side by side, are both paid in the same second. */
  lemma DailyLimitRaces()
    ensures Initial(RunOf(SideBySide()).start) && CONFIG.onePerIpPerDay
    ensures FreeSend(RunOf(SideBySide()), 8, IpKey("net", "visitor"), 0.0)
    ensures FreeSend(RunOf(SideBySide()), 9, IpKey("net", "visitor"), 0.0)
  {
    hide At;
    var run := RunOf(SideBySide());
    BothBegun(run, FREE);
    FreeReady(run, 2, 0);
    FreeReady(run, 5, 1);
    OneStep(run, 8);
  }

  /** Step n records a free claim of the visitor, stamped with the clock reading now. */
  ghost predicate Records(run: Run, n: nat, k: IpKey, now: real)
    requires n < |run.steps|
  {
    var s, step := At(run, n), run.steps[n];
    Turn(s, step) &&
    var w := s.workers[step.i];
    w.stage.RecordClaim? && w.stage.spent.None? && w.r.ip == Some(k.ip) && w.r.net == k.net && w.now == now
  }

  /** Step n is a free request of the visitor passing its rule checks. */
  ghost predicate PassesFree(run: Run, n: nat, k: IpKey, now: real)
    requires n < |run.steps|
  {
    var s, step := At(run, n), run.steps[n];
    Turn(s, step) &&
    var w := s.workers[step.i];
    && w.stage.Evaluate? && !w.stage.pow.GoodProof? && w.r.ip == Some(k.ip) && w.r.net == k.net && w.now == now
    && Advanced(s.t, run.cfgs(k.net), w).1.Busy?
  }

  lemma StatementOnClaims(t: Tables, cfg: FaucetCfg, w: Worker)
    requires w.Busy?
    ensures Advanced(t, cfg, w).0.ipClaims
         == if w.stage.RecordClaim? && w.stage.spent.None? && w.r.ip.Some?
            then t.ipClaims[IpKey(w.r.net, w.r.ip.value) := w.now] else t.ipClaims
  {
    hide DayOf, Failing, LimitsGiven, PowClaimsToday, VerifyPow, Bumped, Upserted;
  }

  /** The visitor's row is at least as recent as now, or it was dropped when a day old. */
  predicate Remembered(t: Tables, k: IpKey, now: real, later: real) {
    later - now >= DAY_SECONDS || (k in t.ipClaims && t.ipClaims[k] >= now)
  }

  lemma StaysRemembered(run: Run, n: nat, k: IpKey, now: real, later: real)
    requires n < |run.steps| && Remembered(At(run, n).t, k, now, later)
    requires run.steps[n].PurgeIpClaims? ==> run.steps[n].at <= later
    requires forall older :: Records(run, n, k, older) ==> older >= now
    ensures Remembered(At(run, n + 1).t, k, now, later)
  {
    hide Advanced, DayOf;
    var s, step := At(run, n), run.steps[n];
    if Turn(s, step) {
      var w := s.workers[step.i];
      StatementOnClaims(s.t, run.cfgs(w.r.net), w);
      assert w.stage.RecordClaim? && w.stage.spent.None? && w.r.ip == Some(k.ip) && w.r.net == k.net
             ==> Records(run, n, k, w.now);
    }
  }

  lemma {:induction false} RememberedBetween(run: Run, m: nat, n: nat, k: IpKey, now: real, later: real)
    requires m < n <= |run.steps| && Records(run, m, k, now)
    requires forall i :: m < i < n && run.steps[i].PurgeIpClaims? ==> run.steps[i].at <= later
    requires forall i, older :: m < i < n && Records(run, i, k, older) ==> older >= now
    ensures Remembered(At(run, n).t, k, now, later)
  {
    hide Records, Advanced, At, Remembered;
    if n == m + 1 {
      Recorded(run, m, k, now, later);
    } else {
      RememberedBetween(run, m, n - 1, k, now, later);
      StaysRemembered(run, n - 1, k, now, later);
    }
  }

  lemma Recorded(run: Run, n: nat, k: IpKey, now: real, later: real)
    requires n < |run.steps| && Records(run, n, k, now)
    ensures Remembered(At(run, n + 1).t, k, now, later)
  {
    hide Advanced;
    var s, step := At(run, n), run.steps[n];
    StatementOnClaims(s.t, run.cfgs(s.workers[step.i].r.net), s.workers[step.i]);
  }

  /**
    The race is the only gap: once a claim is recorded, a free request checked later passes
    only a full day after it, in every interleaving in which no claim with an older reading
    is recorded over it and no purge timed after the later request's reading comes between.
   */
  lemma RecordedClaimIsHonoured(run: Run, m: nat, n: nat, k: IpKey, now: real, later: real)
    requires Initial(run.start) && m < n < |run.steps| && run.cfgs(k.net).onePerIpPerDay
    requires Records(run, m, k, now) && PassesFree(run, n, k, later)
    requires forall i :: m < i < n && run.steps[i].PurgeIpClaims? ==> run.steps[i].at <= later
    requires forall i, older :: m < i < n && Records(run, i, k, older) ==> older >= now
    ensures later - now >= DAY_SECONDS
  {
    hide At, Advanced;
    RememberedBetween(run, m, n, k, now, later);
    AlwaysSound(run, n);
    var s, w := At(run, n), At(run, n).workers[run.steps[n].i];
    PassedFirstRule(s.t, run.cfgs(k.net), w, k);
  }

  lemma PassedFirstRule(t: Tables, cfg: FaucetCfg, w: Worker, k: IpKey)
    requires w.Busy? && w.stage.Evaluate? && Advanced(t, cfg, w).1.Busy?
    requires cfg.onePerIpPerDay && w.stage.ctx.ip == Some(k.ip) && w.stage.ctx.net == k.net && !w.stage.ctx.powVerified
    ensures k in t.ipClaims ==> w.stage.ctx.now - t.ipClaims[k] >= DAY_SECONDS
  {
    NoneFailing(RULES, cfg, t, w.stage.ctx);
    assert RULES[0] == OnePerIpPerDay;
    assert Check(OnePerIpPerDay, cfg, t, w.stage.ctx).None?;
  }
}
