/**
  How far interleaved requests can overshoot the faucet's limits: at most one payout per
  worker beyond the proof-of-work cap, and one per worker of a visitor's free claim.
 */
module FaucetBounds {
  import opened Options
  import opened FaucetStore
  import opened Faucet
  import opened FaucetWorkers
  import opened FaucetInterleaved
  import opened FaucetCounters
  import opened FaucetRaces

  // -- sums over workers -------------------------------------------------------------

  lemma {:induction false} TotalAtMost(workers: seq<Worker>, f: Worker -> nat)
    requires forall w :: f(w) <= 1
    ensures Total(workers, f) <= |workers|
  {
    if workers != [] {
      TotalAtMost(workers[1..], f);
    }
  }

  lemma {:induction false} TotalBelow(workers: seq<Worker>, f: Worker -> nat, g: Worker -> nat)
    requires forall w :: f(w) <= g(w)
    ensures Total(workers, f) <= Total(workers, g)
  {
    if workers != [] {
      TotalBelow(workers[1..], f, g);
    }
  }

  lemma {:induction false} WorkersStay(run: Run, n: nat)
    requires n <= |run.steps|
    ensures |At(run, n).workers| == |run.start.workers|
  {
    hide Advanced, Enabled;
    if n > 0 {
      WorkersStay(run, n - 1);
      EnabledIndex(run.expiryOf, At(run, n - 1), run.steps[n - 1]);
    }
  }

  lemma EnabledIndex(expiryOf: NonceKey -> real, s: State, step: Step)
    ensures Enabled(expiryOf, s, step) ==>
              && (step.Begin? || step.Advance? || step.Crash? ==> step.i < |s.workers|)
              && (step.Advance? ==> s.workers[step.i].Busy?)
  {
  }

  // -- the proof-of-work cap -----------------------------------------------------------

  /** The worker read a count below the cap for k, and has not counted its payout yet. */
  predicate Committed(w: Worker, k: PowKey, cap: nat) {
    w.Busy? &&
    match w.stage
    case Evaluate(ctx, pow) => IsFor(w, k) && pow.GoodProof? && ctx.powClaimsToday < cap
    case Redeem(_, _) => IsFor(w, k)
    case Send(_, spent) => IsFor(w, k) && spent.Some?
    case RecordPayout(_, spent) => IsFor(w, k) && spent.Some?
    case UpdateUsage(spent) => IsFor(w, k) && spent.Some?
    case InsertUsage(spent) => IsFor(w, k) && spent.Some?
    case RecordClaim(spent) => IsFor(w, k) && spent.Some?
    case InsertPowClaim(ip) => PowKey(w.r.net, ip, DayOf(w.now)) == k
    case _ => false
  }

  predicate IsFor(w: Worker, k: PowKey)
    requires w.Busy?
  {
    w.r.ip.Some? && PowKey(w.r.net, w.r.ip.value, DayOf(w.now)) == k
  }

  function CommittedOne(k: PowKey, cap: nat): Worker -> nat {
    (w: Worker) => if Committed(w, k, cap) then 1 else 0
  }

  ghost function Commitments(s: State, k: PowKey, cap: nat): nat {
    Total(s.workers, CommittedOne(k, cap))
  }

  /** One statement: the count and the commitment together grow only by reading a low count. */
  lemma StatementCommits(expiryOf: NonceKey -> real, t: Tables, cfg: FaucetCfg, w: Worker, k: PowKey)
    requires w.Busy? && Sound(expiryOf, w) && cfg.powMaxPerDay > 0
    ensures var (t', w') := Advanced(t, cfg, w);
            var cap := cfg.powMaxPerDay;
            || (CountOf(t'.powClaims, k) + CommittedOne(k, cap)(w')
                <= CountOf(t.powClaims, k) + CommittedOne(k, cap)(w))
            || CountOf(t'.powClaims, k) < cap
  {
    hide DayOf, Failing, LimitsGiven, VerifyPow, Bumped, Upserted, CountOf, AsIssued;
    if w.stage.Evaluate? {
      PassedPowRule(t, cfg, w);
    } else if w.stage.InsertPowClaim? {
      BumpedAt(t.powClaims, PowKey(w.r.net, w.stage.ip, DayOf(w.now)), k);
    } else if w.stage.RecordClaim? && w.r.ip.Some? {
      BumpedAt(t.powClaims, PowKey(w.r.net, w.r.ip.value, DayOf(w.now)), k);
    }
  }

  lemma PassedPowRule(t: Tables, cfg: FaucetCfg, w: Worker)
    requires w.Busy? && w.stage.Evaluate? && w.stage.ctx.powVerified == w.stage.pow.GoodProof? && cfg.powMaxPerDay > 0
    ensures w.stage.pow.GoodProof? && Advanced(t, cfg, w).1.Busy? ==> w.stage.ctx.powClaimsToday < cfg.powMaxPerDay
  {
    NoneFailing(RULES, cfg, t, w.stage.ctx);
    assert RULES[1] == PowDailyCap;
    if Failing(RULES, cfg, t, w.stage.ctx) == [] {
      assert Check(RULES[1], cfg, t, w.stage.ctx).None?;
    }
  }

  lemma CommitmentsUpdate(s: State, s': State, k: PowKey, cap: nat, i: nat, w: Worker)
    requires i < |s.workers| && s'.workers == s.workers[i := w]
    ensures Commitments(s', k, cap) + CommittedOne(k, cap)(s.workers[i])
         == Commitments(s, k, cap) + CommittedOne(k, cap)(w)
    ensures Commitments(s', k, cap) <= |s.workers|
  {
    TotalUpdate(s.workers, CommittedOne(k, cap), i, w);
    TotalAtMost(s'.workers, CommittedOne(k, cap));
  }

  /** Count and commitments never exceed one less than the cap plus the workers. */
  ghost predicate WithinCap(s: State, k: PowKey, cap: nat) {
    CountOf(s.t.powClaims, k) + Commitments(s, k, cap) <= cap - 1 + |s.workers|
  }

  lemma StepWithinCap(expiryOf: NonceKey -> real, cfgs: string -> FaucetCfg, s: State, step: Step, k: PowKey)
    requires AllSound(expiryOf, s) && Enabled(expiryOf, s, step) && cfgs(k.net).powMaxPerDay > 0
    requires WithinCap(s, k, cfgs(k.net).powMaxPerDay)
    ensures WithinCap(Next(cfgs, s, step), k, cfgs(k.net).powMaxPerDay)
  {
    hide Advanced, Sound, Commitments, Committed, DayOf, PurgedUsage;
    var s', cap := Next(cfgs, s, step), cfgs(k.net).powMaxPerDay;
    match step {
      case Advance(i) =>
        var w := s.workers[i];
        CommitmentsUpdate(s, s', k, cap, i, Advanced(s.t, cfgs(w.r.net), w).1);
        if w.r.net == k.net {
          StatementCommits(expiryOf, s.t, cfgs(w.r.net), w, k);
        } else {
          OtherNetwork(s.t, cfgs(w.r.net), w, k, cap);
        }
      case Begin(i, r) =>
        CommitmentsUpdate(s, s', k, cap, i, Busy(r, s.clock, CountUsage));
        NotCommitted(r, s.clock, k, cap);
      case Crash(i) =>
        CommitmentsUpdate(s, s', k, cap, i, Idle);
        NotCommitted(s.workers[i].r, s.clock, k, cap);
      case PurgePowClaims(at) =>
        CommitmentsSame(s, s', k, cap);
      case PurgeUsage(at) =>
        CommitmentsSame(s, s', k, cap);
        UsagePurgeKeepsPow(s.t, at);
      case _ =>
        CommitmentsSame(s, s', k, cap);
    }
  }

  lemma UsagePurgeKeepsPow(t: Tables, now: real)
    ensures PurgedUsage(t, now).powClaims == t.powClaims && PurgedUsage(t, now).ipClaims == t.ipClaims
  {
  }

  lemma CommitmentsSame(s: State, s': State, k: PowKey, cap: nat)
    requires s.workers == s'.workers
    ensures Commitments(s, k, cap) == Commitments(s', k, cap)
  {
  }

  lemma NotCommitted(r: Request, now: real, k: PowKey, cap: nat)
    ensures !Committed(Idle, k, cap) && !Committed(Busy(r, now, CountUsage), k, cap)
  {
  }

  /** A worker of another network neither counts nor commits for k. */
  lemma OtherNetwork(t: Tables, cfg: FaucetCfg, w: Worker, k: PowKey, cap: nat)
    requires w.Busy? && w.r.net != k.net
    ensures var (t', w') := Advanced(t, cfg, w);
            CountOf(t'.powClaims, k) == CountOf(t.powClaims, k) && !Committed(w', k, cap) && !Committed(w, k, cap)
  {
    hide DayOf, Failing, LimitsGiven, VerifyPow, Bumped, Upserted, CountOf;
    if w.stage.InsertPowClaim? {
      BumpedAt(t.powClaims, PowKey(w.r.net, w.stage.ip, DayOf(w.now)), k);
    } else if w.stage.RecordClaim? && w.r.ip.Some? {
      BumpedAt(t.powClaims, PowKey(w.r.net, w.r.ip.value, DayOf(w.now)), k);
    }
  }

  lemma {:induction false} AlwaysWithinCap(run: Run, k: PowKey, n: nat)
    requires n <= |run.steps| && Initial(run.start) && run.cfgs(k.net).powMaxPerDay > 0
    ensures WithinCap(At(run, n), k, run.cfgs(k.net).powMaxPerDay)
  {
    hide WithinCap, Next, Enabled, AllSound;
    if n == 0 {
      NobodyCommitted(run.start, k, run.cfgs(k.net).powMaxPerDay);
    } else {
      AlwaysWithinCap(run, k, n - 1);
      AlwaysSound(run, n - 1);
      if Enabled(run.expiryOf, At(run, n - 1), run.steps[n - 1]) {
        StepWithinCap(run.expiryOf, run.cfgs, At(run, n - 1), run.steps[n - 1], k);
      }
    }
  }

  lemma NobodyCommitted(s: State, k: PowKey, cap: nat)
    requires Initial(s) && cap > 0
    ensures WithinCap(s, k, cap)
  {
    TotalIdle(s.workers, CommittedOne(k, cap));
  }

  /**
    In every interleaving, while a day's counts are retained, a visitor's payouts for proofs
    of work exceed a positive cap by at most one for each worker but one, and by those whose
    worker died before counting them.
   */
  lemma PowOvershootBounded(run: Run, k: PowKey, n: nat)
    requires n <= |run.steps| && Initial(run.start) && Retained(PowClaimsOf(k), At(run, n).clock)
    requires run.cfgs(k.net).powMaxPerDay > 0
    ensures Payouts(run, PowClaimsOf(k), n)
         <= run.cfgs(k.net).powMaxPerDay - 1 + |run.start.workers| + Abandoned(run, PowClaimsOf(k), n)
  {
    hide At, Payouts, Abandoned, Retained, Owes, Committed;
    var c, cap := PowClaimsOf(k), run.cfgs(k.net).powMaxPerDay;
    CountersExact(run, c, n);
    AlwaysWithinCap(run, k, n);
    WorkersStay(run, n);
    forall w ensures OwesOne(c)(w) <= CommittedOne(k, cap)(w) {
      OwingIsCommitted(w, k, cap);
    }
    TotalBelow(At(run, n).workers, OwesOne(c), CommittedOne(k, cap));
  }

  lemma OwingIsCommitted(w: Worker, k: PowKey, cap: nat)
    ensures Owes(w, PowClaimsOf(k)) ==> Committed(w, k, cap)
  {
    hide DayOf;
  }

  // -- the daily free claim -------------------------------------------------------------

  /** A visitor and a day that starts at an arbitrary time. */
  datatype Claim = Claim(key: IpKey, from: real)

  /** The worker handles a request of the visitor whose clock reading lies in that day. */
  predicate InDay(w: Worker, c: Claim) {
    w.Busy? && w.r.ip == Some(c.key.ip) && w.r.net == c.key.net && c.from <= w.now < c.from + DAY_SECONDS
  }

  predicate SendsFree(w: Worker, c: Claim) {
    InDay(w, c) && w.stage.Send? && w.stage.spent.None? && w.r.routed
  }

  predicate RecordsFree(w: Worker, c: Claim) {
    InDay(w, c) && w.stage.RecordClaim? && w.stage.spent.None?
  }

  /** Paid out free, the claim not recorded yet. */
  predicate OwesFree(w: Worker, c: Claim) {
    InDay(w, c) &&
    match w.stage
    case RecordPayout(_, spent) => spent.None?
    case UpdateUsage(spent) => spent.None?
    case InsertUsage(spent) => spent.None?
    case RecordClaim(spent) => spent.None?
    case _ => false
  }

  /** Checked and on its way to a free payout, or past it. */
  predicate PendsFree(w: Worker, c: Claim) {
    OwesFree(w, c) || (InDay(w, c) && w.stage.Send? && w.stage.spent.None?)
  }

  function OwesFreeOne(c: Claim): Worker -> nat {
    (w: Worker) => if OwesFree(w, c) then 1 else 0
  }

  function PendsFreeOne(c: Claim): Worker -> nat {
    (w: Worker) => if PendsFree(w, c) then 1 else 0
  }

  /** The visitor's row is recent enough to refuse every request of the day. */
  predicate Blocked(t: Tables, c: Claim) {
    c.key in t.ipClaims && t.ipClaims[c.key] >= c.from
  }

  /** A blocked row is purged by a clock past the day, or overwritten by an older reading. */
  predicate Reopens(s: State, step: Step, c: Claim) {
    Blocked(s.t, c) &&
    ((step.PurgeIpClaims? && step.at <= s.clock && step.at > c.from + DAY_SECONDS)
     || (Turn(s, step) && OverwritesOlder(s.workers[step.i], c)))
  }

  predicate OverwritesOlder(w: Worker, c: Claim) {
    w.Busy? && w.stage.RecordClaim? && w.stage.spent.None? && w.r.ip == Some(c.key.ip) && w.r.net == c.key.net
    && w.now < c.from
  }

  datatype Tally = Tally(sends: nat, recorded: nat, abandoned: nat, reopened: nat)

  /** Free payouts of the day so far, how many were recorded or abandoned, and the reopenings. */
  ghost function TallyAt(run: Run, c: Claim, n: nat): Tally
    requires n <= |run.steps|
  {
    if n == 0 then Tally(0, 0, 0, 0) else Counted(TallyAt(run, c, n - 1), At(run, n - 1), run.steps[n - 1], c)
  }

  function Counted(y: Tally, s: State, step: Step, c: Claim): Tally {
    var turn := Turn(s, step);
    Tally(
      y.sends + if turn && SendsFree(s.workers[step.i], c) then 1 else 0,
      y.recorded + if turn && RecordsFree(s.workers[step.i], c) then 1 else 0,
      y.abandoned + if step.Crash? && step.i < |s.workers| && OwesFree(s.workers[step.i], c) then 1 else 0,
      y.reopened + if Reopens(s, step, c) then 1 else 0)
  }

  function Budget(workers: nat, times: nat): nat {
    workers * times
  }

  lemma BudgetStep(workers: nat, times: nat)
    ensures Budget(workers, times + 1) == Budget(workers, times) + workers
  {
  }

  ghost function Owing(s: State, c: Claim): nat {
    Total(s.workers, OwesFreeOne(c))
  }

  ghost function Pending(s: State, c: Claim): nat {
    Total(s.workers, PendsFreeOne(c))
  }

  ghost predicate FreeInvariant(s: State, y: Tally, c: Claim) {
    && y.sends == Owing(s, c) + y.recorded + y.abandoned
    && Pending(s, c) <= |s.workers|
    && (if Blocked(s.t, c) then Pending(s, c) + y.recorded <= Budget(|s.workers|, y.reopened + 1)
        else y.recorded <= Budget(|s.workers|, y.reopened))
  }

  lemma TotalsUpdate(s: State, s': State, c: Claim, i: nat, w: Worker)
    requires i < |s.workers| && s'.workers == s.workers[i := w]
    ensures Owing(s', c) + OwesFreeOne(c)(s.workers[i]) == Owing(s, c) + OwesFreeOne(c)(w)
    ensures Pending(s', c) + PendsFreeOne(c)(s.workers[i]) == Pending(s, c) + PendsFreeOne(c)(w)
    ensures Pending(s', c) <= |s.workers|
  {
    TotalUpdate(s.workers, OwesFreeOne(c), i, w);
    TotalUpdate(s.workers, PendsFreeOne(c), i, w);
    TotalAtMost(s'.workers, PendsFreeOne(c));
  }

  /** One statement on the free claim of a visitor. */
  lemma FreeStatement(expiryOf: NonceKey -> real, t: Tables, cfg: FaucetCfg, w: Worker, c: Claim)
    requires w.Busy? && Sound(expiryOf, w) && (w.r.net == c.key.net ==> cfg.onePerIpPerDay)
    ensures var w' := Advanced(t, cfg, w).1;
            && (PendsFree(w', c) ==> PendsFree(w, c) || !Blocked(t, c))
            && (RecordsFree(w, c) ==> PendsFree(w, c) && !PendsFree(w', c))
            && (OwesFreeOne(c)(w') + (if RecordsFree(w, c) then 1 else 0)
                == OwesFreeOne(c)(w) + (if SendsFree(w, c) then 1 else 0))
  {
    hide DayOf, Failing, LimitsGiven, VerifyPow, Bumped, Upserted, AsIssued;
    if w.stage.Evaluate? && InDay(w, c) && Advanced(t, cfg, w).1.Busy? && !w.stage.pow.GoodProof? {
      PassedFirstRule(t, cfg, w, c.key);
    }
  }

  /** A statement unblocks only by an older claim, and records of the day block. */
  lemma FreeClaimRow(t: Tables, cfg: FaucetCfg, w: Worker, c: Claim)
    requires w.Busy?
    ensures var t' := Advanced(t, cfg, w).0;
            && (RecordsFree(w, c) ==> Blocked(t', c))
            && (Blocked(t, c) && !Blocked(t', c) ==> OverwritesOlder(w, c))
  {
    hide Advanced;
    StatementOnClaims(t, cfg, w);
  }

  lemma AdvanceFree(expiryOf: NonceKey -> real, cfgs: string -> FaucetCfg, s: State, step: Step, y: Tally, c: Claim)
    requires AllSound(expiryOf, s) && Enabled(expiryOf, s, step) && step.Advance?
    requires FreeInvariant(s, y, c) && cfgs(c.key.net).onePerIpPerDay
    ensures FreeInvariant(Next(cfgs, s, step), Counted(y, s, step, c), c)
  {
    hide Advanced, Sound, Owing, Pending, PendsFree, OwesFree, SendsFree, RecordsFree, OverwritesOlder, Blocked, Budget;
    var s', w := Next(cfgs, s, step), s.workers[step.i];
    FreeStatement(expiryOf, s.t, cfgs(w.r.net), w, c);
    FreeClaimRow(s.t, cfgs(w.r.net), w, c);
    TotalsUpdate(s, s', c, step.i, Advanced(s.t, cfgs(w.r.net), w).1);
    BudgetStep(|s.workers|, y.reopened);
    BudgetStep(|s.workers|, y.reopened + 1);
  }

  lemma OtherFree(expiryOf: NonceKey -> real, cfgs: string -> FaucetCfg, s: State, step: Step, y: Tally, c: Claim)
    requires Enabled(expiryOf, s, step) && !step.Advance? && FreeInvariant(s, y, c)
    ensures FreeInvariant(Next(cfgs, s, step), Counted(y, s, step, c), c)
  {
    hide Owing, Pending, PendsFree, OwesFree, SendsFree, RecordsFree, OverwritesOlder, Budget;
    hide DayOf, PurgedUsage, AsIssued;
    var s' := Next(cfgs, s, step);
    BudgetStep(|s.workers|, y.reopened);
    BudgetStep(|s.workers|, y.reopened + 1);
    if step.Begin? || step.Crash? {
      var w := if step.Begin? then Busy(step.r, s.clock, CountUsage) else Idle;
      TotalsUpdate(s, s', c, step.i, w);
      NotPending(w, c);
      NotPending(s.workers[step.i], c);
      OwesIsPending(s.workers[step.i], c);
    } else {
      SameTotals(s, s', c);
      if step.PurgeUsage? {
        UsagePurgeKeepsPow(s.t, step.at);
      }
    }
  }

  lemma NotPending(w: Worker, c: Claim)
    ensures w.Idle? || w.stage.CountUsage? ==> !PendsFree(w, c) && !OwesFree(w, c)
  {
  }

  lemma OwesIsPending(w: Worker, c: Claim)
    ensures OwesFree(w, c) ==> PendsFree(w, c)
  {
  }

  lemma SameTotals(s: State, s': State, c: Claim)
    requires s.workers == s'.workers
    ensures Owing(s, c) == Owing(s', c) && Pending(s, c) == Pending(s', c)
  {
  }

  lemma {:induction false} AlwaysFree(run: Run, c: Claim, n: nat)
    requires n <= |run.steps| && Initial(run.start) && run.cfgs(c.key.net).onePerIpPerDay
    ensures FreeInvariant(At(run, n), TallyAt(run, c, n), c)
  {
    hide FreeInvariant, Next, Enabled, AllSound, Counted;
    if n == 0 {
      NothingFree(run.start, c);
    } else {
      var s, step := At(run, n - 1), run.steps[n - 1];
      AlwaysFree(run, c, n - 1);
      AlwaysSound(run, n - 1);
      if !Enabled(run.expiryOf, s, step) {
        NothingCounted(run.expiryOf, TallyAt(run, c, n - 1), s, step, c);
      } else if step.Advance? {
        AdvanceFree(run.expiryOf, run.cfgs, s, step, TallyAt(run, c, n - 1), c);
      } else {
        OtherFree(run.expiryOf, run.cfgs, s, step, TallyAt(run, c, n - 1), c);
      }
    }
  }

  lemma NothingFree(s: State, c: Claim)
    requires Initial(s)
    ensures FreeInvariant(s, Tally(0, 0, 0, 0), c)
  {
    TotalIdle(s.workers, OwesFreeOne(c));
    TotalIdle(s.workers, PendsFreeOne(c));
  }

  lemma NothingCounted(expiryOf: NonceKey -> real, y: Tally, s: State, step: Step, c: Claim)
    requires !Enabled(expiryOf, s, step)
    ensures Counted(y, s, step, c) == y
  {
    hide OwesFree, SendsFree, RecordsFree, OverwritesOlder, Blocked;
    if step.Crash? && step.i < |s.workers| {
      OwesIsBusy(s.workers[step.i], c);
    }
  }

  lemma OwesIsBusy(w: Worker, c: Claim)
    ensures OwesFree(w, c) ==> w.Busy?
  {
  }

  /**
    In every interleaving, of the requests of one visitor read within any one day at most one
    per worker is paid free, and one per worker again each time the visitor's row is purged
    or overwritten by an older claim, besides those whose worker died before recording.
   */
  lemma FreeOvershootBounded(run: Run, c: Claim, n: nat)
    requires n <= |run.steps| && Initial(run.start) && run.cfgs(c.key.net).onePerIpPerDay
    ensures var y := TallyAt(run, c, n);
            y.sends <= Budget(|run.start.workers|, y.reopened + 1) + y.abandoned
  {
    hide At, TallyAt, Blocked, OwesFree, PendsFree, Budget;
    var s, y := At(run, n), TallyAt(run, c, n);
    AlwaysFree(run, c, n);
    WorkersStay(run, n);
    BudgetStep(|s.workers|, y.reopened);
    forall w ensures OwesFreeOne(c)(w) <= PendsFreeOne(c)(w) {
      OwesIsPending(w, c);
    }
    TotalBelow(s.workers, OwesFreeOne(c), PendsFreeOne(c));
  }
}
