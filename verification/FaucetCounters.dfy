/**
  The faucet's counters and the maintenance claim under any interleaving: an UPDATE that
  misses followed by an INSERT ... ON CONFLICT counts every payout exactly once.
 */
module FaucetCounters {
  import opened Options
  import opened FaucetStore
  import opened Faucet
  import opened FaucetWorkers
  import opened FaucetInterleaved

  /** A day's usage count, a visitor's proof-of-work claims of a day, or a network's logged payouts. */
  datatype Counter = UsageOf(day: DayKey) | PowClaimsOf(claim: PowKey) | LogOf(net: string)

  /** How many payouts of a network are logged. */
  function Logged(payouts: seq<Payout>, net: string): nat {
    if payouts == [] then 0
    else Logged(payouts[..|payouts| - 1], net) + if payouts[|payouts| - 1].net == net then 1 else 0
  }

  function Value(t: Tables, c: Counter): nat {
    match c
    case UsageOf(k) => CountOf(t.usage, k)
    case PowClaimsOf(k) => CountOf(t.powClaims, k)
    case LogOf(net) => Logged(t.payouts, net)
  }

  /** The daily purges leave the counter alone. */
  predicate Retained(c: Counter, now: real) {
    match c
    case UsageOf(k) => k.day >= DayOf(now) - USAGE_RETENTION_DAYS
    case PowClaimsOf(k) => k.day >= DayOf(now) - 1
    case LogOf(_) => true
  }

  /** A payout made in worker w's request, for the challenge spent, belongs to the counter. */
  predicate Concerns(c: Counter, w: Worker, spent: Option<IssuedToken>)
    requires w.Busy?
  {
    match c
    case UsageOf(k) => Today(w) == k
    case PowClaimsOf(k) => spent.Some? && w.r.ip.Some? && PowKey(w.r.net, w.r.ip.value, DayOf(w.now)) == k
    case LogOf(net) => w.r.net == net
  }

  /** The worker has paid out and not yet counted it. */
  predicate Owes(w: Worker, c: Counter) {
    w.Busy? &&
    match w.stage
    case RecordPayout(_, spent) => Concerns(c, w, spent)
    case UpdateUsage(spent) => !c.LogOf? && Concerns(c, w, spent)
    case InsertUsage(spent) => !c.LogOf? && Concerns(c, w, spent)
    case RecordClaim(spent) => c.PowClaimsOf? && Concerns(c, w, spent)
    case InsertPowClaim(ip) => c.PowClaimsOf? && PowKey(w.r.net, ip, DayOf(w.now)) == c.claim
    case _ => false
  }

  function OwesOne(c: Counter): Worker -> nat {
    (w: Worker) => if Owes(w, c) then 1 else 0
  }

  /** The worker's next step is a payout the counter has to count. */
  predicate PaysOut(w: Worker, c: Counter) {
    w.Busy? && w.stage.Send? && w.r.routed && Concerns(c, w, w.stage.spent)
  }

  ghost function Payouts(run: Run, c: Counter, n: nat): nat
    requires n <= |run.steps|
  {
    if n == 0 then 0
    else
      var s, step := At(run, n - 1), run.steps[n - 1];
      Payouts(run, c, n - 1) + if Turn(s, step) && PaysOut(s.workers[step.i], c) then 1 else 0
  }

  predicate Abandons(s: State, step: Step, c: Counter) {
    step.Crash? && step.i < |s.workers| && Owes(s.workers[step.i], c)
  }

  /** Payouts whose worker died before counting them. */
  ghost function Abandoned(run: Run, c: Counter, n: nat): nat
    requires n <= |run.steps|
  {
    if n == 0 then 0
    else Abandoned(run, c, n - 1) + if Abandons(At(run, n - 1), run.steps[n - 1], c) then 1 else 0
  }

  ghost function Owing(s: State, c: Counter): nat {
    Total(s.workers, OwesOne(c))
  }

  lemma OwingUpdate(s: State, s': State, c: Counter, i: nat, w: Worker)
    requires i < |s.workers| && s'.workers == s.workers[i := w]
    ensures Owing(s', c) + (if Owes(s.workers[i], c) then 1 else 0) == Owing(s, c) + (if Owes(w, c) then 1 else 0)
  {
    TotalUpdate(s.workers, OwesOne(c), i, w);
  }

  /** What a statement adds to a counter it takes off what the worker owes. */
  ghost predicate Balanced(t: Tables, cfg: FaucetCfg, w: Worker, c: Counter)
    requires w.Busy?
  {
    var (t', w') := Advanced(t, cfg, w);
    (Value(t', c) + (if Owes(w', c) then 1 else 0)
     == Value(t, c) + (if Owes(w, c) then 1 else 0) + (if PaysOut(w, c) then 1 else 0))
  }

  lemma BumpedAt<K>(m: map<K, nat>, k: K, j: K)
    ensures CountOf(Bumped(m, k), j) == CountOf(m, j) + (if k in m && j == k then 1 else 0)
    ensures CountOf(Upserted(m, k), j) == CountOf(m, j) + (if j == k then 1 else 0)
  {
  }

  /** The statement counts the payout for day k. */
  predicate CountsDay(t: Tables, w: Worker, k: DayKey)
    requires w.Busy?
  {
    Today(w) == k && (w.stage.InsertUsage? || (w.stage.UpdateUsage? && k in t.usage))
  }

  lemma UsageStatement(t: Tables, cfg: FaucetCfg, w: Worker, k: DayKey)
    requires w.Busy?
    ensures CountOf(Advanced(t, cfg, w).0.usage, k) == CountOf(t.usage, k) + (if CountsDay(t, w, k) then 1 else 0)
  {
    hide DayOf, Failing, LimitsGiven, PowClaimsToday, VerifyPow, Bumped, Upserted, CountOf, KeyOf, Expiry;
    BumpedAt(t.usage, Today(w), k);
  }

  lemma UsageOwing(t: Tables, cfg: FaucetCfg, w: Worker, c: Counter)
    requires w.Busy? && c.UsageOf?
    ensures var w' := Advanced(t, cfg, w).1;
            ((if Owes(w', c) then 1 else 0) + (if CountsDay(t, w, c.day) then 1 else 0)
             == (if Owes(w, c) then 1 else 0) + (if PaysOut(w, c) then 1 else 0))
  {
    hide DayOf, Failing, LimitsGiven, PowClaimsToday, VerifyPow, Bumped, Upserted, CountOf, KeyOf, Expiry;
  }

  lemma UsageBalanced(t: Tables, cfg: FaucetCfg, w: Worker, c: Counter)
    requires w.Busy? && c.UsageOf?
    ensures Balanced(t, cfg, w, c)
  {
    hide Advanced, Owes, PaysOut, CountOf, CountsDay;
    UsageStatement(t, cfg, w, c.day);
    UsageOwing(t, cfg, w, c);
  }

  lemma PowClaimsBalanced(t: Tables, cfg: FaucetCfg, w: Worker, c: Counter)
    requires w.Busy? && c.PowClaimsOf?
    ensures Balanced(t, cfg, w, c)
  {
    hide DayOf, Failing, LimitsGiven, PowClaimsToday, VerifyPow, Bumped, Upserted, CountOf, Logged, KeyOf, Expiry;
    if w.stage.InsertPowClaim? {
      BumpedAt(t.powClaims, PowKey(w.r.net, w.stage.ip, DayOf(w.now)), c.claim);
    } else if w.stage.RecordClaim? && w.r.ip.Some? {
      BumpedAt(t.powClaims, PowKey(w.r.net, w.r.ip.value, DayOf(w.now)), c.claim);
    }
  }

  lemma LogBalanced(t: Tables, cfg: FaucetCfg, w: Worker, c: Counter)
    requires w.Busy? && c.LogOf?
    ensures Balanced(t, cfg, w, c)
  {
    hide DayOf, Failing, LimitsGiven, PowClaimsToday, VerifyPow, Bumped, Upserted, Logged;
    if w.stage.RecordPayout? {
      LoggedAfter(t.payouts, Payout(w.r.net, w.stage.sats, w.r.address), c.net);
    }
  }

  lemma LoggedAfter(payouts: seq<Payout>, p: Payout, net: string)
    ensures Logged(payouts + [p], net) == Logged(payouts, net) + if p.net == net then 1 else 0
  {
    assert (payouts + [p])[..|payouts|] == payouts;
  }

  lemma PurgeRetains(s: State, step: Step, c: Counter)
    requires step.PurgeUsage? || step.PurgePowClaims?
    requires step.at <= s.clock && Retained(c, s.clock)
    ensures step.PurgeUsage? ==> Value(PurgedUsage(s.t, step.at), c) == Value(s.t, c)
    ensures step.PurgePowClaims? ==> Value(PurgedPow(s.t, step.at), c) == Value(s.t, c)
  {
    hide DayOf;
    DayMonotone(step.at, s.clock);
  }

  /** One step of the system keeps payouts = counted + owed + abandoned. */
  lemma StepCounts(expiryOf: NonceKey -> real, cfgs: string -> FaucetCfg, s: State, step: Step, c: Counter)
    requires Enabled(expiryOf, s, step) && Retained(c, s.clock)
    ensures var s' := Next(cfgs, s, step);
            (Value(s'.t, c) + Owing(s', c) + (if Abandons(s, step, c) then 1 else 0)
             == Value(s.t, c) + Owing(s, c) + (if Turn(s, step) && PaysOut(s.workers[step.i], c) then 1 else 0))
  {
    hide Advanced, Owing, Owes, PaysOut, DayOf, Retained, PurgedUsage, PurgedPow;
    var s' := Next(cfgs, s, step);
    match step {
      case Advance(i) =>
        var w := s.workers[i];
        if c.UsageOf? {
          UsageBalanced(s.t, cfgs(w.r.net), w, c);
        } else if c.PowClaimsOf? {
          PowClaimsBalanced(s.t, cfgs(w.r.net), w, c);
        } else {
          LogBalanced(s.t, cfgs(w.r.net), w, c);
        }
        OwingUpdate(s, s', c, i, Advanced(s.t, cfgs(w.r.net), w).1);
      case Begin(i, r) =>
        OwingUpdate(s, s', c, i, Busy(r, s.clock, CountUsage));
        NotOwing(s.workers[i], Busy(r, s.clock, CountUsage), c);
      case Crash(i) =>
        OwingUpdate(s, s', c, i, Idle);
        NotOwing(Idle, Idle, c);
      case PurgeUsage(_) =>
        PurgeRetains(s, step, c);
        OwingSame(s, s', c);
      case PurgePowClaims(_) =>
        PurgeRetains(s, step, c);
        OwingSame(s, s', c);
      case _ =>
        OwingSame(s, s', c);
    }
  }

  lemma OwingSame(s: State, s': State, c: Counter)
    requires s.workers == s'.workers
    ensures Owing(s, c) == Owing(s', c)
  {
  }

  lemma NotOwing(idle: Worker, begun: Worker, c: Counter)
    requires idle.Idle? && (begun.Busy? ==> begun.stage.CountUsage?)
    ensures !Owes(idle, c) && !Owes(begun, c)
  {
  }

  lemma RetainedEarlier(expiryOf: NonceKey -> real, cfgs: string -> FaucetCfg, s: State, step: Step, c: Counter)
    requires Enabled(expiryOf, s, step) && Retained(c, Next(cfgs, s, step).clock)
    ensures Retained(c, s.clock)
  {
    hide Advanced, DayOf, PurgedUsage;
    DayMonotone(s.clock, Next(cfgs, s, step).clock);
  }

  /**
    In every interleaving, as long as a counter is inside its retention, it holds exactly
    the payouts made, less those still owed by a running worker or abandoned by a crash. So
    does the payout log, which no purge of these runs touches.
   */
  lemma {:induction false} CountersExact(run: Run, c: Counter, n: nat)
    requires n <= |run.steps| && Initial(run.start) && Retained(c, At(run, n).clock)
    ensures Value(At(run, n).t, c) + Owing(At(run, n), c) + Abandoned(run, c, n) == Payouts(run, c, n)
  {
    hide Next, Enabled, Retained, Owing, Owes, PaysOut, Abandons;
    if n == 0 {
      NothingOwed(run.start, c);
    } else {
      var s, step := At(run, n - 1), run.steps[n - 1];
      if Enabled(run.expiryOf, s, step) {
        RetainedEarlier(run.expiryOf, run.cfgs, s, step, c);
        CountersExact(run, c, n - 1);
        StepCounts(run.expiryOf, run.cfgs, s, step, c);
      } else {
        CountersExact(run, c, n - 1);
        Disabled(run.expiryOf, s, step, c);
      }
    }
  }

  lemma NothingOwed(s: State, c: Counter)
    requires Initial(s)
    ensures Owing(s, c) == 0 && Value(s.t, c) == 0
  {
    TotalIdle(s.workers, OwesOne(c));
  }

  lemma Disabled(expiryOf: NonceKey -> real, s: State, step: Step, c: Counter)
    requires !Enabled(expiryOf, s, step)
    ensures !Turn(s, step) && !Abandons(s, step, c)
  {
  }

  // -- the daily maintenance claim --------------------------------------------------------

  ghost predicate ClaimsRun(run: Run, n: nat)
    requires n < |run.steps|
  {
    var s, step := At(run, n), run.steps[n];
    step.ClaimRun? && step.at <= s.clock && s.t.lastRun <= step.at - DAY_SECONDS
  }

  lemma StatementsKeepLastRun(t: Tables, cfg: FaucetCfg, w: Worker)
    requires w.Busy?
    ensures Advanced(t, cfg, w).0.lastRun == t.lastRun
  {
    hide DayOf, Failing, LimitsGiven, PowClaimsToday, VerifyPow, Bumped, Upserted;
  }

  /** Only a successful claim moves the time of the last run. */
  lemma LastRunMoves(run: Run, n: nat)
    requires n < |run.steps|
    ensures At(run, n + 1).t.lastRun == if ClaimsRun(run, n) then run.steps[n].at else At(run, n).t.lastRun
  {
    hide Advanced, DayOf;
    var s, step := At(run, n), run.steps[n];
    if Turn(s, step) {
      StatementsKeepLastRun(s.t, run.cfgs(s.workers[step.i].r.net), s.workers[step.i]);
    }
  }

  lemma {:induction false} LastRunGrows(run: Run, m: nat, n: nat)
    requires m <= n <= |run.steps|
    ensures At(run, m).t.lastRun <= At(run, n).t.lastRun
  {
    hide At;
    if m < n {
      LastRunGrows(run, m, n - 1);
      LastRunMoves(run, n - 1);
    }
  }

  /** However many workers race, successful maintenance claims are a full interval apart. */
  lemma ClaimsAnIntervalApart(run: Run, m: nat, n: nat)
    requires m < n < |run.steps| && ClaimsRun(run, m) && ClaimsRun(run, n)
    ensures run.steps[n].at - run.steps[m].at >= DAY_SECONDS
  {
    hide At;
    LastRunMoves(run, m);
    LastRunGrows(run, m + 1, n);
  }
}
