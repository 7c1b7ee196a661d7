/**
  Whole runs of interleaved workers, purges, crashes and clock ticks: single-use
  challenges, exact counters and the daily maintenance claim.
 */
module FaucetInterleaved {
  import opened Options
  import opened FaucetStore
  import opened Faucet
  import opened FaucetWorkers

  datatype State = State(t: Tables, clock: real, workers: seq<Worker>)

  /** Purges and maintenance claims carry the clock reading they act on, possibly an old one. */
  datatype Step =
    | Tick(dt: real)
    | Begin(i: nat, r: Request)
    | Advance(i: nat)
    | Crash(i: nat)
    | PurgeNonces(at: real)
    | PurgePowClaims(at: real)
    | PurgeIpClaims(at: real)
    | PurgeUsage(at: real)
    | ClaimRun(at: real)

  /** A run: any steps in any order; one that is not possible in its state does nothing. */
  datatype Run = Run(cfgs: string -> FaucetCfg, expiryOf: NonceKey -> real, start: State, steps: seq<Step>)

  /** The challenge a request carries is the one issued with its nonce. */
  predicate AsIssued(expiryOf: NonceKey -> real, r: Request) {
    r.proof.Some? && r.proof.value.token.Issued? ==>
      Expiry(r.proof.value.token) == expiryOf(KeyOf(r.proof.value.token))
  }

  predicate Enabled(expiryOf: NonceKey -> real, s: State, step: Step) {
    match step
    case Tick(dt) => dt >= 0.0
    case Begin(i, r) => i < |s.workers| && s.workers[i].Idle? && AsIssued(expiryOf, r)
    case Advance(i) => i < |s.workers| && s.workers[i].Busy?
    case Crash(i) => i < |s.workers| && s.workers[i].Busy?
    case _ => step.at <= s.clock
  }

  ghost function Next(cfgs: string -> FaucetCfg, s: State, step: Step): State
    requires step.Begin? || step.Advance? || step.Crash? ==> step.i < |s.workers|
    requires step.Advance? ==> s.workers[step.i].Busy?
  {
    match step
    case Tick(dt) => s.(clock := s.clock + dt)
    case Begin(i, r) => s.(workers := s.workers[i := Busy(r, s.clock, CountUsage)])
    case Advance(i) =>
      var (t', w') := Advanced(s.t, cfgs(s.workers[i].r.net), s.workers[i]);
      s.(t := t', workers := s.workers[i := w'])
    case Crash(i) => s.(workers := s.workers[i := Idle])
    case PurgeNonces(at) => s.(t := PurgedNonces(s.t, at))
    case PurgePowClaims(at) => s.(t := PurgedPow(s.t, at))
    case PurgeIpClaims(at) => s.(t := PurgedIps(s.t, at))
    case PurgeUsage(at) => s.(t := PurgedUsage(s.t, at))
    case ClaimRun(at) => if s.t.lastRun <= at - DAY_SECONDS then s.(t := s.t.(lastRun := at)) else s
  }

  ghost function At(run: Run, n: nat): State
    requires n <= |run.steps|
  {
    if n == 0 then run.start
    else
      var s := At(run, n - 1);
      if Enabled(run.expiryOf, s, run.steps[n - 1]) then Next(run.cfgs, s, run.steps[n - 1]) else s
  }

  predicate Initial(s: State) {
    s.t == EMPTY && forall i :: 0 <= i < |s.workers| ==> s.workers[i].Idle?
  }

  /** Sums one number per worker. */
  ghost function Total(workers: seq<Worker>, f: Worker -> nat): nat {
    if workers == [] then 0 else f(workers[0]) + Total(workers[1..], f)
  }

  lemma {:induction false} TotalUpdate(workers: seq<Worker>, f: Worker -> nat, i: nat, w: Worker)
    requires i < |workers|
    ensures Total(workers[i := w], f) + f(workers[i]) == Total(workers, f) + f(w)
  {
    if i == 0 {
      assert workers[0 := w][1..] == workers[1..];
    } else {
      assert workers[i := w][1..] == workers[1..][i - 1 := w];
      TotalUpdate(workers[1..], f, i - 1, w);
    }
  }

  lemma {:induction false} TotalIdle(workers: seq<Worker>, f: Worker -> nat)
    requires (forall i :: 0 <= i < |workers| ==> workers[i].Idle?) && f(Idle) == 0
    ensures Total(workers, f) == 0
  {
    if workers != [] {
      TotalIdle(workers[1..], f);
    }
  }

  /** The step lets a busy worker execute its next statement. */
  predicate Turn(s: State, step: Step) {
    step.Advance? && step.i < |s.workers| && s.workers[step.i].Busy?
  }

  // -- single-use challenges -----------------------------------------------------------

  /** The worker is about to send coins for the challenge with nonce k. */
  predicate Holds(w: Worker, k: NonceKey) {
    w.Busy? && w.stage.Send? && w.stage.spent.Some? && KeyOf(w.stage.spent.value) == k
  }

  function HoldsOne(k: NonceKey): Worker -> nat {
    (w: Worker) => if Holds(w, k) then 1 else 0
  }

  predicate BeforeRedeem(stage: Stage) {
    stage.CountUsage? || stage.MaxUsage? || stage.ReadPowClaims? || stage.Evaluate? || stage.Redeem?
  }

  /** The worker carries challenge k, not yet redeemed, and its clock reading was in time. */
  predicate Live(w: Worker, k: NonceKey) {
    && w.Busy? && BeforeRedeem(w.stage) && w.r.proof.Some? && w.r.proof.value.token.Issued?
    && KeyOf(w.r.proof.value.token) == k && w.now <= Expiry(w.r.proof.value.token)
  }

  /** Calls to the node that send coins for nonce k among the first n steps. */
  ghost function Sends(run: Run, k: NonceKey, n: nat): nat
    requires n <= |run.steps|
  {
    if n == 0 then 0
    else
      var s, step := At(run, n - 1), run.steps[n - 1];
      Sends(run, k, n - 1) + if Turn(s, step) && Holds(s.workers[step.i], k) then 1 else 0
  }

  /** A purge timed after k's expiry, between a request's clock reading and its redeem. */
  predicate Overtakes(expiryOf: NonceKey -> real, s: State, step: Step, k: NonceKey) {
    step.PurgeNonces? && step.at <= s.clock && expiryOf(k) < step.at
    && exists i :: 0 <= i < |s.workers| && Live(s.workers[i], k)
  }

  ghost function Overtakings(run: Run, k: NonceKey, n: nat): nat
    requires n <= |run.steps|
  {
    if n == 0 then 0
    else Overtakings(run, k, n - 1) + if Overtakes(run.expiryOf, At(run, n - 1), run.steps[n - 1], k) then 1 else 0
  }

  /** What a worker holds came from its own request. */
  predicate Sound(expiryOf: NonceKey -> real, w: Worker) {
    w.Busy? ==>
      && AsIssued(expiryOf, w.r)
      && (w.stage.Evaluate? ==>
            var ctx := w.stage.ctx;
            ctx.net == w.r.net && ctx.ip == w.r.ip && ctx.now == w.now && ctx.powVerified == w.stage.pow.GoodProof?)
      && (w.stage.Evaluate? && w.stage.pow.GoodProof? ==>
            w.r.proof == Some(Proof(w.stage.pow.token, true)) && w.now <= Expiry(w.stage.pow.token))
      && (w.stage.Redeem? ==> w.r.proof == Some(Proof(w.stage.token, true)) && w.now <= Expiry(w.stage.token))
  }

  predicate AllSound(expiryOf: NonceKey -> real, s: State) {
    && (forall i :: 0 <= i < |s.workers| ==> Sound(expiryOf, s.workers[i]))
    && (forall k :: k in s.t.nonces ==> s.t.nonces[k] == expiryOf(k))
  }

  lemma AdvancedSound(expiryOf: NonceKey -> real, t: Tables, cfg: FaucetCfg, w: Worker)
    requires w.Busy? && Sound(expiryOf, w)
    ensures Sound(expiryOf, Advanced(t, cfg, w).1)
  {
    hide DayOf, Failing, LimitsGiven, PowClaimsToday;
    hide Verify;
  }

  /** What one statement does to the spent nonces. */
  lemma AdvancedNonces(t: Tables, cfg: FaucetCfg, w: Worker)
    requires w.Busy?
    ensures Advanced(t, cfg, w).0.nonces
         == if w.stage.Redeem? && KeyOf(w.stage.token) !in t.nonces
            then t.nonces[KeyOf(w.stage.token) := Expiry(w.stage.token)] else t.nonces
  {
    hide DayOf, Failing, LimitsGiven, PowClaimsToday, VerifyPow, Bumped, Upserted;
  }

  /** Only a redeem whose nonce was unspent makes a holder, and sending uses it up. */
  lemma AdvancedHolds(t: Tables, cfg: FaucetCfg, w: Worker, k: NonceKey)
    requires w.Busy?
    ensures Holds(Advanced(t, cfg, w).1, k) <==> w.stage.Redeem? && KeyOf(w.stage.token) == k && k !in t.nonces
    ensures Live(Advanced(t, cfg, w).1, k) ==> Live(w, k)
  {
    hide DayOf, Failing, LimitsGiven, PowClaimsToday, VerifyPow, Bumped, Upserted;
  }

  lemma {:induction false} AlwaysSound(run: Run, n: nat)
    requires n <= |run.steps| && Initial(run.start)
    ensures AllSound(run.expiryOf, At(run, n))
  {
    hide Advanced, Sound;
    if n == 0 {
      StartSound(run);
    } else {
      AlwaysSound(run, n - 1);
      if Enabled(run.expiryOf, At(run, n - 1), run.steps[n - 1]) {
        StepSound(run.expiryOf, run.cfgs, At(run, n - 1), run.steps[n - 1]);
      }
    }
  }

  lemma StartSound(run: Run)
    requires Initial(run.start)
    ensures AllSound(run.expiryOf, run.start)
  {
  }

  lemma StepSound(expiryOf: NonceKey -> real, cfgs: string -> FaucetCfg, s: State, step: Step)
    requires AllSound(expiryOf, s) && Enabled(expiryOf, s, step)
    ensures AllSound(expiryOf, Next(cfgs, s, step))
  {
    hide Advanced, DayOf, Sound, AsIssued;
    if step.Advance? {
      var w := s.workers[step.i];
      AdvancedSound(expiryOf, s.t, cfgs(w.r.net), w);
      AdvancedNonces(s.t, cfgs(w.r.net), w);
      if w.stage.Redeem? {
        RedeemSound(expiryOf, w);
      }
    } else if step.Begin? {
      BeginSound(expiryOf, step.r, s.clock);
    } else if step.Crash? {
      IdleSound(expiryOf);
    }
  }

  lemma RedeemSound(expiryOf: NonceKey -> real, w: Worker)
    requires w.Busy? && Sound(expiryOf, w) && w.stage.Redeem?
    ensures Expiry(w.stage.token) == expiryOf(KeyOf(w.stage.token)) && Live(w, KeyOf(w.stage.token))
  {
  }

  lemma BeginSound(expiryOf: NonceKey -> real, r: Request, now: real)
    requires AsIssued(expiryOf, r)
    ensures Sound(expiryOf, Busy(r, now, CountUsage))
  {
  }

  lemma IdleSound(expiryOf: NonceKey -> real)
    ensures Sound(expiryOf, Idle)
  {
  }

  ghost predicate SomeLive(s: State, k: NonceKey) {
    exists i :: 0 <= i < |s.workers| && Live(s.workers[i], k)
  }

  /** The nonce can never be won again, unless a purge overtakes a request. */
  ghost predicate Closed(expiryOf: NonceKey -> real, s: State, k: NonceKey) {
    k in s.t.nonces || (expiryOf(k) < s.clock && !SomeLive(s, k))
  }

  /** The number of workers about to send for k. */
  ghost function Holders(s: State, k: NonceKey): nat {
    Total(s.workers, HoldsOne(k))
  }

  lemma HoldersUpdate(s: State, k: NonceKey, i: nat, w: Worker)
    requires i < |s.workers|
    ensures Holders(s.(workers := s.workers[i := w]), k) + (if Holds(s.workers[i], k) then 1 else 0)
         == Holders(s, k) + (if Holds(w, k) then 1 else 0)
  {
    TotalUpdate(s.workers, HoldsOne(k), i, w);
  }

  lemma HoldersSame(s: State, s': State, k: NonceKey)
    requires s.workers == s'.workers
    ensures Holders(s, k) == Holders(s', k)
  {
  }

  /** Replacing a worker by one that is live only if it was makes no nonce winnable. */
  lemma LiveUpdate(s: State, s': State, k: NonceKey, i: nat, w: Worker)
    requires i < |s.workers| && s'.workers == s.workers[i := w]
    requires Live(w, k) ==> Live(s.workers[i], k)
    ensures SomeLive(s', k) ==> SomeLive(s, k)
  {
    hide Live;
    if SomeLive(s', k) {
      var j :| 0 <= j < |s'.workers| && Live(s'.workers[j], k);
      assert Live(s.workers[j], k);
    }
  }

  /** What one step does: holders grow only by a redeem that closes an open nonce. */
  ghost predicate Progress(expiryOf: NonceKey -> real, s: State, step: Step, s': State, k: NonceKey) {
    var sent := if Turn(s, step) && Holds(s.workers[step.i], k) then 1 else 0;
    var overtaken := if Overtakes(expiryOf, s, step, k) then 1 else 0;
    || (sent + Holders(s', k) <= Holders(s, k)
        && (Closed(expiryOf, s, k) ==> Closed(expiryOf, s', k) || overtaken == 1))
    || (sent + Holders(s', k) <= Holders(s, k) + 1 && !Closed(expiryOf, s, k) && Closed(expiryOf, s', k))
  }

  lemma AdvanceProgress(expiryOf: NonceKey -> real, cfgs: string -> FaucetCfg, s: State, step: Step, k: NonceKey)
    requires AllSound(expiryOf, s) && Enabled(expiryOf, s, step) && step.Advance?
    ensures Progress(expiryOf, s, step, Next(cfgs, s, step), k)
  {
    hide Advanced, Sound, Live, Holds, Holders, SomeLive;
    var w := s.workers[step.i];
    var (t', w') := Advanced(s.t, cfgs(w.r.net), w);
    var s' := Next(cfgs, s, step);
    AdvancedNonces(s.t, cfgs(w.r.net), w);
    AdvancedHolds(s.t, cfgs(w.r.net), w, k);
    HoldersUpdate(s, k, step.i, w');
    HoldersSame(s.(workers := s.workers[step.i := w']), s', k);
    LiveUpdate(s, s', k, step.i, w');
    if w.stage.Redeem? {
      RedeemSound(expiryOf, w);
      HasLive(s, KeyOf(w.stage.token), step.i);
      NotHolding(w, k);
    }
  }

  lemma HasLive(s: State, k: NonceKey, i: nat)
    requires i < |s.workers| && Live(s.workers[i], k)
    ensures SomeLive(s, k)
  {
  }

  lemma NotHolding(w: Worker, k: NonceKey)
    requires w.Busy? && !w.stage.Send?
    ensures !Holds(w, k)
  {
  }

  /** A request begun after the expiry is not live. */
  lemma BeginProgress(expiryOf: NonceKey -> real, cfgs: string -> FaucetCfg, s: State, step: Step, k: NonceKey)
    requires Enabled(expiryOf, s, step) && step.Begin?
    ensures Progress(expiryOf, s, step, Next(cfgs, s, step), k)
  {
    hide Holders, SomeLive;
    var w := Busy(step.r, s.clock, CountUsage);
    var s' := Next(cfgs, s, step);
    HoldersUpdate(s, k, step.i, w);
    if expiryOf(k) < s.clock {
      LiveUpdate(s, s', k, step.i, w);
    }
  }

  lemma CrashProgress(expiryOf: NonceKey -> real, cfgs: string -> FaucetCfg, s: State, step: Step, k: NonceKey)
    requires Enabled(expiryOf, s, step) && step.Crash?
    ensures Progress(expiryOf, s, step, Next(cfgs, s, step), k)
  {
    hide Holders, SomeLive;
    HoldersUpdate(s, k, step.i, Idle);
    LiveUpdate(s, Next(cfgs, s, step), k, step.i, Idle);
  }

  /** The purge's strict test and the verifier's strict test fit: only expired rows go. */
  lemma PurgeProgress(expiryOf: NonceKey -> real, cfgs: string -> FaucetCfg, s: State, step: Step, k: NonceKey)
    requires AllSound(expiryOf, s) && Enabled(expiryOf, s, step) && step.PurgeNonces?
    ensures Progress(expiryOf, s, step, Next(cfgs, s, step), k)
  {
    hide Holders, Live, Sound;
    var s' := Next(cfgs, s, step);
    HoldersSame(s, s', k);
    if k in s.t.nonces && k !in s'.t.nonces {
      assert expiryOf(k) < step.at <= s.clock;
    }
  }

  lemma OtherProgress(expiryOf: NonceKey -> real, cfgs: string -> FaucetCfg, s: State, step: Step, k: NonceKey)
    requires Enabled(expiryOf, s, step)
    requires !step.Begin? && !step.Advance? && !step.Crash? && !step.PurgeNonces?
    ensures Progress(expiryOf, s, step, Next(cfgs, s, step), k)
  {
    hide Holders, Live;
    HoldersSame(s, Next(cfgs, s, step), k);
  }

  lemma StepProgress(expiryOf: NonceKey -> real, cfgs: string -> FaucetCfg, s: State, step: Step, k: NonceKey)
    requires AllSound(expiryOf, s) && Enabled(expiryOf, s, step)
    ensures Progress(expiryOf, s, step, Next(cfgs, s, step), k)
  {
    hide Progress, AllSound, Enabled, Next;
    match step {
      case Advance(_) => AdvanceProgress(expiryOf, cfgs, s, step, k);
      case Begin(_, _) => BeginProgress(expiryOf, cfgs, s, step, k);
      case Crash(_) => CrashProgress(expiryOf, cfgs, s, step, k);
      case PurgeNonces(_) => PurgeProgress(expiryOf, cfgs, s, step, k);
      case _ => OtherProgress(expiryOf, cfgs, s, step, k);
    }
  }

  /**
    In every interleaving, the sends and pending sends for one challenge are at most one
    more than the purges that overtook a request; at the bound the nonce is closed.
   */
  lemma {:induction false} SendsAndHolders(run: Run, k: NonceKey, n: nat)
    requires n <= |run.steps| && Initial(run.start)
    ensures var bound := 1 + Overtakings(run, k, n);
            && Sends(run, k, n) + Holders(At(run, n), k) <= bound
            && (Sends(run, k, n) + Holders(At(run, n), k) == bound ==> Closed(run.expiryOf, At(run, n), k))
  {
    hide Holders, Closed, Overtakes, Next, AllSound, Holds;
    if n == 0 {
      NoHolders(run.start, k);
    } else {
      SendsAndHolders(run, k, n - 1);
      AlwaysSound(run, n - 1);
      var s, step := At(run, n - 1), run.steps[n - 1];
      if Enabled(run.expiryOf, s, step) {
        StepProgress(run.expiryOf, run.cfgs, s, step, k);
      }
    }
  }

  lemma NoHolders(s: State, k: NonceKey)
    requires Initial(s)
    ensures Holders(s, k) == 0
  {
    TotalIdle(s.workers, HoldsOne(k));
  }

  /** One challenge, at most one send, whatever interleaves, unless a purge overtakes. */
  lemma AtMostOneSend(run: Run, k: NonceKey)
    requires Initial(run.start)
    ensures Sends(run, k, |run.steps|) <= 1 + Overtakings(run, k, |run.steps|)
    ensures (forall n :: 0 <= n < |run.steps| ==> !Overtakes(run.expiryOf, At(run, n), run.steps[n], k))
            ==> Sends(run, k, |run.steps|) <= 1
  {
    hide Overtakes, At;
    SendsAndHolders(run, k, |run.steps|);
    if forall n :: 0 <= n < |run.steps| ==> !Overtakes(run.expiryOf, At(run, n), run.steps[n], k) {
      NoOvertakings(run, k, |run.steps|);
    }
  }

  lemma {:induction false} NoOvertakings(run: Run, k: NonceKey, n: nat)
    requires n <= |run.steps|
    requires forall m :: 0 <= m < n ==> !Overtakes(run.expiryOf, At(run, m), run.steps[m], k)
    ensures Overtakings(run, k, n) == 0
  {
    hide Overtakes, At;
    if n > 0 {
      NoOvertakings(run, k, n - 1);
    }
  }
}
