/**
  Concurrent faucet workers and the maintenance thread over one database. Every SQL
  statement, every call to the node and every clock reading is one atomic step, and any
  number of workers interleave freely (argus/faucet/app.py, store.py, maintenance.py).
 */
module FaucetWorkers {
  import opened Options
  import opened FaucetStore
  import opened Faucet
  import Usage

  /** What a worker does next; spent is the challenge it has redeemed, if any. */
  datatype Stage =
    | CountUsage
    | MaxUsage(counts: map<DayKey, nat>)
    | ReadPowClaims(limits: Limits)
    | Evaluate(ctx: Context, pow: PowCheck)
    | Redeem(sats: nat, token: IssuedToken)
    | Send(sats: nat, spent: Option<IssuedToken>)
    | RecordPayout(sats: nat, spent: Option<IssuedToken>)
    | UpdateUsage(spent: Option<IssuedToken>)
    | InsertUsage(spent: Option<IssuedToken>)
    | RecordClaim(spent: Option<IssuedToken>)
    | InsertPowClaim(ip: string)

  /** A worker thread; now is its one clock reading for the request. */
  datatype Worker = Idle | Busy(r: Request, now: real, stage: Stage)

  function Today(w: Worker): DayKey
    requires w.Busy?
  {
    DayKey(w.r.net, DayOf(w.now))
  }

  /** Executes a busy worker's next statement. */
  ghost function Advanced(t: Tables, cfg: FaucetCfg, w: Worker): (Tables, Worker)
    requires w.Busy?
  {
    var r, now := w.r, w.now;
    match w.stage
    case CountUsage =>
      if cfg.maxAmountPerDay && r.balance.Some? then (t, w.(stage := MaxUsage(t.usage)))
      else (t, w.(stage := ReadPowClaims(LimitsGiven(cfg, 0, r.balance))))
    case MaxUsage(counts) =>
      var expected := Usage.Expected(counts, r.net, Usage.Busiest(t.usage, r.net), DayOf(now));
      (t, w.(stage := ReadPowClaims(LimitsGiven(cfg, expected, r.balance))))
    case ReadPowClaims(limits) =>
      if !r.addressValid || r.sats.None? then (t, Idle)
      else
        var pow := VerifyPow(cfg, r, r.sats.value, now);
        var ctx := Context(r.net, r.ip, r.sats.value, now, limits, pow.GoodProof?, PowClaimsToday(t, r, now));
        (t, w.(stage := Evaluate(ctx, pow)))
    case Evaluate(ctx, pow) =>
      if !r.approved || pow.BadProof? || Failing(RULES, cfg, t, ctx) != [] then (t, Idle)
      else if pow.GoodProof? then (t, w.(stage := Redeem(ctx.sats, pow.token)))
      else (t, w.(stage := Send(ctx.sats, None)))
    case Redeem(sats, token) =>
      if KeyOf(token) in t.nonces then (t, Idle)
      else (t.(nonces := t.nonces[KeyOf(token) := Expiry(token)]), w.(stage := Send(sats, Some(token))))
    case Send(sats, spent) => (t, if r.routed then w.(stage := RecordPayout(sats, spent)) else Idle)
    case RecordPayout(sats, spent) =>
      (t.(payouts := t.payouts + [Payout(r.net, sats, r.address)]), w.(stage := UpdateUsage(spent)))
    case UpdateUsage(spent) =>
      (t.(usage := Bumped(t.usage, Today(w))),
       w.(stage := if Today(w) in t.usage then RecordClaim(spent) else InsertUsage(spent)))
    case InsertUsage(spent) =>
      (t.(usage := Upserted(t.usage, Today(w))), w.(stage := RecordClaim(spent)))
    case RecordClaim(spent) =>
      if r.ip.None? then (t, Idle)
      else if spent.None? then (t.(ipClaims := t.ipClaims[IpKey(r.net, r.ip.value) := now]), Idle)
      else
        var k := PowKey(r.net, r.ip.value, DayOf(now));
        (t.(powClaims := Bumped(t.powClaims, k)),
         if k in t.powClaims then Idle else w.(stage := InsertPowClaim(r.ip.value)))
    case InsertPowClaim(ip) =>
      (t.(powClaims := Upserted(t.powClaims, PowKey(r.net, ip, DayOf(now)))), Idle)
  }

  // -- a worker alone ----------------------------------------------------------------

  function StepsLeft(w: Worker): nat {
    if w.Idle? then 0
    else match w.stage
      case CountUsage => 11
      case MaxUsage(_) => 10
      case ReadPowClaims(_) => 9
      case Evaluate(_, _) => 8
      case Redeem(_, _) => 7
      case Send(_, _) => 6
      case RecordPayout(_, _) => 5
      case UpdateUsage(_) => 4
      case InsertUsage(_) => 3
      case RecordClaim(_) => 2
      case InsertPowClaim(_) => 1
  }

  lemma EveryStatementAdvances(t: Tables, cfg: FaucetCfg, w: Worker)
    requires w.Busy?
    ensures StepsLeft(Advanced(t, cfg, w).1) < StepsLeft(w)
  {
    hide VerifyPow, Failing, LimitsGiven, Usage.Expected, PowClaimsToday, DayOf;
  }

  /** The tables after a worker finished its request undisturbed. */
  ghost function Alone(t: Tables, cfg: FaucetCfg, w: Worker): Tables
    decreases StepsLeft(w)
  {
    if w.Idle? then t
    else
      EveryStatementAdvances(t, cfg, w);
      var (t', w') := Advanced(t, cfg, w);
      Alone(t', cfg, w')
  }

  lemma AloneStep(t: Tables, cfg: FaucetCfg, w: Worker)
    requires w.Busy?
    ensures Alone(t, cfg, w) == Alone(Advanced(t, cfg, w).0, cfg, Advanced(t, cfg, w).1)
  {
  }

  lemma ClaimAlone(t: Tables, cfg: FaucetCfg, w: Worker)
    requires w.Busy? && w.stage.RecordClaim?
    ensures Alone(t, cfg, w)
         == if w.r.ip.None? then t
            else if w.stage.spent.Some?
            then t.(powClaims := Upserted(t.powClaims, PowKey(w.r.net, w.r.ip.value, DayOf(w.now))))
            else t.(ipClaims := t.ipClaims[IpKey(w.r.net, w.r.ip.value) := w.now])
  {
    hide Alone, DayOf;
    AloneStep(t, cfg, w);
    var (t', w') := Advanced(t, cfg, w);
    if w'.Busy? {
      AloneStep(t', cfg, w');
    }
    IdleAlone(t, cfg);
    IdleAlone(t', cfg);
    if w'.Busy? {
      IdleAlone(Advanced(t', cfg, w').0, cfg);
    }
  }

  lemma IdleAlone(t: Tables, cfg: FaucetCfg)
    ensures Alone(t, cfg, Idle) == t
  {
  }

  lemma UsageAlone(t: Tables, cfg: FaucetCfg, w: Worker)
    requires w.Busy? && w.stage.UpdateUsage?
    ensures Alone(t, cfg, w)
         == Alone(t.(usage := Upserted(t.usage, Today(w))), cfg, w.(stage := RecordClaim(w.stage.spent)))
  {
    hide Alone, DayOf;
    AloneStep(t, cfg, w);
    if Today(w) !in t.usage {
      AloneStep(t, cfg, w.(stage := InsertUsage(w.stage.spent)));
    }
  }

  lemma PayoutAlone(t: Tables, cfg: FaucetCfg, w: Worker)
    requires w.Busy? && w.stage.Send?
    ensures Alone(t, cfg, w) == if w.r.routed then Paid(t, w.r, w.stage.sats, w.now, w.stage.spent.Some?) else t
  {
    hide Alone, DayOf, Upserted;
    AloneStep(t, cfg, w);
    if w.r.routed {
      var w1 := w.(stage := RecordPayout(w.stage.sats, w.stage.spent));
      AloneStep(t, cfg, w1);
      var t1, w2 := Advanced(t, cfg, w1).0, Advanced(t, cfg, w1).1;
      UsageAlone(t1, cfg, w2);
      ClaimAlone(t1.(usage := Upserted(t1.usage, Today(w2))), cfg, w2.(stage := RecordClaim(w2.stage.spent)));
    } else {
      IdleAlone(t, cfg);
    }
  }

  lemma LimitsAlone(t: Tables, cfg: FaucetCfg, r: Request, now: real)
    ensures Alone(t, cfg, Busy(r, now, CountUsage))
         == Alone(t, cfg, Busy(r, now, ReadPowClaims(LimitsOf(cfg, t, r.net, r.balance, now))))
  {
    hide Alone, DayOf, Usage.Expected, Usage.Busiest, DailyCap, BalanceCap;
    var w := Busy(r, now, CountUsage);
    AloneStep(t, cfg, w);
    if Advanced(t, cfg, w).1.stage.MaxUsage? {
      AloneStep(t, cfg, Advanced(t, cfg, w).1);
    }
  }

  /** A worker nobody disturbs does what one request does: the two models agree. */
  lemma AloneIsProcessed(t: Tables, cfg: FaucetCfg, r: Request, now: real)
    ensures Alone(t, cfg, Busy(r, now, CountUsage)) == Processed(t, cfg, r, now).0
  {
    hide Alone, DayOf, LimitsOf, VerifyPow, Failing, Paid, PowClaimsToday;
    LimitsAlone(t, cfg, r, now);
    var w := Busy(r, now, ReadPowClaims(LimitsOf(cfg, t, r.net, r.balance, now)));
    AloneStep(t, cfg, w);
    IdleAlone(t, cfg);
    var w1 := Advanced(t, cfg, w).1;
    if w1.Busy? {
      AloneStep(t, cfg, w1);
      var w2 := Advanced(t, cfg, w1).1;
      NothingFails(cfg, t, r, now);
      if w2.Busy? && w2.stage.Send? {
        PayoutAlone(t, cfg, w2);
      } else if w2.Busy? {
        AloneStep(t, cfg, w2);
        var (t', w3) := Advanced(t, cfg, w2);
        if w3.Busy? {
          PayoutAlone(t', cfg, w3);
        }
      }
    }
  }

  lemma NothingFails(cfg: FaucetCfg, t: Tables, r: Request, now: real)
    requires r.sats.Some?
    ensures FailuresOf(cfg, t, r, now) == []
       <==> r.approved && !VerifyPow(cfg, r, r.sats.value, now).BadProof?
            && Failing(RULES, cfg, t, ContextOf(cfg, t, r, r.sats.value, now)) == []
  {
    hide VerifyPow, Failing, ContextOf;
    var failing := Failing(RULES, cfg, t, ContextOf(cfg, t, r, r.sats.value, now));
    assert |AsFailures(failing)| == |failing|;
  }
}
