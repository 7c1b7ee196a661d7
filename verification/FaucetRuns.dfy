/**
  Whole runs of the faucet with requests processed one at a time and the daily purge in
  between: the purging store answers like one that never forgets, and the limits hold.
 */
module FaucetRuns {
  import opened Options
  import opened FaucetStore
  import opened Faucet
  import Usage

  datatype Event = Submit(r: Request, at: real) | Maintain(at: real)

  type Configs = string -> FaucetCfg

  /** The purge of the short-lived tables is what the forgetful store adds. */
  ghost function Stepped(t: Tables, cfgs: Configs, e: Event, purging: bool): (Tables, Option<Result>) {
    match e
    case Submit(r, at) =>
      var (t', result) := Processed(t, cfgs(r.net), r, at);
      (t', Some(result))
    case Maintain(at) => (PurgedUsage(if purging then PurgedShortLived(t, at) else t, at), None)
  }

  ghost function Final(events: seq<Event>, cfgs: Configs, purging: bool): Tables {
    if events == [] then EMPTY
    else Stepped(Final(events[..|events| - 1], cfgs, purging), cfgs, events[|events| - 1], purging).0
  }

  ghost function ResultAt(events: seq<Event>, cfgs: Configs, purging: bool, i: nat): Option<Result>
    requires i < |events|
  {
    Stepped(Final(events[..i], cfgs, purging), cfgs, events[i], purging).1
  }

  /** The clock never runs backwards. */
  predicate Monotone(events: seq<Event>) {
    forall i, j :: 0 <= i < j < |events| ==> events[i].at <= events[j].at
  }

  /** The signed challenge an event submits, if any. */
  function ChallengeOf(e: Event): Option<IssuedToken> {
    if e.Submit? && e.r.proof.Some? && e.r.proof.value.token.Issued? then Some(e.r.proof.value.token) else None
  }

  /** The server's random nonces name one challenge each, so one expiry each. */
  predicate FreshNonces(events: seq<Event>) {
    forall i, j :: 0 <= i < |events| && 0 <= j < |events| ==>
      var a, b := ChallengeOf(events[i]), ChallengeOf(events[j]);
      a.Some? && b.Some? && KeyOf(a.value) == KeyOf(b.value) ==> Expiry(a.value) == Expiry(b.value)
  }

  // -- purging refines never forgetting -----------------------------------------

  /** What lean, the purging store, may have forgotten at time now. */
  ghost predicate Forgets(full: Tables, lean: Tables, now: real) {
    && full.payouts == lean.payouts && full.usage == lean.usage
    && (forall k :: k in lean.ipClaims ==> k in full.ipClaims && full.ipClaims[k] == lean.ipClaims[k])
    && (forall k :: k in full.ipClaims && k !in lean.ipClaims ==> full.ipClaims[k] < now - DAY_SECONDS)
    && (forall k :: k in lean.nonces ==> k in full.nonces && full.nonces[k] == lean.nonces[k])
    && (forall k :: k in full.nonces && k !in lean.nonces ==> full.nonces[k] < now)
    && (forall k :: k in lean.powClaims ==> k in full.powClaims && full.powClaims[k] == lean.powClaims[k])
    && (forall k :: k in full.powClaims && k !in lean.powClaims ==> k.day < DayOf(now))
  }

  /** A spent nonce is recorded with the expiry of the challenge that was submitted. */
  ghost predicate NoncesFromChallenges(full: Tables, events: seq<Event>) {
    forall k :: k in full.nonces ==>
      exists i :: 0 <= i < |events| && ChallengeOf(events[i]).Some? && KeyOf(ChallengeOf(events[i]).value) == k
               && Expiry(ChallengeOf(events[i]).value) == full.nonces[k]
  }

  lemma ForgetsLater(full: Tables, lean: Tables, now: real, later: real)
    requires Forgets(full, lean, now) && now <= later
    ensures Forgets(full, lean, later)
  {
    DayMonotone(now, later);
  }

  /** A forgotten claim or count never changes a rule's verdict. */
  lemma SameFailures(full: Tables, lean: Tables, cfg: FaucetCfg, r: Request, now: real)
    requires Forgets(full, lean, now)
    ensures FailuresOf(cfg, full, r, now) == FailuresOf(cfg, lean, r, now)
  {
    hide LimitsOf, VerifyPow;
    if r.sats.Some? {
      SameContext(full, lean, cfg, r, r.sats.value, now);
      var ctx := ContextOf(cfg, full, r, r.sats.value, now);
      SameFailing(RULES, full, lean, cfg, ctx);
    }
  }

  lemma SameContext(full: Tables, lean: Tables, cfg: FaucetCfg, r: Request, sats: nat, now: real)
    requires Forgets(full, lean, now)
    ensures ContextOf(cfg, full, r, sats, now) == ContextOf(cfg, lean, r, sats, now)
  {
    hide VerifyPow, DailyCap, BalanceCap, Usage.Expected;
  }

  lemma {:induction false} SameFailing(rules: seq<Rule>, full: Tables, lean: Tables, cfg: FaucetCfg, ctx: Context)
    requires Forgets(full, lean, ctx.now)
    ensures Failing(rules, cfg, full, ctx) == Failing(rules, cfg, lean, ctx)
  {
    if rules != [] {
      SameFailing(rules[..|rules| - 1], full, lean, cfg, ctx);
      SameVerdict(rules[|rules| - 1], full, lean, cfg, ctx);
    }
  }

  lemma SameVerdict(rule: Rule, full: Tables, lean: Tables, cfg: FaucetCfg, ctx: Context)
    requires Forgets(full, lean, ctx.now)
    ensures Check(rule, cfg, full, ctx) == Check(rule, cfg, lean, ctx)
  {
  }

  /** The nonce a request submits, when already spent, was spent with the expiry it carries. */
  ghost predicate SpentAsIssued(full: Tables, r: Request) {
    && r.proof.Some? && r.proof.value.token.Issued? && KeyOf(r.proof.value.token) in full.nonces
    ==> full.nonces[KeyOf(r.proof.value.token)] == Expiry(r.proof.value.token)
  }

  lemma SpendForgets(full: Tables, lean: Tables, now: real, k: NonceKey, expiry: real)
    requires Forgets(full, lean, now)
    ensures Forgets(full.(nonces := full.nonces[k := expiry]), lean.(nonces := lean.nonces[k := expiry]), now)
  {
  }

  lemma PaidForgets(full: Tables, lean: Tables, r: Request, sats: nat, now: real, viaPow: bool)
    requires Forgets(full, lean, now)
    ensures Forgets(Paid(full, r, sats, now, viaPow), Paid(lean, r, sats, now, viaPow), now)
  {
    hide DayOf, Upserted;
    if r.ip.Some? && viaPow {
      var k := PowKey(r.net, r.ip.value, DayOf(now));
      assert CountOf(full.powClaims, k) == CountOf(lean.powClaims, k);
      UpsertedAt(full.powClaims, k);
      UpsertedAt(lean.powClaims, k);
    }
  }

  lemma UpsertedAt<K>(m: map<K, nat>, k: K)
    ensures Upserted(m, k) == m[k := CountOf(m, k) + 1]
  {
  }

  /** One request: same answer, and the stores stay related. */
  lemma SameAnswer(full: Tables, lean: Tables, cfg: FaucetCfg, r: Request, now: real)
    requires Forgets(full, lean, now) && SpentAsIssued(full, r)
    ensures Processed(full, cfg, r, now).1 == Processed(lean, cfg, r, now).1
    ensures Forgets(Processed(full, cfg, r, now).0, Processed(lean, cfg, r, now).0, now)
  {
    hide FailuresOf, VerifyPow, Forgets, Paid;
    SameFailures(full, lean, cfg, r, now);
    if r.addressValid && FailuresOf(cfg, full, r, now) == [] && r.sats.Some? {
      var sats := r.sats.value;
      var pow := VerifyPow(cfg, r, sats, now);
      if pow.GoodProof? {
        GoodProofFacts(cfg, r, sats, now);
        var k, expiry := KeyOf(pow.token), Expiry(pow.token);
        SameMembership(full, lean, now, k, expiry);
        SpendForgets(full, lean, now, k, expiry);
        PaidForgets(full.(nonces := full.nonces[k := expiry]), lean.(nonces := lean.nonces[k := expiry]),
                    r, sats, now, true);
      } else {
        PaidForgets(full, lean, r, sats, now, false);
      }
    }
  }

  /** A challenge that has not expired was not forgotten. */
  lemma SameMembership(full: Tables, lean: Tables, now: real, k: NonceKey, expiry: real)
    requires Forgets(full, lean, now) && now <= expiry && (k in full.nonces ==> full.nonces[k] == expiry)
    ensures k in full.nonces <==> k in lean.nonces
  {
  }

  lemma GoodProofFacts(cfg: FaucetCfg, r: Request, sats: nat, now: real)
    requires VerifyPow(cfg, r, sats, now).GoodProof?
    ensures var token := VerifyPow(cfg, r, sats, now).token;
            && r.proof.Some? && r.proof.value.token == token
            && token.net == r.net && now <= Expiry(token)
  {
  }

  lemma PurgeForgets(full: Tables, lean: Tables, now: real)
    requires Forgets(full, lean, now)
    ensures Forgets(PurgedUsage(full, now), PurgedUsage(PurgedShortLived(lean, now), now), now)
  {
  }

  /** A request spends at most the nonce of its own challenge. */
  lemma NoncesStayFromChallenges(t: Tables, events: seq<Event>, e: Event, cfgs: Configs)
    requires NoncesFromChallenges(t, events)
    ensures NoncesFromChallenges(Stepped(t, cfgs, e, false).0, events + [e])
  {
    hide FailuresOf, VerifyPow;
    var t', all := Stepped(t, cfgs, e, false).0, events + [e];
    forall k | k in t'.nonces
      ensures exists i :: 0 <= i < |all| && ChallengeOf(all[i]).Some? && KeyOf(ChallengeOf(all[i]).value) == k
                       && Expiry(ChallengeOf(all[i]).value) == t'.nonces[k]
    {
      if k in t.nonces && t.nonces[k] == t'.nonces[k] {
        var i :| 0 <= i < |events| && ChallengeOf(events[i]).Some? && KeyOf(ChallengeOf(events[i]).value) == k
              && Expiry(ChallengeOf(events[i]).value) == t.nonces[k];
        assert all[i] == events[i];
      } else {
        GoodProofFacts(cfgs(e.r.net), e.r, e.r.sats.value, e.at);
        assert all[|events|] == e;
      }
    }
  }

  lemma LastTime(events: seq<Event>)
    requires events != [] && Monotone(events)
    ensures Monotone(events[..|events| - 1])
    ensures |events| > 1 ==> events[|events| - 2].at <= events[|events| - 1].at
  {
  }

  lemma FreshPrefix(events: seq<Event>)
    requires events != [] && FreshNonces(events)
    ensures FreshNonces(events[..|events| - 1])
  {
    var k := |events| - 1;
    forall i, j | 0 <= i < k && 0 <= j < k
      ensures var a, b := ChallengeOf(events[..k][i]), ChallengeOf(events[..k][j]);
              a.Some? && b.Some? && KeyOf(a.value) == KeyOf(b.value) ==> Expiry(a.value) == Expiry(b.value)
    {
      assert events[..k][i] == events[i] && events[..k][j] == events[j];
    }
  }

  /** The two stores stay related over every run. */
  lemma {:induction false} RunsRelated(events: seq<Event>, cfgs: Configs)
    requires Monotone(events) && FreshNonces(events)
    ensures NoncesFromChallenges(Final(events, cfgs, false), events)
    ensures events != [] ==> Forgets(Final(events, cfgs, false), Final(events, cfgs, true), events[|events| - 1].at)
    ensures events != [] ==> ResultAt(events, cfgs, true, |events| - 1) == ResultAt(events, cfgs, false, |events| - 1)
  {
    hide Processed, Forgets, PurgedUsage, PurgedShortLived, NoncesFromChallenges, FreshNonces, SpentAsIssued;
    if events == [] {
      NothingSpent();
    } else {
      var k := |events| - 1;
      var before, e := events[..k], events[k];
      LastTime(events);
      FreshPrefix(events);
      RunsRelated(before, cfgs);
      var full, lean := Final(before, cfgs, false), Final(before, cfgs, true);
      assert before + [e] == events;
      NoncesStayFromChallenges(full, before, e, cfgs);
      if before == [] {
        EmptyForgets(e.at);
      } else {
        ForgetsLater(full, lean, before[k - 1].at, e.at);
      }
      match e {
        case Submit(r, at) =>
          SpentAsSubmitted(full, before, events, r);
          SameAnswer(full, lean, cfgs(r.net), r, at);
        case Maintain(at) =>
          PurgeForgets(full, lean, at);
      }
    }
  }

  lemma NothingSpent()
    ensures NoncesFromChallenges(EMPTY, [])
  {
  }

  lemma EmptyForgets(now: real)
    ensures Forgets(EMPTY, EMPTY, now)
  {
  }

  lemma SpentAsSubmitted(full: Tables, before: seq<Event>, events: seq<Event>, r: Request)
    requires NoncesFromChallenges(full, before) && FreshNonces(events) && |events| == |before| + 1
    requires events[..|before|] == before && events[|before|].Submit? && events[|before|].r == r
    ensures SpentAsIssued(full, r)
  {
    if r.proof.Some? && r.proof.value.token.Issued? && KeyOf(r.proof.value.token) in full.nonces {
      var k := KeyOf(r.proof.value.token);
      var i :| 0 <= i < |before| && ChallengeOf(before[i]).Some? && KeyOf(ChallengeOf(before[i]).value) == k
            && Expiry(ChallengeOf(before[i]).value) == full.nonces[k];
      assert events[i] == before[i];
      assert ChallengeOf(events[|before|]) == Some(r.proof.value.token);
    }
  }

  lemma PrefixOf(events: seq<Event>, i: nat)
    requires i <= |events| && Monotone(events) && FreshNonces(events)
    ensures Monotone(events[..i]) && FreshNonces(events[..i])
    ensures forall j :: 0 <= j < i ==> events[..i][..j] == events[..j]
  {
    forall j, l | 0 <= j < i && 0 <= l < i
      ensures var a, b := ChallengeOf(events[..i][j]), ChallengeOf(events[..i][l]);
              a.Some? && b.Some? && KeyOf(a.value) == KeyOf(b.value) ==> Expiry(a.value) == Expiry(b.value)
    {
      assert events[..i][j] == events[j] && events[..i][l] == events[l];
    }
  }

  /**
    Purging refines never forgetting: on every run every request gets the answer it would
    get from a store that keeps all claims, counts and spent nonces for ever.
   */
  lemma PurgingRefinesNeverForgetting(events: seq<Event>, cfgs: Configs, i: nat)
    requires Monotone(events) && FreshNonces(events) && i < |events|
    ensures ResultAt(events, cfgs, true, i) == ResultAt(events, cfgs, false, i)
  {
    hide Stepped, Final;
    PrefixOf(events, i + 1);
    RunsRelated(events[..i + 1], cfgs);
    assert events[..i + 1][..i] == events[..i];
  }

  // -- rate limits -----------------------------------------------------------------

  /** Event i paid out without a proof of work to a known visitor. */
  ghost predicate FreePayout(events: seq<Event>, cfgs: Configs, purging: bool, i: nat, k: IpKey)
    requires i < |events|
  {
    && events[i].Submit? && events[i].r.ip == Some(k.ip) && events[i].r.net == k.net
    && var result := ResultAt(events, cfgs, purging, i);
       result.Some? && result.value.Success? && !result.value.viaPow
  }

  /** What a payout implies about the store it was made from. */
  lemma PayoutFacts(t: Tables, cfg: FaucetCfg, r: Request, now: real)
    requires Processed(t, cfg, r, now).1.Success?
    ensures var result := Processed(t, cfg, r, now).1;
            && r.sats == Some(result.sats)
            && result.viaPow == VerifyPow(cfg, r, result.sats, now).GoodProof?
            && (forall rule :: rule in RULES ==> Check(rule, cfg, t, ContextOf(cfg, t, r, result.sats, now)).None?)
  {
    hide Check, ContextOf, VerifyPow;
    var sats := r.sats.value;
    var ctx := ContextOf(cfg, t, r, sats, now);
    NoneFailing(RULES, cfg, t, ctx);
    assert Failing(RULES, cfg, t, ctx) == [] by {
      assert |AsFailures(Failing(RULES, cfg, t, ctx))| == 0;
    }
  }

  lemma FreePayoutFacts(t: Tables, cfg: FaucetCfg, r: Request, now: real, k: IpKey)
    requires Processed(t, cfg, r, now).1.Success? && !Processed(t, cfg, r, now).1.viaPow
    requires r.ip == Some(k.ip) && r.net == k.net && cfg.onePerIpPerDay
    ensures k in t.ipClaims ==> now - t.ipClaims[k] >= DAY_SECONDS
  {
    hide LimitsOf, VerifyPow, Processed;
    PayoutFacts(t, cfg, r, now);
    var ctx := ContextOf(cfg, t, r, r.sats.value, now);
    assert RULES[0] == OnePerIpPerDay;
    assert Check(OnePerIpPerDay, cfg, t, ctx).None?;
  }

  /** The full store remembers, for every visitor, a time no earlier than any free payout. */
  lemma {:induction false} LastClaimRemembered(events: seq<Event>, cfgs: Configs, i: nat, k: IpKey)
    requires Monotone(events) && i < |events| && FreePayout(events, cfgs, false, i, k)
    ensures k in Final(events, cfgs, false).ipClaims && Final(events, cfgs, false).ipClaims[k] >= events[i].at
  {
    hide Processed, PurgedUsage;
    var n := |events| - 1;
    var before, e := Final(events[..n], cfgs, false), events[n];
    if e.Submit? {
      IpClaimsAfter(before, cfgs(e.r.net), e.r, e.at, k);
    } else {
      KeepsClaims(before, e.at);
    }
    if i < n {
      LastTime(events);
      assert events[..n][..i] == events[..i];
      LastClaimRemembered(events[..n], cfgs, i, k);
    }
  }

  lemma KeepsClaims(t: Tables, now: real)
    ensures PurgedUsage(t, now).ipClaims == t.ipClaims && PurgedUsage(t, now).powClaims == t.powClaims
  {
  }

  /** A request either stamps the visitor's claim with its own time or leaves it alone. */
  lemma IpClaimsAfter(t: Tables, cfg: FaucetCfg, r: Request, now: real, k: IpKey)
    ensures var (t', result) := Processed(t, cfg, r, now);
            if result.Success? && !result.viaPow && r.ip == Some(k.ip) && r.net == k.net
            then k in t'.ipClaims && t'.ipClaims[k] == now
            else (k in t'.ipClaims <==> k in t.ipClaims) && (k in t.ipClaims ==> t'.ipClaims[k] == t.ipClaims[k])
  {
    hide FailuresOf, VerifyPow, Upserted;
  }

  /** A request counts exactly the payouts it makes for a proof of work. */
  lemma PowClaimsAfter(t: Tables, cfg: FaucetCfg, r: Request, now: real, k: PowKey)
    ensures var (t', result) := Processed(t, cfg, r, now);
            var counted := result.Success? && result.viaPow && r.ip == Some(k.ip)
                           && r.net == k.net && DayOf(now) == k.day;
            CountOf(t'.powClaims, k) == CountOf(t.powClaims, k) + if counted then 1 else 0
  {
    hide FailuresOf, VerifyPow, DayOf;
  }

  /** Free payouts to one visitor of one network are at least a day apart. */
  lemma FreePayoutsADayApart(events: seq<Event>, cfgs: Configs, i: nat, j: nat, k: IpKey)
    requires Monotone(events) && FreshNonces(events) && i < j < |events|
    requires cfgs(k.net).onePerIpPerDay
    requires FreePayout(events, cfgs, true, i, k) && FreePayout(events, cfgs, true, j, k)
    ensures events[j].at - events[i].at >= DAY_SECONDS
  {
    hide Processed, Final;
    PurgingRefinesNeverForgetting(events, cfgs, i);
    PurgingRefinesNeverForgetting(events, cfgs, j);
    PrefixOf(events, j);
    assert events[..j][..i] == events[..i];
    LastClaimRemembered(events[..j], cfgs, i, k);
    FreePayoutFacts(Final(events[..j], cfgs, false), cfgs(k.net), events[j].r, events[j].at, k);
  }

  /** Event i paid out for a proof of work, to the visitor and on the day of key k. */
  ghost predicate PowPayout(events: seq<Event>, cfgs: Configs, purging: bool, i: nat, k: PowKey)
    requires i < |events|
  {
    && events[i].Submit? && events[i].r.ip == Some(k.ip) && events[i].r.net == k.net && DayOf(events[i].at) == k.day
    && var result := ResultAt(events, cfgs, purging, i);
       result.Some? && result.value.Success? && result.value.viaPow
  }

  /** How many of the first n events did. */
  ghost function PowPayouts(events: seq<Event>, cfgs: Configs, purging: bool, k: PowKey, n: nat): nat
    requires n <= |events|
  {
    if n == 0 then 0
    else PowPayouts(events, cfgs, purging, k, n - 1) + if PowPayout(events, cfgs, purging, n - 1, k) then 1 else 0
  }

  lemma PowPayoutFacts(t: Tables, cfg: FaucetCfg, r: Request, now: real, k: PowKey)
    requires Processed(t, cfg, r, now).1.Success? && Processed(t, cfg, r, now).1.viaPow
    requires r.ip == Some(k.ip) && r.net == k.net && DayOf(now) == k.day && cfg.powMaxPerDay > 0
    ensures CountOf(t.powClaims, k) < cfg.powMaxPerDay
  {
    hide LimitsOf, VerifyPow, Processed;
    PayoutFacts(t, cfg, r, now);
    var ctx := ContextOf(cfg, t, r, r.sats.value, now);
    assert RULES[1] == PowDailyCap;
    assert Check(PowDailyCap, cfg, t, ctx).None?;
  }

  /** The full store's counts are exact. */
  lemma {:induction false} PowCountsExact(events: seq<Event>, cfgs: Configs, k: PowKey, n: nat)
    requires n <= |events|
    ensures CountOf(Final(events[..n], cfgs, false).powClaims, k) == PowPayouts(events, cfgs, false, k, n)
    ensures cfgs(k.net).powMaxPerDay > 0 ==> PowPayouts(events, cfgs, false, k, n) <= cfgs(k.net).powMaxPerDay
  {
    hide Processed, PurgedUsage;
    if n > 0 {
      var before, e := Final(events[..n - 1], cfgs, false), events[n - 1];
      if e.Submit? {
        PowClaimsAfter(before, cfgs(e.r.net), e.r, e.at, k);
      } else {
        KeepsClaims(before, e.at);
      }
      assert events[..n][..n - 1] == events[..n - 1];
      PowCountsExact(events, cfgs, k, n - 1);
      if PowPayout(events, cfgs, false, n - 1, k) && cfgs(k.net).powMaxPerDay > 0 {
        PowPayoutFacts(Final(events[..n - 1], cfgs, false), cfgs(k.net), events[n - 1].r, events[n - 1].at, k);
      }
    }
  }

  /** With a positive cap, proof-of-work payouts per visitor and UTC day never exceed it. */
  lemma PowPayoutsCapped(events: seq<Event>, cfgs: Configs, k: PowKey)
    requires Monotone(events) && FreshNonces(events) && cfgs(k.net).powMaxPerDay > 0
    ensures PowPayouts(events, cfgs, true, k, |events|) <= cfgs(k.net).powMaxPerDay
  {
    hide Stepped, Final;
    PowCountsExact(events, cfgs, k, |events|);
    SamePowPayouts(events, cfgs, k, |events|);
  }

  lemma {:induction false} SamePowPayouts(events: seq<Event>, cfgs: Configs, k: PowKey, n: nat)
    requires Monotone(events) && FreshNonces(events) && n <= |events|
    ensures PowPayouts(events, cfgs, true, k, n) == PowPayouts(events, cfgs, false, k, n)
  {
    hide ResultAt;
    if n > 0 {
      SamePowPayouts(events, cfgs, k, n - 1);
      PurgingRefinesNeverForgetting(events, cfgs, n - 1);
    }
  }

  // -- the wallet ----------------------------------------------------------------------

  function Power(x: real, n: nat): real {
    if n == 0 then 1.0 else x * Power(x, n - 1)
  }

  /** What event i paid out on a network. */
  ghost function PaidAt(events: seq<Event>, cfgs: Configs, net: string, i: nat): nat
    requires i < |events|
  {
    var result := ResultAt(events, cfgs, true, i);
    if events[i].Submit? && events[i].r.net == net && result.Some? && result.value.Success?
    then result.value.sats else 0
  }

  ghost predicate PayoutAt(events: seq<Event>, cfgs: Configs, net: string, i: nat)
    requires i < |events|
  {
    var result := ResultAt(events, cfgs, true, i);
    events[i].Submit? && events[i].r.net == net && result.Some? && result.value.Success?
  }

  /** The wallet after n events: payouts leave it, nothing enters, no network fees. */
  ghost function Wallet(events: seq<Event>, cfgs: Configs, net: string, start: nat, n: nat): int
    requires n <= |events|
  {
    if n == 0 then start else Wallet(events, cfgs, net, start, n - 1) - PaidAt(events, cfgs, net, n - 1)
  }

  ghost function PayoutCount(events: seq<Event>, cfgs: Configs, net: string, n: nat): nat
    requires n <= |events|
  {
    if n == 0 then 0
    else PayoutCount(events, cfgs, net, n - 1) + if PayoutAt(events, cfgs, net, n - 1) then 1 else 0
  }

  /** Every request on the network reads the wallet's true balance. */
  ghost predicate BalanceReadable(events: seq<Event>, cfgs: Configs, net: string, start: nat) {
    forall i :: 0 <= i < |events| && events[i].Submit? && events[i].r.net == net ==>
      events[i].r.balance.Some? && events[i].r.balance.value == Wallet(events, cfgs, net, start, i)
  }

  lemma CappedPayout(t: Tables, cfg: FaucetCfg, r: Request, now: real)
    requires Processed(t, cfg, r, now).1.Success? && cfg.perRequestBalanceCap && r.balance.Some?
    ensures Processed(t, cfg, r, now).1.sats <= BalanceCap(r.balance.value, cfg.balanceCapFraction)
  {
    hide VerifyPow, Processed, DailyCap, BalanceCap;
    PayoutFacts(t, cfg, r, now);
    var ctx := ContextOf(cfg, t, r, r.sats.value, now);
    assert RULES[3] == PerRequestBalanceCap;
    assert Check(PerRequestBalanceCap, cfg, t, ctx).None?;
  }

  lemma CapIsFraction(balance: nat, fraction: real)
    requires 0.0 < fraction <= 1.0
    ensures BalanceCap(balance, fraction) as real <= balance as real * fraction
  {
    assert balance as real * fraction >= 0.0;
  }

  /** A payout within the cap keeps the geometric bound. */
  lemma GeometricStep(wallet: real, paid: real, start: real, fraction: real, k: nat)
    requires 0.0 < fraction <= 1.0 && paid <= wallet * fraction && wallet >= start * Power(1.0 - fraction, k)
    ensures wallet - paid >= start * Power(1.0 - fraction, k + 1)
  {
    var x := 1.0 - fraction;
    assert wallet - paid >= wallet * x;
    var floor := start * Power(x, k);
    assert (wallet - floor) * x >= 0.0;
    assert floor * x == start * (x * Power(x, k));
  }

  /** A payout of the run takes at most the capped share of the wallet. */
  lemma PayoutWithinShare(events: seq<Event>, cfgs: Configs, net: string, start: nat, i: nat)
    requires i < |events| && BalanceReadable(events, cfgs, net, start) && PayoutAt(events, cfgs, net, i)
    requires cfgs(net).perRequestBalanceCap && 0.0 < cfgs(net).balanceCapFraction <= 1.0
    ensures PaidAt(events, cfgs, net, i) as real
         <= Wallet(events, cfgs, net, start, i) as real * cfgs(net).balanceCapFraction
  {
    hide Processed, BalanceCap, Wallet, Final;
    var e := events[i];
    CappedPayout(Final(events[..i], cfgs, true), cfgs(net), e.r, e.at);
    CapIsFraction(e.r.balance.value, cfgs(net).balanceCapFraction);
  }

  /**
    With the balance cap on and the balance readable, k payouts leave at least
    start * (1 - f)^k: the faucet cannot be drained in few requests.
   */
  lemma {:induction false} DrainBound(events: seq<Event>, cfgs: Configs, net: string, start: nat, n: nat)
    requires n <= |events| && BalanceReadable(events, cfgs, net, start)
    requires cfgs(net).perRequestBalanceCap && 0.0 < cfgs(net).balanceCapFraction <= 1.0
    ensures Wallet(events, cfgs, net, start, n) as real
         >= start as real * Power(1.0 - cfgs(net).balanceCapFraction, PayoutCount(events, cfgs, net, n))
  {
    hide Processed, BalanceCap, Power, Final, ResultAt, BalanceReadable;
    if n == 0 {
      PowerZero(1.0 - cfgs(net).balanceCapFraction);
    } else {
      DrainBound(events, cfgs, net, start, n - 1);
      if PayoutAt(events, cfgs, net, n - 1) {
        var f := cfgs(net).balanceCapFraction;
        PayoutWithinShare(events, cfgs, net, start, n - 1);
        GeometricStep(Wallet(events, cfgs, net, start, n - 1) as real, PaidAt(events, cfgs, net, n - 1) as real,
                      start as real, f, PayoutCount(events, cfgs, net, n - 1));
      }
    }
  }

  lemma PowerZero(x: real)
    ensures Power(x, 0) == 1.0
  {
  }

  /** Logged usage days always hold at least one claim, so the daily cap's divisor is safe. */
  lemma {:induction false} UsageCountsPositive(events: seq<Event>, cfgs: Configs, purging: bool)
    ensures Usage.CountsPositive(Final(events, cfgs, purging).usage)
  {
    hide Stepped;
    if events != [] {
      UsageCountsPositive(events[..|events| - 1], cfgs, purging);
      StepKeepsPositive(Final(events[..|events| - 1], cfgs, purging), cfgs, events[|events| - 1], purging);
    }
  }

  lemma StepKeepsPositive(t: Tables, cfgs: Configs, e: Event, purging: bool)
    requires Usage.CountsPositive(t.usage)
    ensures Usage.CountsPositive(Stepped(t, cfgs, e, purging).0.usage)
  {
    hide FailuresOf, VerifyPow, DayOf;
  }
}
