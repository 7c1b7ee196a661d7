/** The expected yearly usage behind the faucet's daily cap (usage_stats). */
module Usage {
  import opened FaucetStore

  const TEN_A_DAY: nat := 3650

  /** m is the busiest logged day of the network, 0 when none is logged. */
  ghost predicate IsBusiest(usage: map<DayKey, nat>, net: string, m: nat) {
    && (forall k :: k in usage && k.net == net ==> usage[k] <= m)
    && (m == 0 || exists k :: k in usage && k.net == net && usage[k] == m)
  }

  /** The busiest count among some keys. */
  ghost function MaxOver(usage: map<DayKey, nat>, keys: set<DayKey>): (m: nat)
    requires keys <= usage.Keys
    ensures forall k :: k in keys ==> usage[k] <= m
    ensures m == 0 || exists k :: k in keys && usage[k] == m
  {
    if keys == {} then 0
    else
      var k :| k in keys;
      var m := MaxOver(usage, keys - {k});
      assert forall j :: j in keys ==> j == k || j in keys - {k};
      if m < usage[k] then usage[k] else m
  }

  ghost function Busiest(usage: map<DayKey, nat>, net: string): (m: nat)
    ensures IsBusiest(usage, net, m)
  {
    MaxOver(usage, set k | k in usage && k.net == net)
  }

  lemma BusiestUnique(usage: map<DayKey, nat>, net: string, m: nat, n: nat)
    requires IsBusiest(usage, net, m) && IsBusiest(usage, net, n)
    ensures m == n
  {
  }

  method BusiestDay(usage: map<DayKey, nat>, net: string) returns (m: nat)
    ensures IsBusiest(usage, net, m)
  {
    m := 0;
    var keys := usage.Keys;
    while keys != {}
      invariant keys <= usage.Keys
      invariant forall k :: k in usage && k !in keys && k.net == net ==> usage[k] <= m
      invariant m == 0 || exists k :: k in usage && k.net == net && usage[k] == m
      decreases |keys|
    {
      var k :| k in keys;
      if k.net == net && usage[k] > m {
        m := usage[k];
      }
      keys := keys - {k};
    }
  }

  /** A day's contribution: its count if logged, else the fill value. */
  function DayShare(usage: map<DayKey, nat>, k: DayKey, fill: nat): nat {
    if k in usage then usage[k] else fill
  }

  /** The contributions of the n days from start on. */
  function WindowSum(usage: map<DayKey, nat>, net: string, fill: nat, start: int, n: nat): nat {
    if n == 0 then 0
    else WindowSum(usage, net, fill, start, n - 1) + DayShare(usage, DayKey(net, start + n - 1), fill)
  }

  function Fill(historicalMax: nat): nat {
    if historicalMax > 10 then historicalMax else 10
  }

  /** The expected claims of the 365 days ending today. */
  function Expected(usage: map<DayKey, nat>, net: string, historicalMax: nat, today: int): nat {
    WindowSum(usage, net, Fill(historicalMax), today - 364, 365)
  }

  method UsageStats(usage: map<DayKey, nat>, net: string, now: real) returns (expected: nat, historicalMax: nat)
    ensures IsBusiest(usage, net, historicalMax)
    ensures expected == Expected(usage, net, historicalMax, DayOf(now))
  {
    var today := DayOf(now);
    var start := today - 364;
    var counts := map k | k in usage && k.net == net && start <= k.day <= today :: usage[k];
    historicalMax := BusiestDay(usage, net);
    var fill := if historicalMax > 10 then historicalMax else 10;
    expected := 0;
    for n := 0 to 365
      invariant expected == WindowSum(usage, net, fill, start, n)
    {
      var k := DayKey(net, start + n);
      expected := expected + if k in counts then counts[k] else fill;
    }
  }

  /** A purge keeps every row that this or any later expectation sums. */
  lemma PurgeKeepsTheYear(t: Tables, net: string, historicalMax: nat, now: real, later: real)
    requires now <= later
    ensures Expected(PurgedUsage(t, now).usage, net, historicalMax, DayOf(later))
         == Expected(t.usage, net, historicalMax, DayOf(later))
  {
    hide DayOf;
    DayMonotone(now, later);
    SameWindow(PurgedUsage(t, now).usage, t.usage, net, Fill(historicalMax), DayOf(later) - 364, 365);
  }

  lemma {:induction false} SameWindow(usage: map<DayKey, nat>, full: map<DayKey, nat>, net: string, fill: nat,
                                      start: int, n: nat)
    requires forall k: DayKey :: k.day >= start ==> (k in usage <==> k in full) && (k in usage ==> usage[k] == full[k])
    ensures WindowSum(usage, net, fill, start, n) == WindowSum(full, net, fill, start, n)
  {
    if n > 0 {
      SameWindow(usage, full, net, fill, start, n - 1);
    }
  }

  /** Logged days have at least one claim: rows are only created by counting one. */
  predicate CountsPositive(usage: map<DayKey, nat>) {
    forall k :: k in usage ==> usage[k] > 0
  }

  lemma {:induction false} EveryDayContributes(usage: map<DayKey, nat>, net: string, fill: nat, start: int, n: nat)
    requires CountsPositive(usage) && fill >= 10
    ensures WindowSum(usage, net, fill, start, n) >= n
  {
    if n > 0 {
      EveryDayContributes(usage, net, fill, start, n - 1);
    }
  }

  /** What is always true: the divisor of the daily cap is at least 365. */
  lemma ExpectedAtLeastOnePerDay(usage: map<DayKey, nat>, net: string, historicalMax: nat, today: int)
    requires CountsPositive(usage)
    ensures Expected(usage, net, historicalMax, today) >= 365
  {
    EveryDayContributes(usage, net, Fill(historicalMax), today - 364, 365);
  }

  /** The logged days of a network among the n days from start on. */
  function LoggedDays(usage: map<DayKey, nat>, net: string, start: int, n: nat): set<DayKey> {
    set k | k in usage && k.net == net && start <= k.day < start + n
  }

  /** All claims on those days. */
  function LoggedClaims(usage: map<DayKey, nat>, net: string, start: int, n: nat): nat {
    if n == 0 then 0
    else LoggedClaims(usage, net, start, n - 1) + DayShare(usage, DayKey(net, start + n - 1), 0)
  }

  lemma LoggedDaysStep(usage: map<DayKey, nat>, net: string, start: int, n: nat)
    requires n > 0
    ensures var k := DayKey(net, start + n - 1);
            |LoggedDays(usage, net, start, n)| == |LoggedDays(usage, net, start, n - 1)| + (if k in usage then 1 else 0)
  {
    var k, before := DayKey(net, start + n - 1), LoggedDays(usage, net, start, n - 1);
    assert LoggedDays(usage, net, start, n) == if k in usage then before + {k} else before;
    assert k !in before;
  }

  /** The expectation: the logged claims, and the fill value for every day without a row. */
  lemma {:induction false} SumOverDays(usage: map<DayKey, nat>, net: string, fill: nat, start: int, n: nat)
    ensures |LoggedDays(usage, net, start, n)| <= n
    ensures WindowSum(usage, net, fill, start, n)
         == LoggedClaims(usage, net, start, n) + (n - |LoggedDays(usage, net, start, n)|) * fill
  {
    hide LoggedDays;
    if n == 0 {
      NoDaysLogged(usage, net, start);
    } else {
      var l := |LoggedDays(usage, net, start, n - 1)|;
      SumOverDays(usage, net, fill, start, n - 1);
      LoggedDaysStep(usage, net, start, n);
      assert (n - l) * fill == (n - 1 - l) * fill + fill;
    }
  }

  lemma NoDaysLogged(usage: map<DayKey, nat>, net: string, start: int)
    ensures LoggedDays(usage, net, start, 0) == {}
  {
  }

  /**
    The documented bound of ten claims a day does not always hold. It holds exactly when
    what the logged days of the year lack to ten claims each is made up by the days without
    a row, at the busiest day's excess over ten apiece.
   */
  lemma TenADayIff(usage: map<DayKey, nat>, net: string, historicalMax: nat, today: int)
    ensures var days, claims := |LoggedDays(usage, net, today - 364, 365)|, LoggedClaims(usage, net, today - 364, 365);
            var excess := if historicalMax > 10 then historicalMax - 10 else 0;
            Expected(usage, net, historicalMax, today) >= TEN_A_DAY <==> 10 * days - claims <= (365 - days) * excess
  {
    hide LoggedDays, LoggedClaims, WindowSum;
    SumOverDays(usage, net, Fill(historicalMax), today - 364, 365);
    var unlogged := 365 - |LoggedDays(usage, net, today - 364, 365)|;
    assert unlogged * Fill(historicalMax) == unlogged * (Fill(historicalMax) - 10) + unlogged * 10;
  }

  /** Logged days with at least, or at most, ten claims each have as many claims in total. */
  lemma {:induction false} ClaimsPerDay(usage: map<DayKey, nat>, net: string, start: int, n: nat)
    ensures (forall k :: k in LoggedDays(usage, net, start, n) ==> usage[k] >= 10) ==>
              LoggedClaims(usage, net, start, n) >= 10 * |LoggedDays(usage, net, start, n)|
    ensures (forall k :: k in LoggedDays(usage, net, start, n) ==> usage[k] <= 10) ==>
              && LoggedClaims(usage, net, start, n) <= 10 * |LoggedDays(usage, net, start, n)|
              && (LoggedClaims(usage, net, start, n) == 10 * |LoggedDays(usage, net, start, n)|
                  <==> forall k :: k in LoggedDays(usage, net, start, n) ==> usage[k] == 10)
  {
    if n == 0 {
      NoDaysLogged(usage, net, start);
    } else {
      ClaimsPerDay(usage, net, start, n - 1);
      LoggedDaysStep(usage, net, start, n);
      var k := DayKey(net, start + n - 1);
      assert k in usage ==> k in LoggedDays(usage, net, start, n);
      assert forall j :: j in LoggedDays(usage, net, start, n) <==>
                           j in LoggedDays(usage, net, start, n - 1) || (j == k && k in usage);
    }
  }

  /** So it holds whenever no logged day of the year saw fewer than ten claims. */
  lemma NoDayUnderTen(usage: map<DayKey, nat>, net: string, historicalMax: nat, today: int)
    requires forall k :: k in LoggedDays(usage, net, today - 364, 365) ==> usage[k] >= 10
    ensures Expected(usage, net, historicalMax, today) >= TEN_A_DAY
  {
    hide LoggedDays, LoggedClaims, Expected;
    TenADayIff(usage, net, historicalMax, today);
    ClaimsPerDay(usage, net, today - 364, 365);
    SumOverDays(usage, net, 0, today - 364, 365);
    var unlogged: nat := 365 - |LoggedDays(usage, net, today - 364, 365)|;
    NotNegative(unlogged, if historicalMax > 10 then historicalMax - 10 else 0);
  }

  lemma NotNegative(x: nat, y: nat)
    ensures x * y >= 0
  {
  }

  /** A fully logged year needs ten claims a day on average, however busy its busiest day. */
  lemma FullyLoggedYear(usage: map<DayKey, nat>, net: string, historicalMax: nat, today: int)
    requires forall d :: today - 364 <= d <= today ==> DayKey(net, d) in usage
    ensures Expected(usage, net, historicalMax, today) >= TEN_A_DAY
       <==> LoggedClaims(usage, net, today - 364, 365) >= TEN_A_DAY
  {
    hide LoggedClaims, Expected;
    TenADayIff(usage, net, historicalMax, today);
    EveryDayLogged(usage, net, today - 364, 365);
  }

  lemma {:induction false} EveryDayLogged(usage: map<DayKey, nat>, net: string, start: int, n: nat)
    requires forall d :: start <= d < start + n ==> DayKey(net, d) in usage
    ensures |LoggedDays(usage, net, start, n)| == n
  {
    if n == 0 {
      NoDaysLogged(usage, net, start);
    } else {
      EveryDayLogged(usage, net, start, n - 1);
      LoggedDaysStep(usage, net, start, n);
    }
  }

  /**
    On a network that never saw more than ten claims a day the bound holds only if every
    logged day of the window saw exactly ten.
   */
  lemma TenADayOnQuietNetwork(usage: map<DayKey, nat>, net: string, historicalMax: nat, today: int)
    requires IsBusiest(usage, net, historicalMax) && historicalMax <= 10
    ensures Expected(usage, net, historicalMax, today) >= TEN_A_DAY
       <==> forall k :: k in LoggedDays(usage, net, today - 364, 365) ==> usage[k] == 10
  {
    hide Expected, LoggedClaims;
    TenADayIff(usage, net, historicalMax, today);
    ClaimsPerDay(usage, net, today - 364, 365);
  }

  /** One claim ever, made today: 3641 expected claims, not 3650. */
  lemma OneClaimBreaksTheBound(net: string, today: int)
    ensures IsBusiest(map[DayKey(net, today) := 1], net, 1)
    ensures Expected(map[DayKey(net, today) := 1], net, 1, today) == 3641
  {
    var usage := map[DayKey(net, today) := 1];
    assert DayKey(net, today) in usage && usage[DayKey(net, today)] == 1;
    assert DayKey(net, today - 364 + 365 - 1) == DayKey(net, today);
    NothingLogged(usage, net, 10, today - 364, 364);
  }

  lemma {:induction false} NothingLogged(usage: map<DayKey, nat>, net: string, fill: nat, start: int, n: nat)
    requires forall d :: start <= d < start + n ==> DayKey(net, d) !in usage
    ensures WindowSum(usage, net, fill, start, n) == n * fill
  {
    if n > 0 {
      NothingLogged(usage, net, fill, start, n - 1);
      assert n * fill == (n - 1) * fill + fill;
    }
  }
}
