/**
  The coded window in everyday use: ticks at most gap seconds apart, retentions of two or
  more. Every sealed hour row, and every sealed day row, ends up with the samples of at most
  gap seconds; at a regular pace that is one sample for the hour and one for the day.
 */
module HistorySteady {
  import opened History
  import opened HistoryFacts
  import opened HistoryRuns
  import opened HistoryWindow
  import opened HistoryDayRuns
  import opened HistorySamples

  predicate Steady(ticks: seq<Tick>, gap: nat) {
    forall i :: 0 < i < |ticks| ==> ticks[i].ts - ticks[i - 1].ts <= gap
  }

  lemma SteadyPrefix(ticks: seq<Tick>, gap: nat)
    requires ticks != [] && Monotone(ticks) && Steady(ticks, gap)
    ensures Monotone(ticks[..|ticks| - 1]) && Steady(ticks[..|ticks| - 1], gap)
    ensures |ticks| > 1 ==> ticks[|ticks| - 2].ts <= ticks[|ticks| - 1].ts <= ticks[|ticks| - 2].ts + gap
  {
  }

  function MinInt(x: int, y: int): int {
    if x < y then x else y
  }

  // -- hours ---------------------------------------------------------------------------

  /** With two hours of raw rows the coded rollup sees a bucket from two hours ago on. */
  lemma CodedStart(ticks: seq<Tick>, keep: Retention, b: nat)
    requires Monotone(ticks) && ticks != [] && keep.rawHours >= 2
    ensures MaxInt(b, Start(ticks, keep, false)) == MaxInt(b, ticks[|ticks| - 1].ts - 2 * HOUR)
  {
    if |ticks| > 1 {
      assert ticks[|ticks| - 2].ts <= ticks[|ticks| - 1].ts;
    }
  }

  /** Once a bucket is no longer rewritten, nothing later than a gap above its cut is in it. */
  lemma {:induction false} SealedHourEnds(ticks: seq<Tick>, keep: Retention, s: Series, b: nat, gap: nat)
    requires Monotone(ticks) && ticks != [] && keep.rawHours >= 2 && Steady(ticks, gap)
    requires !Rewrites(ticks, keep, false, s, b)
    ensures !HasRow(RunLog(ticks), Raw, s, Reached(ticks, keep, false, s, b).from + gap, b + HOUR)
  {
    hide RunLog, HasRow, Start;
    var n := |ticks| - 1;
    var before, l := ticks[..n], RunLog(ticks);
    var from := Reached(ticks, keep, false, s, b).from;
    SteadyPrefix(ticks, gap);
    QuietTick(ticks, keep, false, s, b);
    ReachBounds(ticks, keep, false, s, b);
    SameSums(RunLog(before), l, Raw, s, b, b + HOUR);
    if n == 0 {
      NothingLogged(s, b, b + HOUR);
      Within(l, Raw, s, b, b + HOUR, from + gap, b + HOUR);
    } else if Rewrites(before, keep, false, s, b) {
      CodedStart(before, keep, b);
      CodedStart(ticks, keep, b);
      Within(l, Raw, s, MaxInt(b, Start(ticks, keep, false)), b + HOUR, from + gap, b + HOUR);
    } else {
      SealedHourEnds(before, keep, s, b, gap);
      assert SameRows(RunLog(before), l, Raw, s, from + gap, b + HOUR);
      SameSums(RunLog(before), l, Raw, s, from + gap, b + HOUR);
    }
  }

  /** The bytes and seconds of a row are those of the log between two seconds. */
  predicate Carries(row: Row, l: Table, s: Series, from: int, to: int) {
    var a := Sum(l, Raw, s, from, to);
    row.rx == a.rx && row.tx == a.tx && row.dt == a.dt
  }

  /** A part of a log whose end holds nothing. */
  lemma EndsEarly(l: Table, s: Series, from: int, end: int, hi: int)
    requires from <= end <= hi && !HasRow(l, Raw, s, end, hi)
    ensures Sum(l, Raw, s, from, hi) == Sum(l, Raw, s, from, end)
  {
    hide Sum;
    SumSplit(l, Raw, s, from, end, hi);
    SumRows(l, Raw, s, end, hi);
    SumRows(l, Raw, s, from, end);
    PlusNothing(Sum(l, Raw, s, from, end));
  }

  /** What is left of a bucket that is no longer rewritten: at most gap seconds of it. */
  lemma SealedPartialRow(ticks: seq<Tick>, keep: Retention, s: Series, b: nat, gap: nat) returns (from: int, to: int)
    requires Monotone(ticks) && ticks != [] && keep.rawHours >= 2 && Steady(ticks, gap)
    requires !Rewrites(ticks, keep, false, s, b)
    ensures b <= from <= to <= b + HOUR && to - from <= gap
    ensures Carries(PartialRow(RunLog(ticks), s, b, Reached(ticks, keep, false, s, b)), RunLog(ticks), s, from, to)
  {
    hide RunLog, HasRow, Sum, LastDisk, Rewrites;
    var l := RunLog(ticks);
    ReachBounds(ticks, keep, false, s, b);
    SealedHourEnds(ticks, keep, s, b, gap);
    from := Reached(ticks, keep, false, s, b).from;
    to := MinInt(from + gap, b + HOUR);
    EmptyWindow(l, Raw, s, b + HOUR, b + HOUR);
    EndsEarly(l, s, from, to, b + HOUR);
  }

  /** A bucket that ended two hours ago is no longer rewritten. */
  lemma SealedNotRewritten(ticks: seq<Tick>, keep: Retention, s: Series, b: nat)
    requires Monotone(ticks) && ticks != [] && b + HOUR <= ticks[|ticks| - 1].ts - 2 * HOUR
    ensures !Rewrites(ticks, keep, false, s, b)
  {
    hide RunLog, Start;
    StartBounds(ticks, keep, false);
    EmptyWindow(RunLog(ticks), Raw, s, MaxInt(b, Start(ticks, keep, false)), b + HOUR);
  }

  /** As coded, the row of an hour that ended two hours ago holds at most gap seconds of it. */
  lemma SteadyHour(ticks: seq<Tick>, keep: Retention, s: Series, b: nat, gap: nat) returns (from: int, to: int)
    requires StrictClock(ticks) && ticks != [] && keep.rawHours >= 2 && Steady(ticks, gap)
    requires b + HOUR <= ticks[|ticks| - 1].ts - 2 * HOUR && Key(Hour, b, s) in RunTable(ticks, keep, false)
    ensures b <= from <= to <= b + HOUR && to - from <= gap
    ensures var row := RunTable(ticks, keep, false)[Key(Hour, b, s)];
            Moved(row.rx, row.tx, row.dt) == MovedIn(ticks, s, from, to)
  {
    hide RunTable, RunLog, PartialRow, HasRow, Sum, LastDisk, MovedIn, Rewrites;
    SealedNotRewritten(ticks, keep, s, b);
    from, to := SealedPartialRow(ticks, keep, s, b, gap);
    HourRows(ticks, keep, false, Key(Hour, b, s));
    assert Get(RunTable(ticks, keep, false), Key(Hour, b, s)).Some?;
    LogIsSamples(ticks, s, from, to);
  }

  // -- days ----------------------------------------------------------------------------

  lemma CodedDayStart(ticks: seq<Tick>, keep: Retention, d: nat)
    requires Monotone(ticks) && ticks != [] && keep.hourlyDays >= 2
    ensures MaxInt(d, DayStart(ticks, keep, false)) == MaxInt(d, ticks[|ticks| - 1].ts - 2 * DAY)
  {
    if |ticks| > 1 {
      assert ticks[|ticks| - 2].ts <= ticks[|ticks| - 1].ts;
    }
  }

  /** A sampled hour of a day that is not rewritten lies before the window. */
  lemma BeforeTheWindow(ticks: seq<Tick>, keep: Retention, s: Series, d: nat, g: nat)
    requires Monotone(ticks) && ticks != [] && !DayRewrites(ticks, keep, false, s, d)
    requires d <= g < d + DAY && Sampled(RunLog(ticks), s, g)
    ensures g < DayStart(ticks, keep, false)
  {
    hide RunLog, DayStart, Sampled;
  }

  /** On the last tick that rewrites a day only one sampled hour of it is left in the window. */
  lemma OneHourLeft(ticks: seq<Tick>, keep: Retention, s: Series, d: nat, gap: nat) returns (h: nat)
    requires Monotone(ticks) && |ticks| > 1 && keep.hourlyDays >= 2 && Steady(ticks, gap) && gap <= HOUR && d % DAY == 0
    requires var before := ticks[..|ticks| - 1];
             DayRewrites(before, keep, false, s, d) && !DayRewrites(ticks, keep, false, s, d)
    ensures var before := ticks[..|ticks| - 1];
            && MaxInt(d, before[|before| - 1].ts - 2 * DAY) <= h < d + DAY && Sampled(RunLog(before), s, h)
            && (forall g: nat ::
                  (MaxInt(d, before[|before| - 1].ts - 2 * DAY) <= g < d + DAY && Sampled(RunLog(before), s, g))
                  ==> g == h)
            && h + HOUR <= before[|before| - 1].ts - 2 * HOUR
  {
    hide RunLog, HasRow, DayStart;
    var before := ticks[..|ticks| - 1];
    SteadyPrefix(ticks, gap);
    CodedDayStart(before, keep, d);
    CodedDayStart(ticks, keep, d);
    h :| MaxInt(d, DayStart(before, keep, false)) <= h < d + DAY && Sampled(RunLog(before), s, h);
    forall g: nat | MaxInt(d, DayStart(before, keep, false)) <= g < d + DAY && Sampled(RunLog(before), s, g)
      ensures g < ticks[|ticks| - 1].ts - 2 * DAY
    {
      StaysSampled(ticks, s, g);
      BeforeTheWindow(ticks, keep, s, d, g);
    }
    forall g: nat | MaxInt(d, DayStart(before, keep, false)) <= g < d + DAY && Sampled(RunLog(before), s, g)
      ensures g == h
    {
      MultiplesApart(g, h, HOUR);
      MultiplesApart(h, g, HOUR);
    }
  }

  /** The day row rolled up from one hour row carries what that row does. */
  lemma DayOfOneHour(t: Table, s: Series, d: nat, since: int, h: nat)
    requires MaxInt(d, since) <= h < d + DAY && Key(Hour, h, s) in t
    requires forall g: nat :: MaxInt(d, since) <= g < d + DAY && Key(Hour, g, s) in t ==> g == h
    ensures var row, one := RolledRow(t, Hour, s, d, DAY, since), t[Key(Hour, h, s)];
            row.rx == one.rx && row.tx == one.tx && row.dt == one.dt
  {
    hide Sum, LastDisk;
    var lo := MaxInt(d, since);
    SumAdds(t, Hour, s, lo, h, d + DAY);
    SumRows(t, Hour, s, lo, h);
    OnlyFirst(t, Hour, s, h, d + DAY);
  }

  /** The last rewrite of a day leaves it at most gap seconds of its samples. */
  lemma LastRewrite(ticks: seq<Tick>, keep: Retention, s: Series, d: nat, gap: nat) returns (from: int, to: int)
    requires Monotone(ticks) && |ticks| > 1 && keep.rawHours >= 2 && keep.hourlyDays >= 2
    requires Steady(ticks, gap) && gap <= HOUR && d % DAY == 0
    requires var before := ticks[..|ticks| - 1];
             DayRewrites(before, keep, false, s, d) && !DayRewrites(ticks, keep, false, s, d)
    ensures d <= from <= to <= d + DAY && to - from <= gap
    ensures var before := ticks[..|ticks| - 1];
            Carries(RolledRow(Hourly(before, keep, false), Hour, s, d, DAY, before[|before| - 1].ts - 2 * DAY),
                    RunLog(before), s, from, to)
  {
    hide RunLog, Hourly, PartialRow, RolledRow, HasRow, Sum, LastDisk, DayRewrites, HourHorizon;
    var before := ticks[..|ticks| - 1];
    var t, since := Hourly(before, keep, false), before[|before| - 1].ts - 2 * DAY;
    SteadyPrefix(ticks, gap);
    var h := OneHourLeft(ticks, keep, s, d, gap);
    HorizonBelow(before, keep);
    HourTable(before, keep, false, s, h);
    assert Get(t, Key(Hour, h, s)).Some?;
    forall g: nat | MaxInt(d, since) <= g < d + DAY && Key(Hour, g, s) in t ensures g == h {
      HourTable(before, keep, false, s, g);
      assert Get(t, Key(Hour, g, s)).Some?;
    }
    DayOfOneHour(t, s, d, since, h);
    SealedNotRewritten(before, keep, s, h);
    from, to := SealedPartialRow(before, keep, s, h, gap);
    DayOnTheHour(d + DAY);
    MultiplesApart(h, d + DAY, HOUR);
  }

  lemma HorizonBelow(ticks: seq<Tick>, keep: Retention)
    requires Monotone(ticks) && ticks != [] && keep.hourlyDays >= 2
    ensures HourHorizon(ticks, keep) <= MaxInt(0, ticks[|ticks| - 1].ts - 2 * DAY)
  {
    if |ticks| > 1 {
      assert ticks[|ticks| - 2].ts <= ticks[|ticks| - 1].ts;
    }
  }

  /** As coded, a day that is no longer rewritten holds at most gap seconds of its samples. */
  lemma {:induction false} SealedDay(ticks: seq<Tick>, keep: Retention, s: Series, d: nat, gap: nat)
    returns (from: int, to: int)
    requires Monotone(ticks) && ticks != [] && keep.rawHours >= 2 && keep.hourlyDays >= 2
    requires Steady(ticks, gap) && gap <= HOUR && d % DAY == 0 && !DayRewrites(ticks, keep, false, s, d)
    requires Key(Day, d, s) in RunTable(ticks, keep, false)
    ensures d <= from <= to <= d + DAY && to - from <= gap
    ensures Carries(RunTable(ticks, keep, false)[Key(Day, d, s)], RunLog(ticks), s, from, to)
  {
    hide RunTable, RunLog, Hourly, RolledRow, HasRow, Sum, LastDisk, DayRewrites;
    var before, k := ticks[..|ticks| - 1], Key(Day, d, s);
    SteadyPrefix(ticks, gap);
    DayRollup(ticks, keep, false, k);
    assert Get(RunTable(ticks, keep, false), k).Some?;
    assert k in RunTable(before, keep, false);
    EmptyRun(keep, false);
    assert before != [];
    QuietDay(ticks, keep, false, s, d);
    if DayRewrites(before, keep, false, s, d) {
      DayRollup(before, keep, false, k);
      from, to := LastRewrite(ticks, keep, s, d, gap);
    } else {
      from, to := SealedDay(before, keep, s, d, gap);
    }
    SameSums(RunLog(before), RunLog(ticks), Raw, s, from, to);
  }

  lemma SealedDayNotRewritten(ticks: seq<Tick>, keep: Retention, s: Series, d: nat)
    requires Monotone(ticks) && ticks != [] && keep.hourlyDays >= 2 && d + DAY <= ticks[|ticks| - 1].ts - 2 * DAY
    ensures !DayRewrites(ticks, keep, false, s, d)
  {
    hide RunLog, DayStart, Sampled;
    CodedDayStart(ticks, keep, d);
  }

  /** As coded, the row of a day that ended two days ago holds at most gap seconds of it. */
  lemma SteadyDay(ticks: seq<Tick>, keep: Retention, s: Series, d: nat, gap: nat) returns (from: int, to: int)
    requires StrictClock(ticks) && ticks != [] && keep.rawHours >= 2 && keep.hourlyDays >= 2
    requires Steady(ticks, gap) && gap <= HOUR && d % DAY == 0 && d + DAY <= ticks[|ticks| - 1].ts - 2 * DAY
    requires Key(Day, d, s) in RunTable(ticks, keep, false)
    ensures d <= from <= to <= d + DAY && to - from <= gap
    ensures var row := RunTable(ticks, keep, false)[Key(Day, d, s)];
            Moved(row.rx, row.tx, row.dt) == MovedIn(ticks, s, from, to)
  {
    hide RunTable, RunLog, Sum, MovedIn, DayRewrites;
    SealedDayNotRewritten(ticks, keep, s, d);
    from, to := SealedDay(ticks, keep, s, d, gap);
    LogIsSamples(ticks, s, from, to);
  }

  // -- a regular pace --------------------------------------------------------------------

  /** Ticks exactly gap seconds apart. */
  predicate Regular(ticks: seq<Tick>, gap: nat) {
    gap > 0 && forall i :: 0 < i < |ticks| ==> ticks[i].ts - ticks[i - 1].ts == gap
  }

  lemma {:induction false} RegularTimes(ticks: seq<Tick>, gap: nat)
    requires Regular(ticks, gap)
    ensures StrictClock(ticks) && Steady(ticks, gap)
    ensures forall i :: 0 <= i < |ticks| - 1 ==> ticks[i].ts + gap <= ticks[|ticks| - 1].ts
  {
    if |ticks| > 1 {
      RegularTimes(ticks[..|ticks| - 1], gap);
    }
  }

  /** What the tick sampled of a series. */
  predicate SampledBy(tick: Tick, s: Series, m: Moved) {
    var sample := LastSample(tick.rows, s);
    sample.Some? && m == Moved(sample.value.rx, sample.value.tx, tick.dt)
  }

  /** Nothing, or what one tick sampled of a series. */
  ghost predicate OneSample(ticks: seq<Tick>, s: Series, m: Moved) {
    m == Moved(0, 0, 0) || exists i :: 0 <= i < |ticks| && SampledBy(ticks[i], s, m)
  }

  lemma {:induction false} NothingMoved(ticks: seq<Tick>, s: Series, lo: int, hi: int)
    requires forall i :: 0 <= i < |ticks| ==> ticks[i].ts < lo
    ensures MovedIn(ticks, s, lo, hi) == Moved(0, 0, 0)
  {
    if ticks != [] {
      NothingMoved(ticks[..|ticks| - 1], s, lo, hi);
    }
  }

  /** A window no longer than the pace holds at most one sample. */
  lemma {:induction false} OneSampleFits(ticks: seq<Tick>, s: Series, from: int, to: int, gap: nat)
    requires Regular(ticks, gap) && to - from <= gap
    ensures OneSample(ticks, s, MovedIn(ticks, s, from, to))
  {
    hide LastSample;
    if ticks != [] {
      var n := |ticks| - 1;
      RegularTimes(ticks, gap);
      if from <= ticks[n].ts < to && LastSample(ticks[n].rows, s).Some? {
        NothingMoved(ticks[..n], s, from, to);
      } else {
        OneSampleFits(ticks[..n], s, from, to, gap);
        if MovedIn(ticks, s, from, to) != Moved(0, 0, 0) {
          var i :| 0 <= i < n && SampledBy(ticks[..n][i], s, MovedIn(ticks[..n], s, from, to));
          assert ticks[..n][i] == ticks[i];
        }
      }
    }
  }

  /**
    As coded, of a sampler that ticks regularly, an hour row two hours after its hour and a
    day row two days after its day carry the bytes and seconds of one sample.
   */
  lemma RegularRowsAreOneSample(ticks: seq<Tick>, keep: Retention, s: Series, b: nat, tier: Tier, gap: nat)
    requires Regular(ticks, gap) && gap <= HOUR && ticks != [] && keep.rawHours >= 2 && keep.hourlyDays >= 2
    requires Key(tier, b, s) in RunTable(ticks, keep, false)
    requires (tier == Hour && b % HOUR == 0 && b + HOUR <= ticks[|ticks| - 1].ts - 2 * HOUR)
          || (tier == Day && b % DAY == 0 && b + DAY <= ticks[|ticks| - 1].ts - 2 * DAY)
    ensures var row := RunTable(ticks, keep, false)[Key(tier, b, s)];
            OneSample(ticks, s, Moved(row.rx, row.tx, row.dt))
  {
    hide RunTable, MovedIn, OneSample;
    var from, to;
    RegularTimes(ticks, gap);
    if tier == Hour {
      from, to := SteadyHour(ticks, keep, s, b, gap);
    } else {
      from, to := SteadyDay(ticks, keep, s, b, gap);
    }
    OneSampleFits(ticks, s, from, to, gap);
  }
}
