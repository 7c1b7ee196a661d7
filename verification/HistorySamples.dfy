/**
  The conservation theorems stated on the samples themselves: what every hour and day row
  says about the bytes and seconds the sampler handed to write_samples.
 */
module HistorySamples {
  import opened Options
  import opened Positional
  import opened History
  import opened HistoryFacts
  import opened HistoryRuns
  import opened HistoryWindow
  import opened HistoryDays
  import opened HistoryDayRuns
  import opened HistoryDaySettings

  datatype Moved = Moved(rx: nat, tx: nat, seconds: nat)

  /** Bytes and seconds of a series over the ticks with lo <= ts < hi. */
  function MovedIn(ticks: seq<Tick>, s: Series, lo: int, hi: int): Moved {
    if ticks == [] then Moved(0, 0, 0)
    else
      var last, before := ticks[|ticks| - 1], MovedIn(ticks[..|ticks| - 1], s, lo, hi);
      var sample := LastSample(last.rows, s);
      if lo <= last.ts < hi && sample.Some?
      then Moved(before.rx + sample.value.rx, before.tx + sample.value.tx, before.seconds + last.dt)
      else before
  }

  /** The processor load of those ticks, each weighted with its interval. */
  function CpuSeconds(ticks: seq<Tick>, s: Series, lo: int, hi: int): real {
    if ticks == [] then 0.0
    else
      var last, before := ticks[|ticks| - 1], CpuSeconds(ticks[..|ticks| - 1], s, lo, hi);
      var sample := LastSample(last.rows, s);
      if lo <= last.ts < hi && sample.Some? then before + sample.value.cpu * last.dt as real else before
  }

  /** Their memory, weighted in the same way. */
  function RamSeconds(ticks: seq<Tick>, s: Series, lo: int, hi: int): nat {
    if ticks == [] then 0
    else
      var last, before := ticks[|ticks| - 1], RamSeconds(ticks[..|ticks| - 1], s, lo, hi);
      var sample := LastSample(last.rows, s);
      if lo <= last.ts < hi && sample.Some? then before + sample.value.ram * last.dt else before
  }

  /** No two ticks in one second: the sampler sleeps between ticks. */
  predicate StrictClock(ticks: seq<Tick>) {
    forall i, j :: 0 <= i < j < |ticks| ==> ticks[i].ts < ticks[j].ts
  }

  predicate Totalled(a: Totals, m: Moved) {
    a.rx == m.rx && a.tx == m.tx && a.dt == m.seconds
  }

  lemma {:induction false} LogEnds(ticks: seq<Tick>, k: Key)
    requires StrictClock(ticks) && k in RunLog(ticks)
    ensures ticks != [] && k.ts <= ticks[|ticks| - 1].ts
  {
    hide Written;
    var n := |ticks| - 1;
    WrittenAt(RunLog(ticks[..n]), ticks[n].ts, ticks[n].dt, ticks[n].rows, k);
    assert Get(RunLog(ticks), k).Some?;
    if k.ts != ticks[n].ts {
      assert Get(RunLog(ticks[..n]), k).Some?;
      LogEnds(ticks[..n], k);
    }
  }

  lemma OneRow(t: Table, s: Series, ts: nat)
    ensures Sum(t, Raw, s, ts, ts + 1) == At(t, Raw, s, ts)
  {
    assert Sum(t, Raw, s, ts, ts) == NO_ROWS;
  }

  /** A window cut in three at one second. */
  lemma CutAt(t: Table, s: Series, lo: int, ts: nat, hi: int)
    requires lo <= ts < hi
    ensures var before, at, after := Sum(t, Raw, s, lo, ts), At(t, Raw, s, ts), Sum(t, Raw, s, ts + 1, hi);
            var all := Sum(t, Raw, s, lo, hi);
            && all.rx == before.rx + at.rx + after.rx
            && all.tx == before.tx + at.tx + after.tx
            && all.dt == before.dt + at.dt + after.dt
            && all.cpuDt == before.cpuDt + at.cpuDt + after.cpuDt
            && all.ramDt == before.ramDt + at.ramDt + after.ramDt
  {
    hide Sum;
    SumAdds(t, Raw, s, lo, ts, hi);
    SumAdds(t, Raw, s, ts, ts + 1, hi);
    OneRow(t, s, ts);
  }

  /** The log's totals over any window are those of the samples. */
  lemma {:induction false} LogIsSamples(ticks: seq<Tick>, s: Series, lo: int, hi: int)
    requires StrictClock(ticks)
    ensures Totalled(Sum(RunLog(ticks), Raw, s, lo, hi), MovedIn(ticks, s, lo, hi))
    ensures Sum(RunLog(ticks), Raw, s, lo, hi).cpuDt == CpuSeconds(ticks, s, lo, hi)
    ensures Sum(RunLog(ticks), Raw, s, lo, hi).ramDt == RamSeconds(ticks, s, lo, hi)
  {
    hide Sum, RunLog, Written, At, HasRow, LastDisk;
    if ticks == [] {
      EmptyLog(s, lo, hi);
    } else {
      var n := |ticks| - 1;
      var last := ticks[n];
      LogIsSamples(ticks[..n], s, lo, hi);
      if lo <= last.ts < hi && LastSample(last.rows, s).Some? {
        CutAt(RunLog(ticks), s, lo, last.ts, hi);
        CutAt(RunLog(ticks[..n]), s, lo, last.ts, hi);
        LogUnchanged(ticks, s, lo, last.ts);
        LogUnchanged(ticks, s, last.ts + 1, hi);
        SameSums(RunLog(ticks[..n]), RunLog(ticks), Raw, s, lo, last.ts);
        SameSums(RunLog(ticks[..n]), RunLog(ticks), Raw, s, last.ts + 1, hi);
        NewSecond(ticks, s);
      } else {
        LogUnchanged(ticks, s, lo, hi);
        SameSums(RunLog(ticks[..n]), RunLog(ticks), Raw, s, lo, hi);
      }
    }
  }

  lemma EmptyLog(s: Series, lo: int, hi: int)
    ensures Sum(RunLog([]), Raw, s, lo, hi) == NO_ROWS
  {
    hide Sum;
    NothingLogged(s, lo, hi);
    SumRows(RunLog([]), Raw, s, lo, hi);
  }

  /** The last tick's second held nothing and now holds its sample. */
  lemma NewSecond(ticks: seq<Tick>, s: Series)
    requires ticks != [] && StrictClock(ticks)
    requires LastSample(ticks[|ticks| - 1].rows, s).Some?
    ensures var last := ticks[|ticks| - 1];
            var sample := LastSample(last.rows, s).value;
            var added, before := At(RunLog(ticks), Raw, s, last.ts), At(RunLog(ticks[..|ticks| - 1]), Raw, s, last.ts);
            && added.rx == sample.rx && added.tx == sample.tx && added.dt == last.dt
            && added.cpuDt == sample.cpu * last.dt as real && added.ramDt == sample.ram * last.dt
            && before == NO_ROWS
  {
    hide Written;
    var n := |ticks| - 1;
    var k := Key(Raw, ticks[n].ts, s);
    WrittenAt(RunLog(ticks[..n]), ticks[n].ts, ticks[n].dt, ticks[n].rows, k);
    assert Get(RunLog(ticks), k) == Some(RawRow(LastSample(ticks[n].rows, s).value, ticks[n].dt));
    if k in RunLog(ticks[..n]) {
      LogEnds(ticks[..n], k);
    }
  }

  /** What an hour row of bucket b must say about the log. */
  ghost predicate TrueHourRow(row: Row, l: Table, s: Series, b: nat) {
    var a := Sum(l, Raw, s, b, b + HOUR);
    && row.rx == a.rx && row.tx == a.tx && row.dt == a.dt
    && row.cpuMax == a.cpuMax && row.ramMax == a.ramMax
    && row.cpuAvg * a.dt as real == a.cpuDt
    && (a.dt > 0 ==> row.ramAvg * a.dt <= a.ramDt < (row.ramAvg + 1) * a.dt)
    && row.disk == LastDisk(l, Raw, s, b, b + HOUR)
  }

  lemma TrueHourMeaning(ticks: seq<Tick>, s: Series, b: nat)
    requires TrueHour(ticks, s, b).Some?
    ensures TrueHourRow(TrueHour(ticks, s, b).value, RunLog(ticks), s, b)
  {
    hide Sum, LastDisk, HasRow, RunLog;
    var a := Sum(RunLog(ticks), Raw, s, b, b + HOUR);
    if a.dt > 0 {
      MeanTimesWeight(a.ramDt, a.dt);
      Distribute(a.ramDt / a.dt, 1, a.dt);
      RealMean(a.cpuDt, a.dt);
    } else {
      NoTimeNoWeight(RunLog(ticks), Raw, s, b, b + HOUR);
    }
  }

  /** The true row of an hour carries the sampled bytes and seconds. */
  lemma TrueHourIsSampled(ticks: seq<Tick>, s: Series, b: nat)
    requires StrictClock(ticks)
    ensures TrueHour(ticks, s, b).Some? ==>
              var row := TrueHour(ticks, s, b).value;
              && TrueHourRow(row, RunLog(ticks), s, b)
              && Moved(row.rx, row.tx, row.dt) == MovedIn(ticks, s, b, b + HOUR)
  {
    hide RunLog, Sum, LastDisk, MovedIn, TrueHour;
    LogIsSamples(ticks, s, b, b + HOUR);
    if TrueHour(ticks, s, b).Some? {
      TrueHourMeaning(ticks, s, b);
    }
  }

  /**
    For every retention and either window, as coded or as documented: after every tick the
    row of an hour the rollup sees from its start says exactly what was sampled in it, every
    byte, every second, both maxima and both means.
   */
  lemma RecentHourIsSampled(ticks: seq<Tick>, keep: Retention, aligned: bool, s: Series, b: nat)
    requires StrictClock(ticks) && ticks != [] && b % HOUR == 0
    requires b >= Start(ticks, keep, aligned) && Kept(Key(Hour, b, s), ticks[|ticks| - 1].ts, keep)
    ensures var row := Get(RunTable(ticks, keep, aligned), Key(Hour, b, s));
            && (row.Some? <==> HasRow(RunLog(ticks), Raw, s, b, b + HOUR))
            && (row.Some? ==> TrueHourRow(row.value, RunLog(ticks), s, b)
                              && Moved(row.value.rx, row.value.tx, row.value.dt) == MovedIn(ticks, s, b, b + HOUR))
  {
    hide RunTable, RunLog, RolledRow, HasRow, Sum, LastDisk, MovedIn, TrueHourRow;
    RecentHoursConserved(ticks, keep, aligned, s, b);
    TrueHourIsSampled(ticks, s, b);
  }

  /**
    Over every run, for every retention and either window: a kept hour row carries the bytes
    and seconds sampled in its hour exactly when no rollup ever cut the hour.
   */
  lemma HourIsSampledIff(ticks: seq<Tick>, keep: Retention, aligned: bool, s: Series, b: nat)
    requires StrictClock(ticks) && PositiveIntervals(ticks) && b % HOUR == 0
    ensures var row := Get(RunTable(ticks, keep, aligned), Key(Hour, b, s));
            row.Some? ==>
              (Moved(row.value.rx, row.value.tx, row.value.dt) == MovedIn(ticks, s, b, b + HOUR)
               <==> !EverStraddled(ticks, keep, aligned, s, b))
  {
    hide RunTable, RunLog, PartialRow, HasRow, Sum, LastDisk, MovedIn, TrueHourRow, EverStraddled;
    EmptyRun(keep, aligned);
    if ticks != [] {
      var k := Key(Hour, b, s);
      HourRows(ticks, keep, aligned, k);
      HoursConserved(ticks, keep, aligned, s, b);
      TrueHourIsSampled(ticks, s, b);
      LogIsSamples(ticks, s, b, b + HOUR);
      MissingIffStraddled(ticks, keep, aligned, s, b);
      ReachBounds(ticks, keep, aligned, s, b);
      MissingTime(ticks, s, b, Reached(ticks, keep, aligned, s, b));
    }
  }

  /** The same for days: uncut by either rollup, and only then. */
  lemma DayIsSampledIff(ticks: seq<Tick>, keep: Retention, aligned: bool, s: Series, d: nat)
    requires StrictClock(ticks) && PositiveIntervals(ticks) && keep.hourlyDays >= 1 && d % DAY == 0
    ensures var row := Get(RunTable(ticks, keep, aligned), Key(Day, d, s));
            row.Some? ==>
              (Moved(row.value.rx, row.value.tx, row.value.dt) == MovedIn(ticks, s, d, d + DAY)
               <==> NeverCut(ticks, keep, aligned, s, d))
  {
    hide RunTable, RunLog, Sum, LastDisk, MovedIn, NeverCut;
    LogIsSamples(ticks, s, d, d + DAY);
    if Get(RunTable(ticks, keep, aligned), Key(Day, d, s)).Some? {
      if NeverCut(ticks, keep, aligned, s, d) {
        DaysConserved(ticks, keep, aligned, s, d);
      } else if RunTable(ticks, keep, aligned)[Key(Day, d, s)].dt == Sum(RunLog(ticks), Raw, s, d, d + DAY).dt {
        FullDaysAreUncut(ticks, keep, aligned, s, d);
      }
    }
  }

  /** So under the settings that never lose a sample every kept row carries every sampled byte and second. */
  lemma KeptRowsAreSampled(ticks: seq<Tick>, keep: Retention, s: Series, b: nat, tier: Tier)
    requires StrictClock(ticks) && ticks != [] && keep.rawHours >= 2 && keep.hourlyDays >= 1 && HoursOutliveDays(keep)
    requires (tier == Hour && b % HOUR == 0) || (tier == Day && b % DAY == 0)
    requires Kept(Key(tier, b, s), ticks[|ticks| - 1].ts, keep)
    ensures var row, end := Get(RunTable(ticks, keep, true), Key(tier, b, s)), b + (if tier == Hour then HOUR else DAY);
            && (row.Some? <==> HasRow(RunLog(ticks), Raw, s, b, end))
            && (row.Some? ==> Moved(row.value.rx, row.value.tx, row.value.dt) == MovedIn(ticks, s, b, end))
  {
    hide RunTable, RunLog, RolledRow, HasRow, Sum, LastDisk, MovedIn;
    if tier == Hour {
      SealedHoursConserved(ticks, keep, s, b);
      TrueHourIsSampled(ticks, s, b);
    } else {
      SealedDaysConserved(ticks, keep, s, b);
      LogIsSamples(ticks, s, b, b + DAY);
    }
  }

  /**
    For every accepted retention and either window: however often its bucket was rewritten,
    a row never says more bytes or seconds than were sampled in its hour or day.
   */
  lemma RowsAtMostSampled(ticks: seq<Tick>, keep: Retention, aligned: bool, s: Series, b: nat, tier: Tier)
    requires StrictClock(ticks) && keep.hourlyDays >= 1
    requires tier == Hour || (tier == Day && b % DAY == 0)
    requires Key(tier, b, s) in RunTable(ticks, keep, aligned)
    ensures var row := RunTable(ticks, keep, aligned)[Key(tier, b, s)];
            var m := MovedIn(ticks, s, b, b + (if tier == Hour then HOUR else DAY));
            row.rx <= m.rx && row.tx <= m.tx && row.dt <= m.seconds
  {
    hide RunTable, RunLog, PartialRow, Sum, LastDisk, HasRow, MovedIn, Rewrites, Reached, HourHorizon, Kept, Hourly;
    EmptyRun(keep, aligned);
    if tier == Hour {
      HourRows(ticks, keep, aligned, Key(Hour, b, s));
      assert Get(RunTable(ticks, keep, aligned), Key(Hour, b, s)).Some?;
      ReachBounds(ticks, keep, aligned, s, b);
      PartAtMost(RunLog(ticks), s, b, Reached(ticks, keep, aligned, s, b));
      LogIsSamples(ticks, s, b, b + HOUR);
    } else {
      DaysAtMost(ticks, keep, aligned, s, b);
      LogIsSamples(ticks, s, b, b + DAY);
    }
  }
}
