/**
  Which retention settings keep every day row true, the runs that lose samples under the
  others, and what the coded window does to the first day of a three-tick run.
 */
module HistoryDaySettings {
  import opened Options
  import opened Positional
  import opened History
  import opened HistoryFacts
  import opened HistoryRuns
  import opened HistoryWindow
  import opened HistoryDays
  import opened HistoryDayRuns

  /** The settings under which hour rows outlive every rollup of a day row that is kept. */
  predicate HoursOutliveDays(keep: Retention) {
    keep.hourlyDays >= 2 || keep.dailyDays == 1
  }

  /** With the documented window, the day rollup of a kept day never leaves out an hour. */
  lemma AlignedNeverCutsDay(ticks: seq<Tick>, keep: Retention, s: Series, d: nat, now: nat)
    requires Monotone(ticks) && ticks != [] && ticks[|ticks| - 1].ts <= now && d % DAY == 0
    requires keep.hourlyDays >= 1 && (keep.hourlyDays >= 2 || d >= now - DAY)
    ensures !DayStraddles(ticks, keep, true, s, d)
  {
    hide RunLog, SampledHour, AlignUp;
    var last := ticks[|ticks| - 1].ts;
    AlignUpFacts(last - 2 * DAY, DAY);
    if |ticks| > 1 {
      assert ticks[|ticks| - 2].ts <= last;
    }
    var start := DayStart(ticks, keep, true);
    if start <= d {
      NoHourIn(RunLog(ticks), s, d, start);
    } else {
      assert start == AlignUp(last - 2 * DAY, DAY);
      MultiplesApart(d, start, DAY);
      NoHourIn(RunLog(ticks), s, start, d + DAY);
    }
  }

  lemma NoHourIn(l: Table, s: Series, lo: int, hi: int)
    requires hi <= lo
    ensures !SampledHour(l, s, lo, hi)
  {
  }

  /** With the documented window over two hours of raw rows, no kept day is ever cut. */
  lemma AlignedNeverCut(ticks: seq<Tick>, keep: Retention, s: Series, d: nat)
    requires Monotone(ticks) && ticks != [] && keep.rawHours >= 2 && keep.hourlyDays >= 1 && d % DAY == 0
    requires HoursOutliveDays(keep) && Kept(Key(Day, d, s), ticks[|ticks| - 1].ts, keep)
    ensures NeverCut(ticks, keep, true, s, d)
  {
    hide DayStraddles, EverStraddled;
    forall h: nat | d <= h < d + DAY && h % HOUR == 0 ensures !EverStraddled(ticks, keep, true, s, h) {
      AlignedNeverStraddles(ticks, keep, s, h);
    }
    forall n | 0 < n <= |ticks| ensures !DayStraddles(ticks[..n], keep, true, s, d) {
      assert ticks[n - 1].ts <= ticks[|ticks| - 1].ts;
      AlignedNeverCutsDay(ticks[..n], keep, s, d, ticks[|ticks| - 1].ts);
    }
  }

  /**
    With the documented window, two hours of raw rows and hour rows that outlive their days,
    every day row the store still keeps is true to its samples, and no day is missing.
   */
  lemma SealedDaysConserved(ticks: seq<Tick>, keep: Retention, s: Series, d: nat)
    requires Monotone(ticks) && ticks != [] && d % DAY == 0
    requires keep.rawHours >= 2 && keep.hourlyDays >= 1 && HoursOutliveDays(keep)
    ensures var row := Get(RunTable(ticks, keep, true), Key(Day, d, s));
            && (row.Some? <==> (Kept(Key(Day, d, s), ticks[|ticks| - 1].ts, keep)
                                && HasRow(RunLog(ticks), Raw, s, d, d + DAY)))
            && (row.Some? ==> TrueDay(row.value, RunLog(ticks), s, d))
  {
    hide RunTable, RunLog, Hourly, HasRow, TrueDay, NeverCut;
    DayRows(ticks, keep, true, s, d);
    if Kept(Key(Day, d, s), ticks[|ticks| - 1].ts, keep) {
      AlignedNeverCut(ticks, keep, s, d);
      DaysConserved(ticks, keep, true, s, d);
    }
  }

  // -- runs that lose samples ---------------------------------------------------

  /** A run that opens with the first ticks and is over before the day is rewrites the first day. */
  lemma FirstDayRewritten(ticks: seq<Tick>, keep: Retention, aligned: bool)
    requires Monotone(ticks) && OpensWithFirst(ticks)
    requires keep.hourlyDays >= 1 && keep.dailyDays >= 1 && ticks[|ticks| - 1].ts <= DAY
    ensures DayRewrites(ticks, keep, aligned, HOST, 0) && Key(Day, 0, HOST) in RunTable(ticks, keep, aligned)
  {
    hide RunLog, RunTable, Hourly, HasRow, DayStart, RolledRow, Since;
    DayStartBounds(ticks, keep, aligned);
    FirstHourSum(ticks, 0);
    assert Sampled(RunLog(ticks), HOST, 0);
    DayRollup(ticks, keep, aligned, Key(Day, 0, HOST));
    assert Get(RunTable(ticks, keep, aligned), Key(Day, 0, HOST)).Some?;
  }

  /** In the short run only the first hour and the one of the last tick are sampled. */
  lemma ShortRunHours(h: nat)
    ensures Sampled(RunLog(SHORT_RUN), HOST, h) ==> h == 0 || h == 7200
  {
    hide RunLog, Written;
    var l := RunLog(SHORT_RUN);
    ShortRunLog();
    if Sampled(l, HOST, h) {
      var ts: nat :| h <= ts < h + HOUR && Key(Raw, ts, HOST) in l;
      DivModUnique(2, HOUR, 0);
      MultiplesApart(0, h, HOUR);
      MultiplesApart(7200, h, HOUR);
      MultiplesApart(h, 7200, HOUR);
    }
  }

  lemma ShortRunLog()
    ensures RunLog(SHORT_RUN) == RunLog(FIRST_TICKS)[Key(Raw, 10400, HOST) := RawRow(SHORT_RUN[3].rows[0], 6900)]
    ensures forall k :: k in RunLog(SHORT_RUN) ==> k.ts in {2500, 3000, 3500, 10400}
  {
    assert SHORT_RUN[..3] == FIRST_TICKS;
    FirstLog();
    OneRowWritten(RunLog(FIRST_TICKS), 10400, 6900, SHORT_RUN[3].rows[0]);
  }

  /** The two hour rows the last day rollup of the short run reads. */
  lemma ShortRunHourRows(keep: Retention)
    requires keep.rawHours >= 1 && keep.hourlyDays >= 1
    ensures var t := Hourly(SHORT_RUN, keep, false);
            && Key(Hour, 0, HOST) in t && t[Key(Hour, 0, HOST)].rx == 7
            && Key(Hour, 7200, HOST) in t && t[Key(Hour, 7200, HOST)].rx == 3
            && (forall h: nat :: Key(Hour, h, HOST) in t ==> h == 0 || h == 7200)
  {
    hide RunLog, Hourly, Sum, LastDisk, HasRow;
    var t, l := Hourly(SHORT_RUN, keep, false), RunLog(SHORT_RUN);
    ShortRuns();
    ShortRunStraddled(keep);
    FirstHourSum(SHORT_RUN, 0);
    FirstHourSum(SHORT_RUN, 3200);
    HourTable(SHORT_RUN, keep, false, HOST, 0);
    assert Get(t, Key(Hour, 0, HOST)).Some?;
    LastHourBytes();
    DivModUnique(2, HOUR, 0);
    HourTable(SHORT_RUN, keep, false, HOST, 7200);
    assert Get(t, Key(Hour, 7200, HOST)).Some?;
    forall h: nat | Key(Hour, h, HOST) in t ensures h == 0 || h == 7200 {
      HourTable(SHORT_RUN, keep, false, HOST, h);
      assert Get(t, Key(Hour, h, HOST)).Some?;
      ShortRunHours(h);
    }
  }

  lemma LastHourBytes()
    ensures HasRow(RunLog(SHORT_RUN), Raw, HOST, 7200, 10800) && Sum(RunLog(SHORT_RUN), Raw, HOST, 7200, 10800).rx == 3
  {
    hide RunLog, Sum;
    var l := RunLog(SHORT_RUN);
    ShortRunLog();
    assert Key(Raw, 10400, HOST) in l;
    SumAdds(l, Raw, HOST, 7200, 10400, 10800);
    SumRows(l, Raw, HOST, 7200, 10400);
    OnlyFirst(l, Raw, HOST, 10400, 10800);
  }

  /** The day's fifteen bytes, as the log has them. */
  lemma ShortRunDayBytes()
    ensures Sum(RunLog(SHORT_RUN), Raw, HOST, 0, DAY).rx == 15
  {
    hide RunLog, Sum;
    var l := RunLog(SHORT_RUN);
    ShortRuns();
    ShortRunLog();
    FirstHourSum(SHORT_RUN, 0);
    LastHourBytes();
    SumAdds(l, Raw, HOST, 0, HOUR, DAY);
    SumAdds(l, Raw, HOST, HOUR, 7200, DAY);
    SumAdds(l, Raw, HOST, 7200, 10800, DAY);
    SumRows(l, Raw, HOST, HOUR, 7200);
    SumRows(l, Raw, HOST, 10800, DAY);
  }

  /** As coded, under any accepted retention, the row of a whole day loses five of fifteen bytes. */
  lemma ShortRunLosesADay(keep: Retention)
    requires keep.rawHours >= 1 && keep.hourlyDays >= 1 && keep.dailyDays >= 1
    ensures SamplerRun(SHORT_RUN) && Sum(RunLog(SHORT_RUN), Raw, HOST, 0, DAY).rx == 15
    ensures var k := Key(Day, 0, HOST);
            k in RunTable(SHORT_RUN, keep, false) && RunTable(SHORT_RUN, keep, false)[k].rx == 10
  {
    hide RunLog, RunTable, Hourly, Sum, LastDisk, HasRow, SamplerRun, DayRewrites;
    var t := Hourly(SHORT_RUN, keep, false);
    ShortRuns();
    ShortRunDayBytes();
    FirstDayRewritten(SHORT_RUN, keep, false);
    DayRollup(SHORT_RUN, keep, false, Key(Day, 0, HOST));
    ShortRunHourRows(keep);
    TwoRows(t, 7200);
  }

  /** The bytes of a day with two hour rows. */
  lemma TwoRows(t: Table, h: nat)
    requires 0 < h < DAY && Key(Hour, 0, HOST) in t && Key(Hour, h, HOST) in t
    requires forall g: nat :: Key(Hour, g, HOST) in t ==> g == 0 || g == h
    ensures Sum(t, Hour, HOST, 0, DAY).rx == t[Key(Hour, 0, HOST)].rx + t[Key(Hour, h, HOST)].rx
  {
    hide Sum;
    SumAdds(t, Hour, HOST, 0, h, DAY);
    OnlyFirst(t, Hour, HOST, 0, h);
    OnlyFirst(t, Hour, HOST, h, DAY);
  }

  /** Samples in the first and in the 23rd hour, and a day later two ticks, the first pruning the first hour row. */
  const LONG_RUN: seq<Tick> := [
    HostTick(100, 500, 0), HostTick(600, 500, 5), HostTick(80000, 79400, 7), HostTick(90000, 10000, 3),
    HostTick(90500, 500, 3)]

  lemma LongRunMade()
    ensures SamplerRun(LONG_RUN) && Monotone(LONG_RUN)
  {
    hide LastSample;
    HostRow(100, 500, 0);
    HostRow(600, 500, 5);
    HostRow(80000, 79400, 7);
    HostRow(90000, 10000, 3);
    HostRow(90500, 500, 3);
    assert MadeBySampler(LONG_RUN, 500);
  }

  lemma LongRunLog()
    ensures Key(Raw, 600, HOST) in RunLog(LONG_RUN) && Key(Raw, 80000, HOST) in RunLog(LONG_RUN)
  {
    hide RunLog, LastSample;
    var two, three, four := LONG_RUN[..2], LONG_RUN[..3], LONG_RUN[..4];
    assert three[..2] == two && four[..3] == three && LONG_RUN[..4] == four;
    HostRow(600, 500, 5);
    HostRow(80000, 79400, 7);
    SampleLogged(two, HOST);
    SampleLogged(three, HOST);
    StaysLogged(three, Key(Raw, 600, HOST));
    StaysLogged(four, Key(Raw, 600, HOST));
    StaysLogged(four, Key(Raw, 80000, HOST));
    StaysLogged(LONG_RUN, Key(Raw, 600, HOST));
    StaysLogged(LONG_RUN, Key(Raw, 80000, HOST));
  }

  lemma StaysLogged(ticks: seq<Tick>, k: Key)
    requires ticks != [] && k.tier == Raw
    ensures k in RunLog(ticks[..|ticks| - 1]) ==> k in RunLog(ticks)
  {
    hide Written;
    var n := |ticks| - 1;
    WrittenAt(RunLog(ticks[..n]), ticks[n].ts, ticks[n].dt, ticks[n].rows, k);
    assert Get(RunLog(ticks), k).Some? <==> k in RunLog(ticks);
  }

  /** With one day of hour rows, under either window, the last rollup misses the first hour. */
  lemma LongRunCut(keep: Retention, aligned: bool)
    requires keep.hourlyDays == 1 && keep.dailyDays >= 2
    ensures SamplerRun(LONG_RUN)
    ensures !NeverCut(LONG_RUN, keep, aligned, HOST, 0) && Key(Day, 0, HOST) in RunTable(LONG_RUN, keep, aligned)
  {
    hide RunLog, RunTable, Hourly, RolledRow, SamplerRun;
    LongRunMade();
    LongRunLog();
    assert Sampled(RunLog(LONG_RUN), HOST, 0);
    DivModUnique(22, HOUR, 0);
    assert Sampled(RunLog(LONG_RUN), HOST, 79200);
    assert DayStart(LONG_RUN, keep, aligned) == 3600;
    assert LONG_RUN[..5] == LONG_RUN;
    assert DayStraddles(LONG_RUN[..5], keep, aligned, HOST, 0);
    DayRollup(LONG_RUN, keep, aligned, Key(Day, 0, HOST));
    assert Get(RunTable(LONG_RUN, keep, aligned), Key(Day, 0, HOST)).Some?;
  }

  /** Every day row of every run of the sampler is true to its samples. */
  ghost predicate DaysExact(keep: Retention, aligned: bool) {
    forall ticks, s, d: nat ::
      (SamplerRun(ticks) && d % DAY == 0 && Key(Day, d, s) in RunTable(ticks, keep, aligned)) ==>
        TrueDay(RunTable(ticks, keep, aligned)[Key(Day, d, s)], RunLog(ticks), s, d)
  }

  /**
    Of the accepted settings, exactly these never lose a sample from a day: the documented
    window, two hours of raw rows, and hour rows that outlive the days they belong to.
   */
  lemma DaysExactIff(keep: Retention, aligned: bool)
    requires keep.rawHours >= 1 && keep.hourlyDays >= 1 && keep.dailyDays >= 1
    ensures DaysExact(keep, aligned) <==> aligned && keep.rawHours >= 2 && HoursOutliveDays(keep)
  {
    hide RunLog, RunTable, TrueDay, NeverCut, SamplerRun;
    if aligned && keep.rawHours >= 2 && HoursOutliveDays(keep) {
      SafeDays(keep);
    } else if !aligned {
      ShortRuns();
      ShortRunStraddled(keep);
      CutFirstDay(SHORT_RUN, keep, aligned);
    } else if keep.rawHours == 1 {
      ShortRuns();
      PrunedRunStraddled(keep, aligned);
      CutFirstDay(PRUNED_RUN, keep, aligned);
    } else {
      LongRunCut(keep, aligned);
      SamplerRunFacts(LONG_RUN);
      DayExactIff(LONG_RUN, keep, aligned, HOST, 0);
    }
  }

  /** A run whose first hour was cut has a first day row that is not true. */
  lemma CutFirstDay(ticks: seq<Tick>, keep: Retention, aligned: bool)
    requires SamplerRun(ticks) && OpensWithFirst(ticks) && EverStraddled(ticks, keep, aligned, HOST, 0)
    requires keep.hourlyDays >= 1 && keep.dailyDays >= 1 && ticks[|ticks| - 1].ts <= DAY
    ensures Key(Day, 0, HOST) in RunTable(ticks, keep, aligned)
    ensures !TrueDay(RunTable(ticks, keep, aligned)[Key(Day, 0, HOST)], RunLog(ticks), HOST, 0)
  {
    hide RunLog, RunTable, TrueDay, EverStraddled, EverDayStraddled, SamplerRun, OpensWithFirst, DayRewrites;
    SamplerRunFacts(ticks);
    FirstDayRewritten(ticks, keep, aligned);
    DayExactIff(ticks, keep, aligned, HOST, 0);
  }

  lemma SafeDays(keep: Retention)
    requires keep.rawHours >= 2 && keep.hourlyDays >= 1 && HoursOutliveDays(keep)
    ensures DaysExact(keep, true)
  {
    hide RunLog, RunTable, TrueDay, SamplerRun;
    forall ticks, s, d: nat | SamplerRun(ticks) && d % DAY == 0 && Key(Day, d, s) in RunTable(ticks, keep, true)
      ensures TrueDay(RunTable(ticks, keep, true)[Key(Day, d, s)], RunLog(ticks), s, d)
    {
      SamplerRunFacts(ticks);
      EmptyRun(keep, true);
      SealedDaysConserved(ticks, keep, s, d);
      assert Get(RunTable(ticks, keep, true), Key(Day, d, s)).Some?;
    }
  }
}
