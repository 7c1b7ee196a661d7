/**
  What rows say about the readings themselves: peaks, weighted means and the latest disk
  reading of an hour or day row, stated on the samples the sampler handed over.
 */
module HistoryReadings {
  import opened Options
  import opened Positional
  import opened History
  import opened HistoryFacts
  import opened HistoryRuns
  import opened HistoryWindow
  import opened HistoryDays
  import opened HistoryDayRuns
  import opened HistoryDaySettings
  import opened HistorySamples

  /** Tick i sampled the series in the window. */
  predicate SampledIn(ticks: seq<Tick>, i: int, s: Series, lo: int, hi: int) {
    0 <= i < |ticks| && lo <= ticks[i].ts < hi && LastSample(ticks[i].rows, s).Some?
  }

  /** The largest reading of the window: none exceeds it, one reaches it. */
  ghost predicate PeakCpu(ticks: seq<Tick>, s: Series, lo: int, hi: int, peak: real) {
    && (forall i :: SampledIn(ticks, i, s, lo, hi) ==> LastSample(ticks[i].rows, s).value.cpu <= peak)
    && (exists i :: SampledIn(ticks, i, s, lo, hi) && LastSample(ticks[i].rows, s).value.cpu == peak)
  }

  ghost predicate PeakRam(ticks: seq<Tick>, s: Series, lo: int, hi: int, peak: nat) {
    && (forall i :: SampledIn(ticks, i, s, lo, hi) ==> LastSample(ticks[i].rows, s).value.ram <= peak)
    && (exists i :: SampledIn(ticks, i, s, lo, hi) && LastSample(ticks[i].rows, s).value.ram == peak)
  }

  /** The disk reading of the latest sample of the window that has one. */
  function LatestDisk(ticks: seq<Tick>, s: Series, lo: int, hi: int): Option<nat> {
    if ticks == [] then None
    else
      var n := |ticks| - 1;
      if SampledIn(ticks, n, s, lo, hi) && LastSample(ticks[n].rows, s).value.disk.Some?
      then LastSample(ticks[n].rows, s).value.disk
      else LatestDisk(ticks[..n], s, lo, hi)
  }

  // -- the log and the samples -----------------------------------------------------------

  /** The log holds each sample, as a row whose peaks and means are its one reading. */
  lemma {:induction false} SampleIsLogged(ticks: seq<Tick>, i: int, s: Series)
    requires StrictClock(ticks) && 0 <= i < |ticks| && LastSample(ticks[i].rows, s).Some?
    ensures var sample := LastSample(ticks[i].rows, s).value;
            Get(RunLog(ticks), Key(Raw, ticks[i].ts, s))
            == Some(Row(sample.cpu, sample.cpu, sample.ram, sample.ram, sample.disk, sample.rx, sample.tx, ticks[i].dt))
  {
    hide LastSample, Written;
    var n := |ticks| - 1;
    WrittenAt(RunLog(ticks[..n]), ticks[n].ts, ticks[n].dt, ticks[n].rows, Key(Raw, ticks[i].ts, s));
    if i < n {
      SampleIsLogged(ticks[..n], i, s);
    }
  }

  /** And nothing else. */
  lemma {:induction false} LoggedIsSample(ticks: seq<Tick>, ts: nat, s: Series) returns (i: int)
    requires StrictClock(ticks) && Key(Raw, ts, s) in RunLog(ticks)
    ensures 0 <= i < |ticks| && ticks[i].ts == ts && LastSample(ticks[i].rows, s).Some?
  {
    hide LastSample, Written;
    var n := |ticks| - 1;
    WrittenAt(RunLog(ticks[..n]), ticks[n].ts, ticks[n].dt, ticks[n].rows, Key(Raw, ts, s));
    assert Get(RunLog(ticks), Key(Raw, ts, s)).Some?;
    if ts == ticks[n].ts && LastSample(ticks[n].rows, s).Some? {
      i := n;
    } else {
      assert Get(RunLog(ticks[..n]), Key(Raw, ts, s)).Some?;
      i := LoggedIsSample(ticks[..n], ts, s);
    }
  }

  /** The peaks of the log over a window are those of its samples. */
  lemma PeaksAreSampled(ticks: seq<Tick>, s: Series, lo: int, hi: int, cpu: real, ram: nat)
    requires StrictClock(ticks) && Peaks(RunLog(ticks), Raw, s, lo, hi, cpu, ram)
    ensures PeakCpu(ticks, s, lo, hi, cpu) && PeakRam(ticks, s, lo, hi, ram)
  {
    hide RunLog, LastSample;
    var l := RunLog(ticks);
    forall i | SampledIn(ticks, i, s, lo, hi)
      ensures LastSample(ticks[i].rows, s).value.cpu <= cpu && LastSample(ticks[i].rows, s).value.ram <= ram
    {
      SampleIsLogged(ticks, i, s);
    }
    var x: nat :| lo <= x < hi && Key(Raw, x, s) in l && l[Key(Raw, x, s)].cpuMax == cpu;
    var i := LoggedIsSample(ticks, x, s);
    SampleIsLogged(ticks, i, s);
    assert SampledIn(ticks, i, s, lo, hi);
    var y: nat :| lo <= y < hi && Key(Raw, y, s) in l && l[Key(Raw, y, s)].ramMax == ram;
    var j := LoggedIsSample(ticks, y, s);
    SampleIsLogged(ticks, j, s);
    assert SampledIn(ticks, j, s, lo, hi);
  }

  /** Nothing is logged after the last tick. */
  lemma NothingAfter(ticks: seq<Tick>, s: Series, hi: int)
    requires ticks != [] && StrictClock(ticks)
    ensures !HasRow(RunLog(ticks), Raw, s, ticks[|ticks| - 1].ts + 1, hi)
  {
    hide RunLog;
    forall ts: nat | ticks[|ticks| - 1].ts + 1 <= ts < hi ensures Key(Raw, ts, s) !in RunLog(ticks) {
      if Key(Raw, ts, s) in RunLog(ticks) {
        LogEnds(ticks, Key(Raw, ts, s));
      }
    }
  }

  /** The disk reading a rollup of the log takes is the latest one sampled. */
  lemma {:induction false} DiskIsSampled(ticks: seq<Tick>, s: Series, lo: int, hi: int)
    requires StrictClock(ticks)
    ensures LastDisk(RunLog(ticks), Raw, s, lo, hi) == LatestDisk(ticks, s, lo, hi)
  {
    hide RunLog, LastDisk, LastSample, Sum, HasRow;
    if ticks == [] {
      NothingLogged(s, lo, hi);
      NoDisk(RunLog([]), Raw, s, lo, hi);
    } else {
      var n := |ticks| - 1;
      var l, ts := RunLog(ticks), ticks[n].ts;
      DiskIsSampled(ticks[..n], s, lo, hi);
      if SampledIn(ticks, n, s, lo, hi) {
        SampleIsLogged(ticks, n, s);
        SumSplit(l, Raw, s, lo, ts, hi);
        DiskAtEnd(l, s, ts, hi, ticks);
        LogUnchanged(ticks, s, lo, ts);
        SameSums(RunLog(ticks[..n]), l, Raw, s, lo, ts);
        DiskBefore(ticks, s, lo, hi);
      } else {
        LogUnchanged(ticks, s, lo, hi);
        SameSums(RunLog(ticks[..n]), l, Raw, s, lo, hi);
      }
    }
  }

  lemma DiskAtEnd(l: Table, s: Series, ts: nat, hi: int, ticks: seq<Tick>)
    requires ticks != [] && StrictClock(ticks) && l == RunLog(ticks) && ts == ticks[|ticks| - 1].ts && ts < hi
    ensures LastDisk(l, Raw, s, ts, hi) == DiskAt(l, Raw, s, ts)
  {
    hide RunLog, LastDisk, Sum, HasRow;
    NothingAfter(ticks, s, hi);
    OnlyFirst(l, Raw, s, ts, hi);
  }

  /** Before the last tick the log ends before it. */
  lemma DiskBefore(ticks: seq<Tick>, s: Series, lo: int, hi: int)
    requires ticks != [] && StrictClock(ticks) && lo <= ticks[|ticks| - 1].ts < hi
    ensures var before, ts := RunLog(ticks[..|ticks| - 1]), ticks[|ticks| - 1].ts;
            LastDisk(before, Raw, s, lo, hi) == LastDisk(before, Raw, s, lo, ts)
  {
    hide RunLog, LastDisk, Sum;
    var n := |ticks| - 1;
    var before, ts := RunLog(ticks[..n]), ticks[n].ts;
    forall x: nat | ts <= x < hi ensures Key(Raw, x, s) !in before {
      if Key(Raw, x, s) in before {
        LogEnds(ticks[..n], Key(Raw, x, s));
      }
    }
    SumSplit(before, Raw, s, lo, ts, hi);
    NoDisk(before, Raw, s, ts, hi);
  }

  // -- rows ------------------------------------------------------------------------------

  /**
    The row states the samples of a window: bytes, seconds, both peaks, the exact
    interval-weighted mean load and the mean memory rounded down by less than slack.
   */
  ghost predicate States(row: Row, ticks: seq<Tick>, s: Series, lo: int, hi: int, slack: nat) {
    && Moved(row.rx, row.tx, row.dt) == MovedIn(ticks, s, lo, hi)
    && PeakCpu(ticks, s, lo, hi, row.cpuMax) && PeakRam(ticks, s, lo, hi, row.ramMax)
    && row.cpuAvg * row.dt as real == CpuSeconds(ticks, s, lo, hi)
    && (row.dt > 0 ==> row.ramAvg * row.dt <= RamSeconds(ticks, s, lo, hi) < (row.ramAvg + slack) * row.dt)
  }

  /** A rollup of the log over part of a bucket. */
  lemma RolledStates(ticks: seq<Tick>, s: Series, b: nat, span: nat, from: int)
    requires StrictClock(ticks) && b <= from && HasRow(RunLog(ticks), Raw, s, from, b + span)
    ensures States(RolledRow(RunLog(ticks), Raw, s, b, span, from), ticks, s, from, b + span, 1)
  {
    hide RunLog, Sum, LastDisk, HasRow, MovedIn, CpuSeconds, RamSeconds, PeakCpu, PeakRam;
    var l, hi := RunLog(ticks), b + span;
    var a := Sum(l, Raw, s, from, hi);
    LogIsSamples(ticks, s, from, hi);
    SumPeaks(l, Raw, s, from, hi);
    PeaksAreSampled(ticks, s, from, hi, a.cpuMax, a.ramMax);
    if a.dt > 0 {
      MeanTimesWeight(a.ramDt, a.dt);
      Distribute(a.ramDt / a.dt, 1, a.dt);
      RealMean(a.cpuDt, a.dt);
    } else {
      NoTimeNoWeight(l, Raw, s, from, hi);
    }
  }

  /**
    Every hour row of every run, for any retention and either window, states the samples of
    its hour that the last rollup to rewrite it could see, and the latest disk reading among
    those it had not pruned.
   */
  lemma HourStates(ticks: seq<Tick>, keep: Retention, aligned: bool, s: Series, b: nat)
    requires StrictClock(ticks) && Key(Hour, b, s) in RunTable(ticks, keep, aligned)
    ensures var row, r := RunTable(ticks, keep, aligned)[Key(Hour, b, s)], Reached(ticks, keep, aligned, s, b);
            && b <= r.visible <= r.from <= b + HOUR && States(row, ticks, s, r.from, b + HOUR, 1)
            && row.disk == LatestDisk(ticks, s, r.visible, b + HOUR)
  {
    hide RunTable, RunLog, Sum, LastDisk, HasRow, States, Hourly, HourHorizon, Rewrites, Reached, Kept;
    EmptyRun(keep, aligned);
    HourRows(ticks, keep, aligned, Key(Hour, b, s));
    assert Get(RunTable(ticks, keep, aligned), Key(Hour, b, s)).Some?;
    var r := Reached(ticks, keep, aligned, s, b);
    ReachBounds(ticks, keep, aligned, s, b);
    ReachHasRow(ticks, keep, aligned, s, b);
    RolledStates(ticks, s, b, HOUR, r.from);
    DiskIsSampled(ticks, s, r.visible, b + HOUR);
    SameButDisk(RolledRow(RunLog(ticks), Raw, s, b, HOUR, r.from), LatestDisk(ticks, s, r.visible, b + HOUR),
                ticks, s, r.from, b + HOUR);
  }

  lemma SameButDisk(row: Row, disk: Option<nat>, ticks: seq<Tick>, s: Series, lo: int, hi: int)
    ensures States(row, ticks, s, lo, hi, 1) <==> States(row.(disk := disk), ticks, s, lo, hi, 1)
  {
  }

  /** A rollup that rewrites a sampled bucket sees a sample of it. */
  lemma {:induction false} ReachHasRow(ticks: seq<Tick>, keep: Retention, aligned: bool, s: Series, b: nat)
    requires Monotone(ticks) && HasRow(RunLog(ticks), Raw, s, b, b + HOUR) && b % HOUR == 0
    ensures HasRow(RunLog(ticks), Raw, s, Reached(ticks, keep, aligned, s, b).from, b + HOUR)
  {
    hide RunLog, HasRow, Start;
    if ticks == [] {
      NothingLogged(s, b, b + HOUR);
    } else if !Rewrites(ticks, keep, aligned, s, b) {
      var before := ticks[..|ticks| - 1];
      QuietTick(ticks, keep, aligned, s, b);
      SameSums(RunLog(before), RunLog(ticks), Raw, s, b, b + HOUR);
      ReachHasRow(before, keep, aligned, s, b);
      ReachBounds(before, keep, aligned, s, b);
      SameSums(RunLog(before), RunLog(ticks), Raw, s, Reached(before, keep, aligned, s, b).from, b + HOUR);
    }
  }

  /** A day row true to the log states the samples of its day. */
  lemma TrueDayStates(row: Row, ticks: seq<Tick>, s: Series, d: nat)
    requires StrictClock(ticks) && HasRow(RunLog(ticks), Raw, s, d, d + DAY) && TrueDay(row, RunLog(ticks), s, d)
    ensures States(row, ticks, s, d, d + DAY, 2) && row.disk == LatestDisk(ticks, s, d, d + DAY)
  {
    hide RunLog, Sum, LastDisk, HasRow, MovedIn, CpuSeconds, RamSeconds, PeakCpu, PeakRam, LatestDisk, LastSample;
    var l := RunLog(ticks);
    var a := Sum(l, Raw, s, d, d + DAY);
    LogIsSamples(ticks, s, d, d + DAY);
    DiskIsSampled(ticks, s, d, d + DAY);
    SumPeaks(l, Raw, s, d, d + DAY);
    PeaksAreSampled(ticks, s, d, d + DAY, a.cpuMax, a.ramMax);
    assert row.dt == a.dt;
  }

  /** A day row that no rollup cut states every sample of its day and its latest disk reading. */
  lemma DayStates(ticks: seq<Tick>, keep: Retention, aligned: bool, s: Series, d: nat)
    requires StrictClock(ticks) && keep.hourlyDays >= 1 && d % DAY == 0 && NeverCut(ticks, keep, aligned, s, d)
    requires Key(Day, d, s) in RunTable(ticks, keep, aligned)
    ensures var row := RunTable(ticks, keep, aligned)[Key(Day, d, s)];
            States(row, ticks, s, d, d + DAY, 2) && row.disk == LatestDisk(ticks, s, d, d + DAY)
  {
    hide RunTable, RunLog, TrueDay, HasRow, NeverCut, States, LatestDisk;
    EmptyRun(keep, aligned);
    DayRows(ticks, keep, aligned, s, d);
    assert Get(RunTable(ticks, keep, aligned), Key(Day, d, s)).Some?;
    DaysConserved(ticks, keep, aligned, s, d);
    TrueDayStates(RunTable(ticks, keep, aligned)[Key(Day, d, s)], ticks, s, d);
  }

  /**
    So under the settings that never lose a sample, every kept hour and day row states every
    sample of its hour or day.
   */
  lemma KeptRowsState(ticks: seq<Tick>, keep: Retention, s: Series, b: nat, tier: Tier)
    requires StrictClock(ticks) && ticks != [] && keep.rawHours >= 2 && keep.hourlyDays >= 1 && HoursOutliveDays(keep)
    requires (tier == Hour && b % HOUR == 0) || (tier == Day && b % DAY == 0)
    requires Key(tier, b, s) in RunTable(ticks, keep, true)
    ensures var row, end := RunTable(ticks, keep, true)[Key(tier, b, s)], b + (if tier == Hour then HOUR else DAY);
            && States(row, ticks, s, b, end, if tier == Hour then 1 else 2)
            && row.disk == LatestDisk(ticks, s, b, end)
  {
    hide RunTable, RunLog, NeverCut, States, RolledRow, LatestDisk, HasRow, Kept;
    if tier == Hour {
      SealedHoursConserved(ticks, keep, s, b);
      assert Get(RunTable(ticks, keep, true), Key(Hour, b, s)).Some?;
      RolledStates(ticks, s, b, HOUR, b);
      DiskIsSampled(ticks, s, b, b + HOUR);
      RolledDisk(RunLog(ticks), s, b);
    } else {
      SealedDaysConserved(ticks, keep, s, b);
      assert Get(RunTable(ticks, keep, true), Key(Day, b, s)).Some?;
      AlignedNeverCut(ticks, keep, s, b);
      DayStates(ticks, keep, true, s, b);
    }
  }
}
