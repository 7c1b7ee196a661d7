/**
  When hour rows are exact: for each retention and each window, the runs that lose samples
  and the settings that never do.
 */
module HistoryWindow {
  import opened Options
  import opened History
  import opened HistoryFacts
  import opened HistoryRuns

  /** What the hour row of bucket b should be: nothing, or the totals of the whole log. */
  ghost function TrueHour(ticks: seq<Tick>, s: Series, b: nat): Option<Row> {
    var l := RunLog(ticks);
    if Sampled(l, s, b) then Some(RolledRow(l, Raw, s, b, HOUR, b)) else None
  }

  /**
    What the last tick's rollup sees starts inside bucket b, with samples on both sides: the
    rollup rewrites the hour row from the later part only.
   */
  ghost predicate Straddles(ticks: seq<Tick>, keep: Retention, aligned: bool, s: Series, b: nat) {
    && ticks != []
    && HasRow(RunLog(ticks), Raw, s, b, Start(ticks, keep, aligned))
    && Rewrites(ticks, keep, aligned, s, b)
  }

  ghost predicate EverStraddled(ticks: seq<Tick>, keep: Retention, aligned: bool, s: Series, b: nat) {
    exists n :: 0 < n <= |ticks| && Straddles(ticks[..n], keep, aligned, s, b)
  }

  lemma EverStraddledStep(ticks: seq<Tick>, keep: Retention, aligned: bool, s: Series, b: nat)
    requires ticks != []
    ensures EverStraddled(ticks, keep, aligned, s, b)
       <==> EverStraddled(ticks[..|ticks| - 1], keep, aligned, s, b) || Straddles(ticks, keep, aligned, s, b)
  {
    hide Straddles;
    var k := |ticks| - 1;
    assert ticks[..|ticks|] == ticks;
    forall n | 0 <= n <= k ensures ticks[..k][..n] == ticks[..n] {
    }
    if EverStraddled(ticks, keep, aligned, s, b) {
      var n :| 0 < n <= |ticks| && Straddles(ticks[..n], keep, aligned, s, b);
      if n <= k {
        assert Straddles(ticks[..k][..n], keep, aligned, s, b);
      }
    }
    if EverStraddled(ticks[..k], keep, aligned, s, b) {
      var n :| 0 < n <= k && Straddles(ticks[..k][..n], keep, aligned, s, b);
      assert Straddles(ticks[..n], keep, aligned, s, b);
    }
  }

  lemma NeverStraddled(keep: Retention, aligned: bool, s: Series, b: nat)
    ensures !EverStraddled([], keep, aligned, s, b)
  {
  }

  /** Samples are missing from a bucket's row exactly when some tick straddled the bucket. */
  lemma {:induction false} MissingIffStraddled(ticks: seq<Tick>, keep: Retention, aligned: bool, s: Series, b: nat)
    requires Monotone(ticks)
    ensures HasRow(RunLog(ticks), Raw, s, b, Reached(ticks, keep, aligned, s, b).from)
       <==> EverStraddled(ticks, keep, aligned, s, b)
  {
    hide RunLog, HasRow, EverStraddled, Start;
    if ticks == [] {
      EmptyWindow(RunLog([]), Raw, s, b, b);
      NeverStraddled(keep, aligned, s, b);
    } else {
      var before := ticks[..|ticks| - 1];
      var was := Reached(before, keep, aligned, s, b).from;
      EverStraddledStep(ticks, keep, aligned, s, b);
      MissingIffStraddled(before, keep, aligned, s, b);
      ReachBounds(before, keep, aligned, s, b);
      if Rewrites(ticks, keep, aligned, s, b) {
        var lo := MaxInt(b, Start(ticks, keep, aligned));
        StartBounds(ticks, keep, aligned);
        HasRowSplit(RunLog(before), Raw, s, b, was, lo);
        LogGrows(ticks, s, b, lo);
        EmptyWindow(RunLog(ticks), Raw, s, b, b);
        if Start(ticks, keep, aligned) < b {
          EmptyWindow(RunLog(ticks), Raw, s, b, Start(ticks, keep, aligned));
        }
      } else {
        QuietTick(ticks, keep, aligned, s, b);
        assert SameRows(RunLog(before), RunLog(ticks), Raw, s, b, was);
        SameSums(RunLog(before), RunLog(ticks), Raw, s, b, was);
      }
    }
  }

  /** A row that misses nothing is the true one. */
  lemma NothingMissing(l: Table, s: Series, b: nat, r: Reach)
    requires b <= r.visible <= r.from <= b + HOUR && !HasRow(l, Raw, s, b, r.from)
    ensures PartialRow(l, s, b, r) == RolledRow(l, Raw, s, b, HOUR, b)
  {
    hide Sum, LastDisk;
    HasRowSplit(l, Raw, s, b, r.visible, r.from);
    SumSplit(l, Raw, s, b, r.from, b + HOUR);
    SumSplit(l, Raw, s, b, r.visible, b + HOUR);
    SumRows(l, Raw, s, b, r.from);
    NoDisk(l, Raw, s, b, r.visible);
    SumRows(l, Raw, s, r.from, b + HOUR);
    PlusNothing(Sum(l, Raw, s, r.from, b + HOUR));
  }

  /**
    The guarantee for every retention and either window: a bucket no tick straddled has, as
    long as it is kept, exactly the row of all its samples, and none if it has no sample.
   */
  lemma HoursConserved(ticks: seq<Tick>, keep: Retention, aligned: bool, s: Series, b: nat)
    requires Monotone(ticks) && ticks != [] && b % HOUR == 0
    ensures !EverStraddled(ticks, keep, aligned, s, b) ==>
              Get(RunTable(ticks, keep, aligned), Key(Hour, b, s))
              == if Kept(Key(Hour, b, s), ticks[|ticks| - 1].ts, keep) then TrueHour(ticks, s, b) else None
  {
    hide RunLog, PartialRow, RolledRow, HasRow, EverStraddled, RunTable;
    HourRows(ticks, keep, aligned, Key(Hour, b, s));
    MissingIffStraddled(ticks, keep, aligned, s, b);
    ReachBounds(ticks, keep, aligned, s, b);
    if !EverStraddled(ticks, keep, aligned, s, b) {
      NothingMissing(RunLog(ticks), s, b, Reached(ticks, keep, aligned, s, b));
    }
  }

  // -- exactly when ----------------------------------------------------------------

  predicate PositiveIntervals(ticks: seq<Tick>) {
    forall i :: 0 <= i < |ticks| ==> ticks[i].dt > 0
  }

  lemma {:induction false} LogIntervals(ticks: seq<Tick>, k: Key)
    requires PositiveIntervals(ticks)
    ensures k in RunLog(ticks) ==> RunLog(ticks)[k].dt > 0
  {
    hide Written;
    if ticks != [] {
      var n := |ticks| - 1;
      LogIntervals(ticks[..n], k);
      WrittenAt(RunLog(ticks[..n]), ticks[n].ts, ticks[n].dt, ticks[n].rows, k);
      assert Get(RunLog(ticks), k).Some? <==> k in RunLog(ticks);
    }
  }

  lemma {:induction false} RowsTakeTime(ticks: seq<Tick>, s: Series, lo: int, hi: int)
    requires PositiveIntervals(ticks)
    ensures Sum(RunLog(ticks), Raw, s, lo, hi).rows > 0 ==> Sum(RunLog(ticks), Raw, s, lo, hi).dt > 0
    decreases hi - lo
  {
    hide RunLog;
    if lo < hi {
      RowsTakeTime(ticks, s, lo, hi - 1);
      if hi >= 1 {
        LogIntervals(ticks, Key(Raw, hi - 1, s));
      }
    }
  }

  /** A row that misses a sample misses its seconds. */
  lemma MissingTime(ticks: seq<Tick>, s: Series, b: nat, r: Reach)
    requires PositiveIntervals(ticks) && b <= r.from <= b + HOUR
    ensures var all := Sum(RunLog(ticks), Raw, s, b, b + HOUR).dt;
            && PartialRow(RunLog(ticks), s, b, r).dt <= all
            && (HasRow(RunLog(ticks), Raw, s, b, r.from) ==> PartialRow(RunLog(ticks), s, b, r).dt < all)
  {
    hide RunLog, Sum, HasRow, LastDisk;
    var l := RunLog(ticks);
    SumSplit(l, Raw, s, b, r.from, b + HOUR);
    SumRows(l, Raw, s, b, r.from);
    SumRows(l, Raw, s, r.from, b + HOUR);
    RowsTakeTime(ticks, s, b, r.from);
  }

  /**
    Exactly when an hour row is exact, for every retention and either window: no tick's
    rollup ever started to see the bucket between two of its samples.
   */
  lemma HourExactIff(ticks: seq<Tick>, keep: Retention, aligned: bool, s: Series, b: nat)
    requires Monotone(ticks) && PositiveIntervals(ticks) && b % HOUR == 0
    ensures Key(Hour, b, s) in RunTable(ticks, keep, aligned) ==>
              (Some(RunTable(ticks, keep, aligned)[Key(Hour, b, s)]) == TrueHour(ticks, s, b)
               <==> !EverStraddled(ticks, keep, aligned, s, b))
  {
    hide RunLog, PartialRow, HasRow, EverStraddled, RunTable, Sum, LastDisk;
    EmptyRun(keep, aligned);
    if ticks != [] {
      var r := Reached(ticks, keep, aligned, s, b);
      HoursConserved(ticks, keep, aligned, s, b);
      HourRows(ticks, keep, aligned, Key(Hour, b, s));
      MissingIffStraddled(ticks, keep, aligned, s, b);
      ReachBounds(ticks, keep, aligned, s, b);
      MissingTime(ticks, s, b, r);
    }
  }

  /**
    As coded or as documented, after every tick an hour bucket that starts no earlier than
    what the tick's rollup sees is exact: with two hours of raw retention, as coded, every
    bucket that starts in the last two hours.
   */
  lemma RecentHoursConserved(ticks: seq<Tick>, keep: Retention, aligned: bool, s: Series, b: nat)
    requires Monotone(ticks) && ticks != [] && b % HOUR == 0
    ensures b >= Start(ticks, keep, aligned) ==>
              Get(RunTable(ticks, keep, aligned), Key(Hour, b, s))
              == if Kept(Key(Hour, b, s), ticks[|ticks| - 1].ts, keep) then TrueHour(ticks, s, b) else None
    ensures keep.rawHours >= 2 && b >= ticks[|ticks| - 1].ts - 2 * HOUR ==> b >= Start(ticks, keep, aligned)
  {
    hide RunLog, PartialRow, RolledRow, HasRow, RunTable;
    var l := RunLog(ticks);
    HourRows(ticks, keep, aligned, Key(Hour, b, s));
    if b >= Start(ticks, keep, aligned) && Rewrites(ticks, keep, aligned, s, b) {
      EmptyWindow(l, Raw, s, b, b);
      NothingMissing(l, s, b, LastReach(ticks, keep, aligned, b));
    }
    if |ticks| > 1 {
      assert ticks[|ticks| - 2].ts <= ticks[|ticks| - 1].ts;
    }
    if b >= ticks[|ticks| - 1].ts - 2 * HOUR {
      SinceBelowRecent(ticks[|ticks| - 1].ts, HOUR, aligned, b);
    }
  }

  lemma SinceBelowRecent(now: nat, span: nat, aligned: bool, b: nat)
    requires span > 0 && b % span == 0 && b >= now - 2 * span
    ensures Since(now, span, aligned) <= b
  {
    hide AlignUp;
    AlignUpFacts(now - 2 * span, span);
    MultiplesApart(b, AlignUp(now - 2 * span, span), span);
  }

  /** The documented window over two hours of raw rows never straddles a bucket. */
  lemma AlignedNeverStraddles(ticks: seq<Tick>, keep: Retention, s: Series, b: nat)
    requires Monotone(ticks) && keep.rawHours >= 2 && b % HOUR == 0
    ensures !EverStraddled(ticks, keep, true, s, b)
  {
    hide RunLog, Rewrites, HasRow, AlignUp;
    forall n | 0 < n <= |ticks| ensures !Straddles(ticks[..n], keep, true, s, b) {
      var run := ticks[..n];
      var now := ticks[n - 1].ts;
      AlignUpFacts(now - 2 * HOUR, HOUR);
      if n > 1 {
        assert ticks[n - 2].ts <= now;
      }
      var start := Start(run, keep, true);
      assert start == AlignUp(now - 2 * HOUR, HOUR) || start == 0;
      MultiplesApart(b, start, HOUR);
      if start <= b {
        EmptyWindow(RunLog(run), Raw, s, b, start);
      } else {
        NotRewritten(run, keep, s, b);
      }
    }
  }

  lemma NotRewritten(ticks: seq<Tick>, keep: Retention, s: Series, b: nat)
    requires ticks != [] && b + HOUR <= Start(ticks, keep, true)
    ensures !Rewrites(ticks, keep, true, s, b)
  {
  }

  /**
    With the documented, bucket-aligned window and two hours of raw rows, every hour row the
    store still keeps is exact, however long ago its hour was sealed, and no hour is missing.
   */
  lemma SealedHoursConserved(ticks: seq<Tick>, keep: Retention, s: Series, b: nat)
    requires Monotone(ticks) && ticks != [] && keep.rawHours >= 2 && b % HOUR == 0
    ensures Get(RunTable(ticks, keep, true), Key(Hour, b, s))
         == if Kept(Key(Hour, b, s), ticks[|ticks| - 1].ts, keep) then TrueHour(ticks, s, b) else None
  {
    AlignedNeverStraddles(ticks, keep, s, b);
    HoursConserved(ticks, keep, true, s, b);
  }

  // -- the ticks of the sampler ---------------------------------------------------

  const HOST := Series("__host__", "__host__")

  /** dt is the whole seconds between two clock readings that show these seconds, or 1. */
  predicate Elapsed(before: nat, after: nat, dt: nat) {
    dt == MaxInt(1, after - before) || dt == MaxInt(1, after - before - 1)
  }

  /** The first tick of a process: the interval, and nothing moved since the last reading. */
  predicate FirstTick(tick: Tick, interval: nat) {
    var host := LastSample(tick.rows, HOST);
    tick.dt == interval && host.Some? && host.value.rx == 0 && host.value.tx == 0
  }

  /** A tick as the sampler makes it: a host row, and dt the interval or the time since the last. */
  predicate TickMade(ticks: seq<Tick>, i: nat, interval: nat)
    requires i < |ticks|
  {
    && LastSample(ticks[i].rows, HOST).Some?
    && (FirstTick(ticks[i], interval) || (i > 0 && Elapsed(ticks[i - 1].ts, ticks[i].ts, ticks[i].dt)))
  }

  predicate MadeBySampler(ticks: seq<Tick>, interval: nat) {
    5 <= interval <= 3600 && Monotone(ticks) && forall i :: 0 <= i < |ticks| ==> TickMade(ticks, i, interval)
  }

  ghost predicate SamplerRun(ticks: seq<Tick>) {
    exists interval :: MadeBySampler(ticks, interval)
  }

  lemma SamplerRunFacts(ticks: seq<Tick>)
    requires SamplerRun(ticks)
    ensures Monotone(ticks) && PositiveIntervals(ticks)
  {
    hide LastSample;
    var interval :| MadeBySampler(ticks, interval);
    forall i | 0 <= i < |ticks| ensures ticks[i].dt > 0 {
      assert TickMade(ticks, i, interval);
    }
  }

  // -- runs that lose samples ---------------------------------------------------

  function HostTick(ts: nat, dt: nat, rx: nat): Tick {
    Tick(ts, dt, [SampleRow(HOST, 0.0, 0, None, rx, 0)])
  }

  /** A process started at 2500, two samples of five and seven bytes in the first hour. */
  const FIRST_TICKS: seq<Tick> := [HostTick(2500, 500, 0), HostTick(3000, 500, 5), HostTick(3500, 500, 7)]

  /** Then no tick for two hours, and one whose coded window starts between the two. */
  const SHORT_RUN: seq<Tick> := FIRST_TICKS + [HostTick(10400, 6900, 3)]

  /** Or two ticks, the first of which prunes the first sample under one hour of raw rows. */
  const PRUNED_RUN: seq<Tick> := FIRST_TICKS + [HostTick(6700, 3200, 3), HostTick(7200, 500, 3)]

  lemma HostRow(ts: nat, dt: nat, rx: nat)
    ensures LastSample(HostTick(ts, dt, rx).rows, HOST) == Some(HostTick(ts, dt, rx).rows[0])
  {
  }

  lemma ShortRunMade()
    ensures MadeBySampler(SHORT_RUN, 500) && OpensWithFirst(SHORT_RUN)
  {
    hide LastSample;
    HostRow(2500, 500, 0);
    HostRow(3000, 500, 5);
    HostRow(3500, 500, 7);
    HostRow(10400, 6900, 3);
    assert SHORT_RUN[..3] == FIRST_TICKS;
  }

  lemma PrunedRunMade()
    ensures MadeBySampler(PRUNED_RUN, 500) && OpensWithFirst(PRUNED_RUN)
  {
    hide LastSample;
    HostRow(2500, 500, 0);
    HostRow(3000, 500, 5);
    HostRow(3500, 500, 7);
    HostRow(6700, 3200, 3);
    HostRow(7200, 500, 3);
    assert PRUNED_RUN[..3] == FIRST_TICKS;
  }

  lemma ShortRuns()
    ensures SamplerRun(SHORT_RUN) && Monotone(SHORT_RUN) && OpensWithFirst(SHORT_RUN)
    ensures SamplerRun(PRUNED_RUN) && Monotone(PRUNED_RUN) && OpensWithFirst(PRUNED_RUN)
  {
    hide OpensWithFirst;
    ShortRunMade();
    PrunedRunMade();
  }

  /** The run starts with the first ticks and goes on after the first hour. */
  predicate OpensWithFirst(ticks: seq<Tick>) {
    |ticks| >= 3 && ticks[..3] == FIRST_TICKS && forall i :: 3 <= i < |ticks| ==> ticks[i].ts >= HOUR
  }

  lemma FirstLog()
    ensures RunLog(FIRST_TICKS)
         == map[Key(Raw, 2500, HOST) := RawRow(FIRST_TICKS[0].rows[0], 500),
                Key(Raw, 3000, HOST) := RawRow(FIRST_TICKS[1].rows[0], 500),
                Key(Raw, 3500, HOST) := RawRow(FIRST_TICKS[2].rows[0], 500)]
  {
    var one, two := FIRST_TICKS[..1], FIRST_TICKS[..2];
    assert one[..0] == [] && two[..1] == one && FIRST_TICKS[..2] == two;
    assert RunLog(one) == Written(map[], 2500, 500, FIRST_TICKS[0].rows);
    assert RunLog(two) == Written(RunLog(one), 3000, 500, FIRST_TICKS[1].rows);
    assert RunLog(FIRST_TICKS) == Written(RunLog(two), 3500, 500, FIRST_TICKS[2].rows);
    OneRowWritten(map[], 2500, 500, FIRST_TICKS[0].rows[0]);
    OneRowWritten(RunLog(one), 3000, 500, FIRST_TICKS[1].rows[0]);
    OneRowWritten(RunLog(two), 3500, 500, FIRST_TICKS[2].rows[0]);
  }

  lemma OneRowWritten(t: Table, ts: nat, dt: nat, row: SampleRow)
    ensures Written(t, ts, dt, [row]) == t[Key(Raw, ts, row.series) := RawRow(row, dt)]
  {
    assert [row][..0] == [];
  }

  /** The rest of such a run leaves the first hour of the log alone. */
  lemma {:induction false} FirstHourLogged(ticks: seq<Tick>)
    requires OpensWithFirst(ticks)
    ensures SameRows(RunLog(FIRST_TICKS), RunLog(ticks), Raw, HOST, 0, HOUR)
  {
    hide RunLog;
    if |ticks| == 3 {
      assert ticks == FIRST_TICKS;
    } else {
      var before := ticks[..|ticks| - 1];
      assert before[..3] == ticks[..3];
      FirstHourLogged(before);
      LogUnchanged(ticks, HOST, 0, HOUR);
      forall ts: nat | 0 <= ts < HOUR
        ensures Get(RunLog(FIRST_TICKS), Key(Raw, ts, HOST)) == Get(RunLog(ticks), Key(Raw, ts, HOST))
      {
        assert Get(RunLog(before), Key(Raw, ts, HOST)) == Get(RunLog(ticks), Key(Raw, ts, HOST));
      }
    }
  }

  /** What the first hour of the log holds from a second on. */
  lemma FirstHourSum(ticks: seq<Tick>, lo: nat)
    requires OpensWithFirst(ticks) && lo <= 3500
    ensures HasRow(RunLog(ticks), Raw, HOST, lo, HOUR)
    ensures Sum(RunLog(ticks), Raw, HOST, lo, HOUR).rx == if lo <= 3000 then 12 else 7
    ensures lo > 2500 ==> HasRow(RunLog(ticks), Raw, HOST, 0, lo)
  {
    hide RunLog, Sum;
    FirstHourLogged(ticks);
    FirstTicksSum(lo);
    SameSums(RunLog(FIRST_TICKS), RunLog(ticks), Raw, HOST, lo, HOUR);
    SameSums(RunLog(FIRST_TICKS), RunLog(ticks), Raw, HOST, 0, lo);
  }

  lemma FirstTicksSum(lo: nat)
    requires lo <= 3500
    ensures HasRow(RunLog(FIRST_TICKS), Raw, HOST, lo, HOUR)
    ensures Sum(RunLog(FIRST_TICKS), Raw, HOST, lo, HOUR).rx == if lo <= 3000 then 12 else 7
    ensures lo > 2500 ==> HasRow(RunLog(FIRST_TICKS), Raw, HOST, 0, lo)
  {
    hide RunLog, Sum;
    var l := RunLog(FIRST_TICKS);
    FirstLog();
    assert Key(Raw, 3500, HOST) in l && Key(Raw, 2500, HOST) in l;
    SumAdds(l, Raw, HOST, lo, 3500, HOUR);
    OnlyFirst(l, Raw, HOST, 3500, HOUR);
    if lo <= 3000 {
      SumAdds(l, Raw, HOST, lo, 3000, 3500);
      OnlyFirst(l, Raw, HOST, 3000, 3500);
      FirstTickCountsNothing(lo);
    } else {
      SumRows(l, Raw, HOST, lo, 3500);
    }
  }

  lemma FirstTickCountsNothing(lo: nat)
    requires lo <= 3000
    ensures Sum(RunLog(FIRST_TICKS), Raw, HOST, lo, 3000).rx == 0
  {
    hide RunLog, Sum;
    var l := RunLog(FIRST_TICKS);
    FirstLog();
    if lo <= 2500 {
      SumAdds(l, Raw, HOST, lo, 2500, 3000);
      SumRows(l, Raw, HOST, lo, 2500);
      OnlyFirst(l, Raw, HOST, 2500, 3000);
    } else {
      SumRows(l, Raw, HOST, lo, 3000);
    }
  }

  /** Under any accepted retention the coded window cuts the first hour of the short run. */
  lemma ShortRunStraddled(keep: Retention)
    requires keep.rawHours >= 1
    ensures Start(SHORT_RUN, keep, false) == 3200
    ensures Straddles(SHORT_RUN, keep, false, HOST, 0) && EverStraddled(SHORT_RUN, keep, false, HOST, 0)
  {
    hide RunLog;
    ShortRuns();
    FirstHourSum(SHORT_RUN, 3200);
    assert SHORT_RUN[..4] == SHORT_RUN;
  }

  /** Under one hour of raw rows either window sees only the second sample at the end. */
  lemma PrunedRunStraddled(keep: Retention, aligned: bool)
    requires keep.rawHours == 1
    ensures Start(PRUNED_RUN, keep, aligned) == 3100
    ensures Straddles(PRUNED_RUN, keep, aligned, HOST, 0) && EverStraddled(PRUNED_RUN, keep, aligned, HOST, 0)
  {
    hide RunLog;
    ShortRuns();
    FirstHourSum(PRUNED_RUN, 3100);
    assert PRUNED_RUN[..5] == PRUNED_RUN;
  }

  /** The first hour row of such a run, as far as the last rollup saw it. */
  lemma FirstHourBytes(ticks: seq<Tick>, keep: Retention, aligned: bool)
    requires Monotone(ticks) && OpensWithFirst(ticks) && keep.hourlyDays >= 1
    requires ticks[|ticks| - 1].ts <= DAY && 0 <= Start(ticks, keep, aligned) <= 3500
    ensures Rewrites(ticks, keep, aligned, HOST, 0) && Key(Hour, 0, HOST) in RunTable(ticks, keep, aligned)
    ensures RunTable(ticks, keep, aligned)[Key(Hour, 0, HOST)].rx
         == if Start(ticks, keep, aligned) <= 3000 then 12 else 7
  {
    hide RunLog, Sum, LastDisk, RunTable, Start;
    FirstHourSum(ticks, 0);
    FirstHourSum(ticks, Start(ticks, keep, aligned));
    HourRows(ticks, keep, aligned, Key(Hour, 0, HOST));
  }

  /**
    As coded, under any accepted retention, the store forgets five of the twelve bytes of a
    sealed hour; with the aligned window over two hours of raw rows it keeps them.
   */
  lemma ShortRunLosesBytes(keep: Retention)
    requires keep.rawHours >= 1 && keep.hourlyDays >= 1
    ensures SamplerRun(SHORT_RUN)
    ensures var k := Key(Hour, 0, HOST);
            && k in RunTable(SHORT_RUN, keep, false) && RunTable(SHORT_RUN, keep, false)[k].rx == 7
            && (keep.rawHours >= 2 ==>
                  k in RunTable(SHORT_RUN, keep, true) && RunTable(SHORT_RUN, keep, true)[k].rx == 12)
  {
    hide RunLog, Sum, LastDisk, RunTable, SamplerRun;
    ShortRuns();
    ShortRunStraddled(keep);
    FirstHourBytes(SHORT_RUN, keep, false);
    if keep.rawHours >= 2 {
      FirstHourSum(SHORT_RUN, 0);
      SealedHoursConserved(SHORT_RUN, keep, HOST, 0);
    }
  }

  /** With one hour of raw rows, an accepted setting, even the aligned window loses them. */
  lemma OneHourOfRawRowsLosesBytes(keep: Retention, aligned: bool)
    requires keep.rawHours == 1 && keep.hourlyDays >= 1
    ensures SamplerRun(PRUNED_RUN)
    ensures var k := Key(Hour, 0, HOST);
            k in RunTable(PRUNED_RUN, keep, aligned) && RunTable(PRUNED_RUN, keep, aligned)[k].rx == 7
  {
    hide RunLog, Sum, LastDisk, RunTable, SamplerRun;
    ShortRuns();
    PrunedRunStraddled(keep, aligned);
    FirstHourBytes(PRUNED_RUN, keep, aligned);
  }

  /** Every hour row of every run of the sampler is exact. */
  ghost predicate HoursExact(keep: Retention, aligned: bool) {
    forall ticks, s, b: nat ::
      (SamplerRun(ticks) && b % HOUR == 0 && Key(Hour, b, s) in RunTable(ticks, keep, aligned)) ==>
        Some(RunTable(ticks, keep, aligned)[Key(Hour, b, s)]) == TrueHour(ticks, s, b)
  }

  /**
    Of the accepted settings, exactly the documented window over two hours of raw rows never
    loses a sample of a run of the sampler.
   */
  lemma HoursExactIff(keep: Retention, aligned: bool)
    requires keep.rawHours >= 1 && keep.hourlyDays >= 1
    ensures HoursExact(keep, aligned) <==> aligned && keep.rawHours >= 2
  {
    hide RunLog, RunTable, TrueHour, EverStraddled, Straddles, SamplerRun;
    if aligned && keep.rawHours >= 2 {
      forall ticks, s, b: nat | SamplerRun(ticks) && b % HOUR == 0 && Key(Hour, b, s) in RunTable(ticks, keep, aligned)
        ensures Some(RunTable(ticks, keep, aligned)[Key(Hour, b, s)]) == TrueHour(ticks, s, b)
      {
        SamplerRunFacts(ticks);
        AlignedNeverStraddles(ticks, keep, s, b);
        HourExactIff(ticks, keep, aligned, s, b);
      }
    } else if !aligned {
      ShortRunLosesBytes(keep);
      ShortRunStraddled(keep);
      SamplerRunFacts(SHORT_RUN);
      HourExactIff(SHORT_RUN, keep, aligned, HOST, 0);
    } else {
      OneHourOfRawRowsLosesBytes(keep, aligned);
      PrunedRunStraddled(keep, aligned);
      SamplerRunFacts(PRUNED_RUN);
      HourExactIff(PRUNED_RUN, keep, aligned, HOST, 0);
    }
  }
}
