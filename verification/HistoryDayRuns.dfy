/**
  Day rows over whole runs: what each holds, for any retention and either window, and when it
  is true to the samples of its day.
 */
module HistoryDayRuns {
  import opened Options
  import opened Positional
  import opened History
  import opened HistoryFacts
  import opened HistoryRuns
  import opened HistoryWindow
  import opened HistoryDays

  /** The first second whose hour rows the last tick's day rollup sees. */
  function DayStart(ticks: seq<Tick>, keep: Retention, aligned: bool): int
    requires ticks != []
  {
    MaxInt(Since(ticks[|ticks| - 1].ts, DAY, aligned), HourHorizon(ticks, keep))
  }

  lemma DayStartBounds(ticks: seq<Tick>, keep: Retention, aligned: bool)
    requires Monotone(ticks) && ticks != [] && keep.hourlyDays >= 1
    ensures DayStart(ticks, keep, aligned) <= MaxInt(0, ticks[|ticks| - 1].ts - DAY)
    ensures |ticks| > 1 ==> DayStart(ticks[..|ticks| - 1], keep, aligned) <= DayStart(ticks, keep, aligned)
  {
    hide AlignUp;
    var n := |ticks| - 1;
    AlignUpFacts(ticks[n].ts - 2 * DAY, DAY);
    if n > 0 {
      assert ticks[n - 1].ts <= ticks[n].ts;
      AlignUpMonotone(ticks[n - 1].ts - 2 * DAY, ticks[n].ts - 2 * DAY, DAY);
      if n > 1 {
        assert ticks[n - 2].ts <= ticks[n - 1].ts;
      }
    }
  }

  /** Some hour that starts in lo <= h < hi has a sample. */
  ghost predicate SampledHour(l: Table, s: Series, lo: int, hi: int) {
    exists h: nat :: lo <= h < hi && Sampled(l, s, h)
  }

  /** The last tick's rollup rewrites the row of day d. */
  ghost predicate DayRewrites(ticks: seq<Tick>, keep: Retention, aligned: bool, s: Series, d: nat)
    requires ticks != []
  {
    SampledHour(RunLog(ticks), s, MaxInt(d, DayStart(ticks, keep, aligned)), d + DAY)
  }

  /** A rewritten hour is recent, so within the window and the retention of the day rollup. */
  lemma RewrittenIsRecent(ticks: seq<Tick>, keep: Retention, aligned: bool, s: Series, b: nat)
    requires Monotone(ticks) && ticks != [] && keep.hourlyDays >= 1 && Rewrites(ticks, keep, aligned, s, b)
    ensures b >= DayStart(ticks, keep, aligned) && b >= HourHorizon(ticks, keep)
    ensures HasRow(RunLog(ticks), Raw, s, b, b + HOUR)
  {
    hide RunLog, Start, DayStart;
    StartBounds(ticks, keep, aligned);
    DayStartBounds(ticks, keep, aligned);
    HorizonBelowStart(ticks, keep, aligned);
  }

  lemma HorizonBelowStart(ticks: seq<Tick>, keep: Retention, aligned: bool)
    requires ticks != []
    ensures HourHorizon(ticks, keep) <= DayStart(ticks, keep, aligned)
  {
  }

  /** The hour rows the day rollup reads: the sampled hours inside hourly retention. */
  lemma HourTable(ticks: seq<Tick>, keep: Retention, aligned: bool, s: Series, b: nat)
    requires Monotone(ticks) && ticks != [] && keep.hourlyDays >= 1
    ensures Get(Hourly(ticks, keep, aligned), Key(Hour, b, s))
         == if Sampled(RunLog(ticks), s, b) && b >= HourHorizon(ticks, keep)
            then Some(PartialRow(RunLog(ticks), s, b, Reached(ticks, keep, aligned, s, b))) else None
  {
    hide RunLog, PartialRow, Rewrites, Hourly, HasRow, HourHorizon;
    HourRows(ticks, keep, aligned, Key(Hour, b, s));
    if Rewrites(ticks, keep, aligned, s, b) {
      RewrittenIsRecent(ticks, keep, aligned, s, b);
    }
  }

  lemma DayWindow(ticks: seq<Tick>, keep: Retention, aligned: bool, s: Series, d: nat)
    requires Monotone(ticks) && ticks != [] && keep.hourlyDays >= 1
    ensures var since := Since(ticks[|ticks| - 1].ts, DAY, aligned);
            (HasRow(Hourly(ticks, keep, aligned), Hour, s, MaxInt(d, since), d + DAY)
             <==> DayRewrites(ticks, keep, aligned, s, d))
  {
    hide RunLog, PartialRow, Hourly, Sampled, HourHorizon, Since;
    var t, since := Hourly(ticks, keep, aligned), Since(ticks[|ticks| - 1].ts, DAY, aligned);
    if h: nat :| MaxInt(d, since) <= h < d + DAY && Key(Hour, h, s) in t {
      HourTable(ticks, keep, aligned, s, h);
      assert Get(t, Key(Hour, h, s)).Some?;
    }
    if DayRewrites(ticks, keep, aligned, s, d) {
      var h: nat :| MaxInt(d, DayStart(ticks, keep, aligned)) <= h < d + DAY && Sampled(RunLog(ticks), s, h);
      HourTable(ticks, keep, aligned, s, h);
      assert Get(t, Key(Hour, h, s)).Some?;
    }
  }

  /** How one tick changes a day row, read on the log. */
  lemma DayRollup(ticks: seq<Tick>, keep: Retention, aligned: bool, k: Key)
    requires Monotone(ticks) && ticks != [] && keep.hourlyDays >= 1 && k.tier == Day
    ensures Get(RunTable(ticks, keep, aligned), k)
         == if !Kept(k, ticks[|ticks| - 1].ts, keep) then None
            else if k.ts % DAY == 0 && DayRewrites(ticks, keep, aligned, k.series, k.ts)
            then Some(RolledRow(Hourly(ticks, keep, aligned), Hour, k.series, k.ts, DAY,
                                Since(ticks[|ticks| - 1].ts, DAY, aligned)))
            else Get(RunTable(ticks[..|ticks| - 1], keep, aligned), k)
  {
    hide RunTable, Hourly, RolledRow, HasRow, Since, DayRewrites;
    DayStep(ticks, keep, aligned, k);
    DayWindow(ticks, keep, aligned, k.series, k.ts);
  }

  /** A tick that writes a sample into a day rewrites the day. */
  lemma SampleRewritesDay(ticks: seq<Tick>, keep: Retention, aligned: bool, s: Series, d: nat)
    requires Monotone(ticks) && ticks != [] && keep.hourlyDays >= 1 && d % DAY == 0
    requires d <= ticks[|ticks| - 1].ts < d + DAY && LastSample(ticks[|ticks| - 1].rows, s).Some?
    ensures DayRewrites(ticks, keep, aligned, s, d)
  {
    hide RunLog, DayStart;
    var h := Floor(ticks[|ticks| - 1].ts, HOUR);
    SampleLogged(ticks, s);
    DayStartBounds(ticks, keep, aligned);
    WholeHours(d, ticks[|ticks| - 1].ts);
    assert Sampled(RunLog(ticks), s, h);
  }

  /** A tick that does not rewrite a day wrote nothing into it. */
  lemma QuietDay(ticks: seq<Tick>, keep: Retention, aligned: bool, s: Series, d: nat)
    requires Monotone(ticks) && ticks != [] && keep.hourlyDays >= 1 && d % DAY == 0
    requires !DayRewrites(ticks, keep, aligned, s, d)
    ensures SameRows(RunLog(ticks[..|ticks| - 1]), RunLog(ticks), Raw, s, d, d + DAY)
  {
    hide RunLog, DayRewrites;
    var now := ticks[|ticks| - 1].ts;
    if d <= now < d + DAY && LastSample(ticks[|ticks| - 1].rows, s).Some? {
      SampleRewritesDay(ticks, keep, aligned, s, d);
      assert false;
    } else {
      LogUnchanged(ticks, s, d, d + DAY);
    }
  }

  /** A day starts on the hour. */
  lemma DayOnTheHour(d: nat)
    requires d % DAY == 0
    ensures d % HOUR == 0
  {
    var q := d / DAY;
    assert d == 24 * q * HOUR;
    DivModUnique(24 * q, HOUR, 0);
  }

  /** The hour of a second of a day lies in the day. */
  lemma WholeHours(d: nat, ts: nat)
    requires d % DAY == 0 && d <= ts
    ensures d <= Floor(ts, HOUR)
  {
    DayOnTheHour(d);
    MultiplesApart(Floor(ts, HOUR), d, HOUR);
  }

  // -- what a day row holds ------------------------------------------------------------

  /** The number of ticks up to and including the last one that rewrote day d; 0 if none did. */
  ghost function DayRoll(ticks: seq<Tick>, keep: Retention, aligned: bool, s: Series, d: nat): (m: nat)
    ensures m <= |ticks|
  {
    if ticks == [] then 0
    else if DayRewrites(ticks, keep, aligned, s, d) then |ticks|
    else DayRoll(ticks[..|ticks| - 1], keep, aligned, s, d)
  }

  /**
    Every day row of every run, for any accepted retention and either window: there is one
    exactly for the sampled days inside daily retention, and it is rolled up from the hour
    rows of the last tick whose window still held one of them.
   */
  lemma {:induction false} DayRows(ticks: seq<Tick>, keep: Retention, aligned: bool, s: Series, d: nat)
    requires Monotone(ticks) && ticks != [] && keep.hourlyDays >= 1 && d % DAY == 0
    ensures var m := DayRoll(ticks, keep, aligned, s, d);
            && (m > 0 <==> HasRow(RunLog(ticks), Raw, s, d, d + DAY))
            && Get(RunTable(ticks, keep, aligned), Key(Day, d, s))
               == (if m > 0 && Kept(Key(Day, d, s), ticks[|ticks| - 1].ts, keep)
                   then Some(RolledRow(Hourly(ticks[..m], keep, aligned), Hour, s, d, DAY,
                                       Since(ticks[m - 1].ts, DAY, aligned)))
                   else None)
  {
    hide RunTable, RunLog, Hourly, RolledRow, HasRow, Since, DayRewrites;
    var n := |ticks| - 1;
    var before := ticks[..n];
    assert ticks[..|ticks|] == ticks;
    DayRollup(ticks, keep, aligned, Key(Day, d, s));
    EmptyRun(keep, aligned);
    if DayRewrites(ticks, keep, aligned, s, d) {
      RewrittenIsSampled(ticks, keep, aligned, s, d);
    } else {
      QuietDay(ticks, keep, aligned, s, d);
      SameSums(RunLog(before), RunLog(ticks), Raw, s, d, d + DAY);
      if n == 0 {
        NothingLogged(s, d, d + DAY);
      } else {
        var m := DayRoll(before, keep, aligned, s, d);
        DayRows(before, keep, aligned, s, d);
        assert before[..m] == ticks[..m];
        assert ticks[n - 1].ts <= ticks[n].ts;
      }
    }
  }

  lemma RewrittenIsSampled(ticks: seq<Tick>, keep: Retention, aligned: bool, s: Series, d: nat)
    requires ticks != [] && DayRewrites(ticks, keep, aligned, s, d) && d % DAY == 0
    ensures HasRow(RunLog(ticks), Raw, s, d, d + DAY)
  {
    hide RunLog, DayStart, HasRow;
    var h: nat :| MaxInt(d, DayStart(ticks, keep, aligned)) <= h < d + DAY && Sampled(RunLog(ticks), s, h);
    DayOnTheHour(d + DAY);
    MultiplesApart(h, d + DAY, HOUR);
    Within(RunLog(ticks), Raw, s, d, d + DAY, h, h + HOUR);
  }

  // -- when it is true to its day ----------------------------------------------------------

  /** The last tick's day rollup leaves out a sampled hour of a day it rewrites. */
  ghost predicate DayStraddles(ticks: seq<Tick>, keep: Retention, aligned: bool, s: Series, d: nat) {
    && ticks != []
    && SampledHour(RunLog(ticks), s, d, DayStart(ticks, keep, aligned))
    && DayRewrites(ticks, keep, aligned, s, d)
  }

  ghost predicate EverDayStraddled(ticks: seq<Tick>, keep: Retention, aligned: bool, s: Series, d: nat) {
    exists n :: 0 < n <= |ticks| && DayStraddles(ticks[..n], keep, aligned, s, d)
  }

  /** No tick ever cut one of the day's hours, or the day, between two of its samples. */
  ghost predicate NeverCut(ticks: seq<Tick>, keep: Retention, aligned: bool, s: Series, d: nat) {
    && !EverDayStraddled(ticks, keep, aligned, s, d)
    && forall h: nat :: d <= h < d + DAY && h % HOUR == 0 ==> !EverStraddled(ticks, keep, aligned, s, h)
  }

  lemma EverDayStraddledStep(ticks: seq<Tick>, keep: Retention, aligned: bool, s: Series, d: nat)
    requires ticks != []
    ensures EverDayStraddled(ticks, keep, aligned, s, d)
       <==> EverDayStraddled(ticks[..|ticks| - 1], keep, aligned, s, d) || DayStraddles(ticks, keep, aligned, s, d)
  {
    hide DayStraddles;
    var k := |ticks| - 1;
    assert ticks[..|ticks|] == ticks;
    forall n | 0 <= n <= k ensures ticks[..k][..n] == ticks[..n] {
    }
    if EverDayStraddled(ticks, keep, aligned, s, d) {
      var n :| 0 < n <= |ticks| && DayStraddles(ticks[..n], keep, aligned, s, d);
      if n <= k {
        assert DayStraddles(ticks[..k][..n], keep, aligned, s, d);
      }
    }
    if EverDayStraddled(ticks[..k], keep, aligned, s, d) {
      var n :| 0 < n <= k && DayStraddles(ticks[..k][..n], keep, aligned, s, d);
      assert DayStraddles(ticks[..n], keep, aligned, s, d);
    }
  }

  /** A day once cut stays cut: the left-out hour is still left out when it is rewritten. */
  lemma {:induction false} CutStaysCut(ticks: seq<Tick>, keep: Retention, aligned: bool, s: Series, d: nat)
    requires Monotone(ticks) && ticks != [] && keep.hourlyDays >= 1
    ensures EverDayStraddled(ticks, keep, aligned, s, d) ==>
              SampledHour(RunLog(ticks), s, d, DayStart(ticks, keep, aligned))
  {
    hide RunLog, DayStart, DayRewrites, Sampled, EverDayStraddled;
    var n := |ticks| - 1;
    EverDayStraddledStep(ticks, keep, aligned, s, d);
    if n == 0 {
      assert ticks[..n] == [];
      NeverDayStraddled(keep, aligned, s, d);
    } else if EverDayStraddled(ticks[..n], keep, aligned, s, d) {
      CutStaysCut(ticks[..n], keep, aligned, s, d);
      DayStartBounds(ticks, keep, aligned);
      var h: nat :| d <= h < DayStart(ticks[..n], keep, aligned) && Sampled(RunLog(ticks[..n]), s, h);
      StaysSampled(ticks, s, h);
    }
  }

  lemma NeverDayStraddled(keep: Retention, aligned: bool, s: Series, d: nat)
    ensures !EverDayStraddled([], keep, aligned, s, d)
  {
  }

  lemma StaysSampled(ticks: seq<Tick>, s: Series, h: nat)
    requires ticks != []
    ensures Sampled(RunLog(ticks[..|ticks| - 1]), s, h) ==> Sampled(RunLog(ticks), s, h)
  {
    hide RunLog, HasRow;
    LogGrows(ticks, s, h, h + HOUR);
  }

  /** On a tick that rewrites day d: never cut means nothing is missing from its hour rows. */
  lemma NeverCutOnRewrite(ticks: seq<Tick>, keep: Retention, aligned: bool, s: Series, d: nat)
    requires Monotone(ticks) && ticks != [] && keep.hourlyDays >= 1 && DayRewrites(ticks, keep, aligned, s, d)
    ensures EverDayStraddled(ticks, keep, aligned, s, d)
       <==> SampledHour(RunLog(ticks), s, d, DayStart(ticks, keep, aligned))
  {
    hide RunLog, DayStart, DayRewrites, SampledHour;
    CutStaysCut(ticks, keep, aligned, s, d);
    EverDayStraddledStep(ticks, keep, aligned, s, d);
  }

  /** A tick that rewrites an hour of a day rewrites the day. */
  lemma HourRewritesDay(ticks: seq<Tick>, keep: Retention, aligned: bool, s: Series, d: nat, h: nat)
    requires Monotone(ticks) && ticks != [] && keep.hourlyDays >= 1 && d <= h < d + DAY && h % HOUR == 0
    requires Rewrites(ticks, keep, aligned, s, h)
    ensures DayRewrites(ticks, keep, aligned, s, d)
  {
    hide RunLog, DayStart, HasRow, Rewrites;
    RewrittenIsRecent(ticks, keep, aligned, s, h);
    assert Sampled(RunLog(ticks), s, h);
  }

  /** A tick that does not rewrite the day cuts neither it nor its hours. */
  lemma NeverCutOtherwise(ticks: seq<Tick>, keep: Retention, aligned: bool, s: Series, d: nat)
    requires Monotone(ticks) && ticks != [] && keep.hourlyDays >= 1 && !DayRewrites(ticks, keep, aligned, s, d)
    ensures NeverCut(ticks, keep, aligned, s, d) <==> NeverCut(ticks[..|ticks| - 1], keep, aligned, s, d)
  {
    hide EverStraddled, EverDayStraddled, HasRow, Rewrites, DayRewrites, SampledHour;
    var before := ticks[..|ticks| - 1];
    EverDayStraddledStep(ticks, keep, aligned, s, d);
    assert EverDayStraddled(ticks, keep, aligned, s, d) <==> EverDayStraddled(before, keep, aligned, s, d);
    forall h: nat | d <= h < d + DAY && h % HOUR == 0
      ensures EverStraddled(ticks, keep, aligned, s, h) <==> EverStraddled(before, keep, aligned, s, h)
    {
      EverStraddledStep(ticks, keep, aligned, s, h);
      if Rewrites(ticks, keep, aligned, s, h) {
        HourRewritesDay(ticks, keep, aligned, s, d, h);
        assert false;
      }
    }
  }

  /** Uncut, the hour rows a rollup reads are exact and complete. */
  lemma UncutHours(ticks: seq<Tick>, keep: Retention, aligned: bool, s: Series, d: nat)
    requires Monotone(ticks) && ticks != [] && keep.hourlyDays >= 1
    requires DayRewrites(ticks, keep, aligned, s, d) && NeverCut(ticks, keep, aligned, s, d)
    ensures ExactHours(Hourly(ticks, keep, aligned), RunLog(ticks), s, d, 24)
    ensures !HasRow(Hourly(ticks, keep, aligned), Hour, s, d, Since(ticks[|ticks| - 1].ts, DAY, aligned))
  {
    hide RunLog, RolledRow, PartialRow, Hourly, HasRow, EverStraddled, EverDayStraddled, DayRewrites, Since;
    hide HourHorizon;
    var t, l := Hourly(ticks, keep, aligned), RunLog(ticks);
    NeverCutOnRewrite(ticks, keep, aligned, s, d);
    forall h: nat | d <= h < d + 24 * HOUR
      ensures Get(t, Key(Hour, h, s)) == if Sampled(l, s, h) then Some(RolledRow(l, Raw, s, h, HOUR, h)) else None
      ensures h < Since(ticks[|ticks| - 1].ts, DAY, aligned) ==> Key(Hour, h, s) !in t
    {
      HourTable(ticks, keep, aligned, s, h);
      if Sampled(l, s, h) {
        assert h >= DayStart(ticks, keep, aligned);
        MissingIffStraddled(ticks, keep, aligned, s, h);
        ReachBounds(ticks, keep, aligned, s, h);
        NothingMissing(l, s, h, Reached(ticks, keep, aligned, s, h));
      }
    }
    NoHourBefore(ticks, keep, aligned, s, d);
  }

  /** Past the day itself there is nothing the window could leave out. */
  lemma NoHourBefore(ticks: seq<Tick>, keep: Retention, aligned: bool, s: Series, d: nat)
    requires ticks != [] && DayRewrites(ticks, keep, aligned, s, d)
    requires forall h: nat :: d <= h < d + DAY && h < Since(ticks[|ticks| - 1].ts, DAY, aligned) ==>
               Key(Hour, h, s) !in Hourly(ticks, keep, aligned)
    ensures !HasRow(Hourly(ticks, keep, aligned), Hour, s, d, Since(ticks[|ticks| - 1].ts, DAY, aligned))
  {
    hide RunLog, Hourly, Since, Sampled;
    assert Since(ticks[|ticks| - 1].ts, DAY, aligned) <= DayStart(ticks, keep, aligned) < d + DAY;
  }

  /**
    The guarantee for every accepted retention and either window: the row of a day that was
    never cut is, as long as it is kept, true to every sample of the day.
   */
  lemma {:induction false} DaysConserved(ticks: seq<Tick>, keep: Retention, aligned: bool, s: Series, d: nat)
    requires Monotone(ticks) && keep.hourlyDays >= 1 && d % DAY == 0 && NeverCut(ticks, keep, aligned, s, d)
    ensures Key(Day, d, s) in RunTable(ticks, keep, aligned) ==>
              TrueDay(RunTable(ticks, keep, aligned)[Key(Day, d, s)], RunLog(ticks), s, d)
  {
    hide RunTable, RunLog, Hourly, RolledRow, HasRow, Since, DayRewrites, TrueDay, NeverCut, ExactHours;
    EmptyRun(keep, aligned);
    if ticks != [] {
      var k := Key(Day, d, s);
      DayRollup(ticks, keep, aligned, k);
      assert k in RunTable(ticks, keep, aligned) <==> Get(RunTable(ticks, keep, aligned), k).Some?;
      if DayRewrites(ticks, keep, aligned, s, d) {
        UncutHours(ticks, keep, aligned, s, d);
        DayFromExactHours(Hourly(ticks, keep, aligned), RunLog(ticks), s, d,
                          Since(ticks[|ticks| - 1].ts, DAY, aligned));
      } else {
        NeverCutOtherwise(ticks, keep, aligned, s, d);
        DaysConserved(ticks[..|ticks| - 1], keep, aligned, s, d);
        QuietDay(ticks, keep, aligned, s, d);
        SameTrueDay(RunLog(ticks[..|ticks| - 1]), RunLog(ticks), s, d);
      }
    }
  }

  lemma SameTrueDay(l: Table, l': Table, s: Series, d: nat)
    requires SameRows(l, l', Raw, s, d, d + DAY)
    ensures forall row :: TrueDay(row, l, s, d) <==> TrueDay(row, l', s, d)
  {
    hide Sum, LastDisk;
    SameSums(l, l', Raw, s, d, d + DAY);
  }

  // -- and only then -----------------------------------------------------------------------

  predicate AtMost(a: Totals, b: Totals) {
    a.rx <= b.rx && a.tx <= b.tx && a.dt <= b.dt
  }

  /** What a rollup saw of a bucket is at most what is in it. */
  lemma PartAtMost(l: Table, s: Series, b: nat, r: Reach)
    requires b <= r.from <= b + HOUR
    ensures AtMost(Single(PartialRow(l, s, b, r)), Sum(l, Raw, s, b, b + HOUR))
  {
    hide Sum, LastDisk;
    SumAdds(l, Raw, s, b, r.from, b + HOUR);
  }

  /** Hour rows sit on the hour and carry at most the bytes and seconds of their hour. */
  ghost predicate HoursWithin(t: Table, l: Table, s: Series, d: nat, n: nat) {
    forall h: nat :: d <= h < d + n * HOUR && Key(Hour, h, s) in t ==>
      h % HOUR == 0 && AtMost(Single(t[Key(Hour, h, s)]), Sum(l, Raw, s, h, h + HOUR))
  }

  function HourSeconds(t: Table, s: Series, h: nat): nat {
    if Key(Hour, h, s) in t then t[Key(Hour, h, s)].dt else 0
  }

  lemma OneHourSeconds(t: Table, l: Table, s: Series, h: nat)
    requires h % HOUR == 0 && HoursWithin(t, l, s, h, 1)
    ensures Sum(t, Hour, s, h, h + HOUR).dt == HourSeconds(t, s, h)
    ensures AtMost(Sum(t, Hour, s, h, h + HOUR), Sum(l, Raw, s, h, h + HOUR))
  {
    hide Sum;
    OnlyFirst(t, Hour, s, h, h + HOUR);
  }

  /**
    Hour rows together carry at most what their hours do; if they carry all seconds, each
    carries all of its hour.
   */
  lemma {:induction false} SecondsAccounted(t: Table, l: Table, s: Series, d: nat, n: nat)
    requires d % HOUR == 0 && HoursWithin(t, l, s, d, n)
    ensures AtMost(Sum(t, Hour, s, d, d + n * HOUR), Sum(l, Raw, s, d, d + n * HOUR))
    ensures Sum(t, Hour, s, d, d + n * HOUR).dt == Sum(l, Raw, s, d, d + n * HOUR).dt ==>
              forall h: nat :: d <= h < d + n * HOUR && h % HOUR == 0 ==>
                HourSeconds(t, s, h) == Sum(l, Raw, s, h, h + HOUR).dt
  {
    hide Sum, HourSeconds;
    if n == 0 {
      EmptyWindow(t, Hour, s, d, d);
    } else {
      var mid := d + (n - 1) * HOUR;
      SecondsAccounted(t, l, s, d, n - 1);
      assert mid % HOUR == 0;
      OneHourSeconds(t, l, s, mid);
      SumAdds(t, Hour, s, d, mid, mid + HOUR);
      SumAdds(l, Raw, s, d, mid, mid + HOUR);
      forall h: nat | mid <= h < mid + HOUR && h % HOUR == 0 ensures h == mid {
        MultiplesApart(mid, h, HOUR);
      }
    }
  }

  /** The part of a table from a second on. */
  function SeenFrom(t: Table, since: int): Table {
    map k | k in t && k.ts >= since :: t[k]
  }

  lemma SeenSum(t: Table, s: Series, d: nat, since: int)
    ensures Sum(SeenFrom(t, since), Hour, s, d, d + DAY) == Sum(t, Hour, s, MaxInt(d, since), d + DAY)
  {
    hide Sum, LastDisk, HasRow;
    assert RowsFrom(SeenFrom(t, since), t, Hour, s, since);
    FromSums(SeenFrom(t, since), t, Hour, s, since, d, d + DAY);
  }

  /** The hour rows a day rollup sees. */
  lemma SeenHours(ticks: seq<Tick>, keep: Retention, aligned: bool, s: Series, d: nat)
    requires Monotone(ticks) && ticks != [] && keep.hourlyDays >= 1
    ensures var t := SeenFrom(Hourly(ticks, keep, aligned), Since(ticks[|ticks| - 1].ts, DAY, aligned));
            HoursWithin(t, RunLog(ticks), s, d, 24)
  {
    hide RunLog, PartialRow, Hourly, HasRow, HourHorizon, Since, Sum, AtMost, Single;
    var t, l := Hourly(ticks, keep, aligned), RunLog(ticks);
    forall h: nat | d <= h < d + 24 * HOUR && Key(Hour, h, s) in t
      ensures h % HOUR == 0 && AtMost(Single(t[Key(Hour, h, s)]), Sum(l, Raw, s, h, h + HOUR))
    {
      HourTable(ticks, keep, aligned, s, h);
      assert Get(t, Key(Hour, h, s)).Some?;
      ReachBounds(ticks, keep, aligned, s, h);
      PartAtMost(l, s, h, Reached(ticks, keep, aligned, s, h));
    }
  }

  /** A day rollup writes at most what was logged in its day. */
  lemma RewrittenAtMost(ticks: seq<Tick>, keep: Retention, aligned: bool, s: Series, d: nat)
    requires Monotone(ticks) && ticks != [] && keep.hourlyDays >= 1 && d % DAY == 0
    ensures var since := Since(ticks[|ticks| - 1].ts, DAY, aligned);
            AtMost(Single(RolledRow(Hourly(ticks, keep, aligned), Hour, s, d, DAY, since)),
                   Sum(RunLog(ticks), Raw, s, d, d + DAY))
  {
    hide RunLog, Hourly, Since, Sum, LastDisk, HoursWithin, SeenFrom;
    var since := Since(ticks[|ticks| - 1].ts, DAY, aligned);
    SeenSum(Hourly(ticks, keep, aligned), s, d, since);
    SeenHours(ticks, keep, aligned, s, d);
    DayOnTheHour(d);
    SecondsAccounted(SeenFrom(Hourly(ticks, keep, aligned), since), RunLog(ticks), s, d, 24);
  }

  /** No day row of any run, under any accepted retention and either window, counts a sample twice. */
  lemma {:induction false} DaysAtMost(ticks: seq<Tick>, keep: Retention, aligned: bool, s: Series, d: nat)
    requires Monotone(ticks) && keep.hourlyDays >= 1 && d % DAY == 0
    requires Key(Day, d, s) in RunTable(ticks, keep, aligned)
    ensures AtMost(Single(RunTable(ticks, keep, aligned)[Key(Day, d, s)]), Sum(RunLog(ticks), Raw, s, d, d + DAY))
  {
    hide RunTable, RunLog, Hourly, RolledRow, Sum, HasRow, Since, DayRewrites, AtMost, Single;
    EmptyRun(keep, aligned);
    if ticks != [] {
      var before, k := ticks[..|ticks| - 1], Key(Day, d, s);
      DayRollup(ticks, keep, aligned, k);
      assert Get(RunTable(ticks, keep, aligned), k).Some?;
      if DayRewrites(ticks, keep, aligned, s, d) {
        RewrittenAtMost(ticks, keep, aligned, s, d);
      } else {
        QuietDay(ticks, keep, aligned, s, d);
        SameSums(RunLog(before), RunLog(ticks), Raw, s, d, d + DAY);
        assert k in RunTable(before, keep, aligned);
        DaysAtMost(before, keep, aligned, s, d);
      }
    }
  }

  /** An hour whose row carries all its seconds was seen whole. */
  lemma FullHour(ticks: seq<Tick>, keep: Retention, aligned: bool, s: Series, h: nat)
    requires Monotone(ticks) && ticks != [] && keep.hourlyDays >= 1 && PositiveIntervals(ticks) && h % HOUR == 0
    requires var t := SeenFrom(Hourly(ticks, keep, aligned), Since(ticks[|ticks| - 1].ts, DAY, aligned));
             HourSeconds(t, s, h) == Sum(RunLog(ticks), Raw, s, h, h + HOUR).dt
    ensures !EverStraddled(ticks, keep, aligned, s, h)
    ensures Sampled(RunLog(ticks), s, h) ==> h >= DayStart(ticks, keep, aligned)
  {
    hide RunLog, PartialRow, Hourly, HasRow, HourHorizon, Since, Sum, EverStraddled;
    var t, l := Hourly(ticks, keep, aligned), RunLog(ticks);
    var r := Reached(ticks, keep, aligned, s, h);
    HourTable(ticks, keep, aligned, s, h);
    ReachBounds(ticks, keep, aligned, s, h);
    MissingIffStraddled(ticks, keep, aligned, s, h);
    MissingTime(ticks, s, h, r);
    Within(l, Raw, s, h, h + HOUR, h, r.from);
    RowsTakeTime(ticks, s, h, h + HOUR);
    SumRows(l, Raw, s, h, h + HOUR);
  }

  /** A rewritten row with all the day's seconds was never cut. */
  lemma FullDay(ticks: seq<Tick>, keep: Retention, aligned: bool, s: Series, d: nat)
    requires Monotone(ticks) && ticks != [] && keep.hourlyDays >= 1 && PositiveIntervals(ticks) && d % DAY == 0
    requires DayRewrites(ticks, keep, aligned, s, d)
    requires var since := Since(ticks[|ticks| - 1].ts, DAY, aligned);
             Sum(Hourly(ticks, keep, aligned), Hour, s, MaxInt(d, since), d + DAY).dt
             == Sum(RunLog(ticks), Raw, s, d, d + DAY).dt
    ensures NeverCut(ticks, keep, aligned, s, d)
  {
    hide RunLog, Hourly, HasRow, Since, Sum, EverStraddled, EverDayStraddled, DayRewrites, DayStart, HourSeconds;
    hide HoursWithin, Sampled, SeenFrom;
    var since := Since(ticks[|ticks| - 1].ts, DAY, aligned);
    var t := SeenFrom(Hourly(ticks, keep, aligned), since);
    SeenSum(Hourly(ticks, keep, aligned), s, d, since);
    SeenHours(ticks, keep, aligned, s, d);
    DayOnTheHour(d);
    SecondsAccounted(t, RunLog(ticks), s, d, 24);
    NeverCutOnRewrite(ticks, keep, aligned, s, d);
    forall h: nat | d <= h < d + DAY && h % HOUR == 0
      ensures !EverStraddled(ticks, keep, aligned, s, h)
      ensures Sampled(RunLog(ticks), s, h) ==> h >= DayStart(ticks, keep, aligned)
    {
      FullHour(ticks, keep, aligned, s, h);
    }
    NoEarlyHour(ticks, keep, aligned, s, d);
  }

  lemma NoEarlyHour(ticks: seq<Tick>, keep: Retention, aligned: bool, s: Series, d: nat)
    requires ticks != [] && DayRewrites(ticks, keep, aligned, s, d)
    requires forall h: nat :: d <= h < d + DAY && h % HOUR == 0 && Sampled(RunLog(ticks), s, h) ==>
               h >= DayStart(ticks, keep, aligned)
    ensures !SampledHour(RunLog(ticks), s, d, DayStart(ticks, keep, aligned))
  {
    hide RunLog, DayStart, HasRow;
  }

  /** A kept day row with all the seconds of its day was never cut. */
  lemma {:induction false} FullDaysAreUncut(ticks: seq<Tick>, keep: Retention, aligned: bool, s: Series, d: nat)
    requires Monotone(ticks) && PositiveIntervals(ticks) && keep.hourlyDays >= 1 && d % DAY == 0
    requires Key(Day, d, s) in RunTable(ticks, keep, aligned)
    requires RunTable(ticks, keep, aligned)[Key(Day, d, s)].dt == Sum(RunLog(ticks), Raw, s, d, d + DAY).dt
    ensures NeverCut(ticks, keep, aligned, s, d)
  {
    hide RunTable, RunLog, Hourly, Sum, LastDisk, HasRow, Since, DayRewrites, NeverCut;
    EmptyRun(keep, aligned);
    if ticks != [] {
      var before, k := ticks[..|ticks| - 1], Key(Day, d, s);
      DayRollup(ticks, keep, aligned, k);
      assert Get(RunTable(ticks, keep, aligned), k).Some?;
      if DayRewrites(ticks, keep, aligned, s, d) {
        FullDay(ticks, keep, aligned, s, d);
      } else {
        NeverCutOtherwise(ticks, keep, aligned, s, d);
        QuietDay(ticks, keep, aligned, s, d);
        SameSums(RunLog(before), RunLog(ticks), Raw, s, d, d + DAY);
        assert k in RunTable(before, keep, aligned);
        FullDaysAreUncut(before, keep, aligned, s, d);
      }
    }
  }

  /**
    Exactly when a day row is true to its day, for every accepted retention and either
    window: no rollup ever cut one of its hours, or the day, between two of its samples.
   */
  lemma DayExactIff(ticks: seq<Tick>, keep: Retention, aligned: bool, s: Series, d: nat)
    requires Monotone(ticks) && PositiveIntervals(ticks) && keep.hourlyDays >= 1 && d % DAY == 0
    ensures Key(Day, d, s) in RunTable(ticks, keep, aligned) ==>
              (TrueDay(RunTable(ticks, keep, aligned)[Key(Day, d, s)], RunLog(ticks), s, d)
               <==> NeverCut(ticks, keep, aligned, s, d))
  {
    hide RunTable, RunLog, Sum, LastDisk, NeverCut;
    if Key(Day, d, s) in RunTable(ticks, keep, aligned) {
      if NeverCut(ticks, keep, aligned, s, d) {
        DaysConserved(ticks, keep, aligned, s, d);
      }
      if TrueDay(RunTable(ticks, keep, aligned)[Key(Day, d, s)], RunLog(ticks), s, d) {
        FullDaysAreUncut(ticks, keep, aligned, s, d);
      }
    }
  }
}
