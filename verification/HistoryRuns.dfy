/**
  Whole runs of the metrics store: what the raw and hour tiers hold after every tick, for any
  retention and either window, compared with a log of raw rows that is never pruned.
 */
module HistoryRuns {
  import opened Options
  import opened History
  import opened HistoryFacts

  // -- the log -----------------------------------------------------------------

  lemma LogGrows(ticks: seq<Tick>, s: Series, lo: int, hi: int)
    requires ticks != []
    ensures HasRow(RunLog(ticks[..|ticks| - 1]), Raw, s, lo, hi) ==> HasRow(RunLog(ticks), Raw, s, lo, hi)
  {
    hide Written;
    var n := |ticks| - 1;
    var l := RunLog(ticks[..n]);
    if ts: nat :| lo <= ts < hi && Key(Raw, ts, s) in l {
      WrittenAt(l, ticks[n].ts, ticks[n].dt, ticks[n].rows, Key(Raw, ts, s));
      assert Get(l, Key(Raw, ts, s)).Some?;
      assert Get(RunLog(ticks), Key(Raw, ts, s)).Some?;
    }
  }

  /** A window the last tick wrote nothing into is unchanged in the log. */
  lemma LogUnchanged(ticks: seq<Tick>, s: Series, lo: int, hi: int)
    requires ticks != []
    requires ticks[|ticks| - 1].ts < lo || hi <= ticks[|ticks| - 1].ts || LastSample(ticks[|ticks| - 1].rows, s).None?
    ensures SameRows(RunLog(ticks[..|ticks| - 1]), RunLog(ticks), Raw, s, lo, hi)
  {
    hide Written;
    var n := |ticks| - 1;
    forall ts: nat | lo <= ts < hi
      ensures Get(RunLog(ticks[..n]), Key(Raw, ts, s)) == Get(RunLog(ticks), Key(Raw, ts, s))
    {
      WrittenAt(RunLog(ticks[..n]), ticks[n].ts, ticks[n].dt, ticks[n].rows, Key(Raw, ts, s));
    }
  }

  /** The last tick's sample of a series is in the log. */
  lemma SampleLogged(ticks: seq<Tick>, s: Series)
    requires ticks != [] && LastSample(ticks[|ticks| - 1].rows, s).Some?
    ensures Key(Raw, ticks[|ticks| - 1].ts, s) in RunLog(ticks)
  {
    hide Written;
    var n := |ticks| - 1;
    var k := Key(Raw, ticks[n].ts, s);
    WrittenAt(RunLog(ticks[..n]), ticks[n].ts, ticks[n].dt, ticks[n].rows, k);
    assert Get(RunLog(ticks), k).Some?;
  }

  lemma EmptyRun(keep: Retention, aligned: bool)
    ensures RunTable([], keep, aligned) == map[] && RunLog([]) == map[]
  {
  }

  lemma EmptyWindow(t: Table, tier: Tier, s: Series, lo: int, hi: int)
    requires hi <= lo
    ensures Sum(t, tier, s, lo, hi) == NO_ROWS && LastDisk(t, tier, s, lo, hi) == None && !HasRow(t, tier, s, lo, hi)
  {
  }

  lemma Within(t: Table, tier: Tier, s: Series, lo: int, hi: int, from: int, to: int)
    requires lo <= from && to <= hi
    ensures HasRow(t, tier, s, from, to) ==> HasRow(t, tier, s, lo, hi)
  {
  }

  // -- the raw tier is the recent part of the log ----------------------------

  /** The table after the write of the last tick, before its rollup. */
  function Collected(ticks: seq<Tick>, keep: Retention, aligned: bool): Table
    requires ticks != []
  {
    var last := ticks[|ticks| - 1];
    Written(RunTable(ticks[..|ticks| - 1], keep, aligned), last.ts, last.dt, last.rows)
  }

  /** The first second whose raw rows the tick before the last left in the table. */
  function RawHorizon(ticks: seq<Tick>, keep: Retention): (h: int)
    ensures h >= 0
  {
    if |ticks| < 2 then 0 else MaxInt(0, ticks[|ticks| - 2].ts - keep.rawHours * HOUR)
  }

  /** The raw rows before and after a tick's prune, against the log. */
  lemma {:induction false} RawRows(ticks: seq<Tick>, keep: Retention, aligned: bool, k: Key)
    requires Monotone(ticks) && ticks != [] && k.tier == Raw
    ensures k in RunLog(ticks) ==> k.ts <= ticks[|ticks| - 1].ts
    ensures Get(Collected(ticks, keep, aligned), k)
         == if k.ts >= RawHorizon(ticks, keep) then Get(RunLog(ticks), k) else None
    ensures Get(RunTable(ticks, keep, aligned), k)
         == if Kept(k, ticks[|ticks| - 1].ts, keep) then Get(RunLog(ticks), k) else None
  {
    hide RolledRow, Groups, RolledInto;
    var n := |ticks| - 1;
    var last, before := ticks[n], ticks[..n];
    var t, l := RunTable(before, keep, aligned), RunLog(before);
    WrittenAt(t, last.ts, last.dt, last.rows, k);
    WrittenAt(l, last.ts, last.dt, last.rows, k);
    if before != [] {
      RawRows(before, keep, aligned, k);
      assert before[n - 1].ts <= last.ts;
    }
    RawUntouched(Collected(ticks, keep, aligned), last.ts, aligned, k);
    PrunedAt(RolledUp(Collected(ticks, keep, aligned), last.ts, aligned), last.ts, keep, k);
  }

  lemma RawUntouched(t: Table, now: nat, aligned: bool, k: Key)
    requires k.tier == Raw
    ensures Get(RolledUp(t, now, aligned), k) == Get(t, k)
  {
    hide RolledInto;
    var hours := RolledInto(t, Raw, Hour, HOUR, Since(now, HOUR, aligned));
    RolledAt(t, Raw, Hour, HOUR, Since(now, HOUR, aligned), k);
    RolledAt(hours, Hour, Day, DAY, Since(now, DAY, aligned), k);
  }

  /** Of a series, t holds exactly the rows that l holds from second h on. */
  ghost predicate RowsFrom(t: Table, l: Table, tier: Tier, s: Series, h: int) {
    forall ts: nat :: Get(t, Key(tier, ts, s)) == if ts >= h then Get(l, Key(tier, ts, s)) else None
  }

  lemma CollectedFrom(ticks: seq<Tick>, keep: Retention, aligned: bool, s: Series)
    requires Monotone(ticks) && ticks != []
    ensures RowsFrom(Collected(ticks, keep, aligned), RunLog(ticks), Raw, s, RawHorizon(ticks, keep))
  {
    hide Collected, RunLog, RunTable, RawHorizon;
    forall ts: nat
      ensures Get(Collected(ticks, keep, aligned), Key(Raw, ts, s))
           == if ts >= RawHorizon(ticks, keep) then Get(RunLog(ticks), Key(Raw, ts, s)) else None
    {
      RawRows(ticks, keep, aligned, Key(Raw, ts, s));
    }
  }

  /** Aggregates of such a table are those of l over the part of the window from h on. */
  lemma FromSums(t: Table, l: Table, tier: Tier, s: Series, h: int, lo: int, hi: int)
    requires RowsFrom(t, l, tier, s, h)
    ensures Sum(t, tier, s, lo, hi) == Sum(l, tier, s, MaxInt(lo, h), hi)
    ensures LastDisk(t, tier, s, lo, hi) == LastDisk(l, tier, s, MaxInt(lo, h), hi)
    ensures HasRow(t, tier, s, lo, hi) == HasRow(l, tier, s, MaxInt(lo, h), hi)
  {
    hide Sum, LastDisk;
    var mid := if h <= lo then lo else if hi <= h then MaxInt(lo, hi) else h;
    NothingBelow(t, l, tier, s, h, lo, mid);
    SameFrom(t, l, tier, s, h, mid, hi);
    SumRows(t, tier, s, lo, mid);
    NoDisk(t, tier, s, lo, mid);
    if lo < hi {
      SumSplit(t, tier, s, lo, mid, hi);
      HasRowSplit(t, tier, s, lo, mid, hi);
      SumRows(t, tier, s, mid, hi);
      PlusNothing(Sum(t, tier, s, mid, hi));
    }
    if hi <= MaxInt(lo, h) {
      EmptyWindow(l, tier, s, MaxInt(lo, h), hi);
      EmptyWindow(l, tier, s, mid, hi);
      EmptyWindow(t, tier, s, lo, lo);
    }
    if hi <= lo {
      EmptyWindow(t, tier, s, lo, hi);
    }
  }

  lemma NothingBelow(t: Table, l: Table, tier: Tier, s: Series, h: int, lo: int, hi: int)
    requires RowsFrom(t, l, tier, s, h) && (hi <= h || hi <= lo)
    ensures !HasRow(t, tier, s, lo, hi)
  {
    forall ts: nat | lo <= ts < hi ensures Key(tier, ts, s) !in t {
      assert Get(t, Key(tier, ts, s)) == None;
    }
  }

  lemma SameFrom(t: Table, l: Table, tier: Tier, s: Series, h: int, lo: int, hi: int)
    requires RowsFrom(t, l, tier, s, h) && (h <= lo || hi <= lo)
    ensures Sum(t, tier, s, lo, hi) == Sum(l, tier, s, lo, hi)
    ensures LastDisk(t, tier, s, lo, hi) == LastDisk(l, tier, s, lo, hi)
    ensures HasRow(t, tier, s, lo, hi) == HasRow(l, tier, s, lo, hi)
  {
    SameSums(t, l, tier, s, lo, hi);
  }

  // -- hour rows --------------------------------------------------------------

  /** The hour rows after the hour rollup of the last tick, before day rollup and prune. */
  function Hourly(ticks: seq<Tick>, keep: Retention, aligned: bool): Table
    requires ticks != []
  {
    RolledInto(Collected(ticks, keep, aligned), Raw, Hour, HOUR, Since(ticks[|ticks| - 1].ts, HOUR, aligned))
  }

  /** How one tick changes the hour row of a bucket. */
  lemma HourStep(ticks: seq<Tick>, keep: Retention, aligned: bool, k: Key)
    requires ticks != [] && k.tier == Hour
    ensures Get(Hourly(ticks, keep, aligned), k)
         == (var t, since := Collected(ticks, keep, aligned), Since(ticks[|ticks| - 1].ts, HOUR, aligned);
             if k.ts % HOUR == 0 && HasRow(t, Raw, k.series, MaxInt(k.ts, since), k.ts + HOUR)
             then Some(RolledRow(t, Raw, k.series, k.ts, HOUR, since))
             else Get(RunTable(ticks[..|ticks| - 1], keep, aligned), k))
    ensures Get(RunTable(ticks, keep, aligned), k)
         == if Kept(k, ticks[|ticks| - 1].ts, keep) then Get(Hourly(ticks, keep, aligned), k) else None
  {
    hide RolledInto, RolledRow, HasRow, Written;
    var n := |ticks| - 1;
    var last := ticks[n];
    var t := Collected(ticks, keep, aligned);
    WrittenAt(RunTable(ticks[..n], keep, aligned), last.ts, last.dt, last.rows, k);
    RolledAt(t, Raw, Hour, HOUR, Since(last.ts, HOUR, aligned), k);
    RolledAt(Hourly(ticks, keep, aligned), Hour, Day, DAY, Since(last.ts, DAY, aligned), k);
    PrunedAt(RolledUp(t, last.ts, aligned), last.ts, keep, k);
  }

  /** The first second the last tick's hour rollup sees: its window, cut by raw retention. */
  function Start(ticks: seq<Tick>, keep: Retention, aligned: bool): int
    requires ticks != []
  {
    MaxInt(Since(ticks[|ticks| - 1].ts, HOUR, aligned), RawHorizon(ticks, keep))
  }

  lemma StartBounds(ticks: seq<Tick>, keep: Retention, aligned: bool)
    requires Monotone(ticks) && ticks != []
    ensures ticks[|ticks| - 1].ts - 2 * HOUR <= Start(ticks, keep, aligned) <= ticks[|ticks| - 1].ts
    ensures |ticks| > 1 ==> Start(ticks[..|ticks| - 1], keep, aligned) <= Start(ticks, keep, aligned)
  {
    hide AlignUp;
    var n := |ticks| - 1;
    AlignUpFacts(ticks[n].ts - 2 * HOUR, HOUR);
    if n > 0 {
      assert ticks[n - 1].ts <= ticks[n].ts;
      AlignUpMonotone(ticks[n - 1].ts - 2 * HOUR, ticks[n].ts - 2 * HOUR, HOUR);
      if n > 1 {
        assert ticks[n - 2].ts <= ticks[n - 1].ts;
      }
    }
  }

  /** The last tick's rollup rewrites the hour row of bucket b. */
  ghost predicate Rewrites(ticks: seq<Tick>, keep: Retention, aligned: bool, s: Series, b: nat)
    requires ticks != []
  {
    HasRow(RunLog(ticks), Raw, s, MaxInt(b, Start(ticks, keep, aligned)), b + HOUR)
  }

  /** What a rollup saw of a bucket: totals start at from, the disk reading at visible. */
  datatype Reach = Reach(from: int, visible: int)

  function LastReach(ticks: seq<Tick>, keep: Retention, aligned: bool, b: nat): Reach
    requires ticks != []
  {
    Reach(MaxInt(b, Start(ticks, keep, aligned)), MaxInt(b, RawHorizon(ticks, keep)))
  }

  /** What the last rollup that rewrote the bucket saw of it. */
  ghost function Reached(ticks: seq<Tick>, keep: Retention, aligned: bool, s: Series, b: nat): Reach {
    if ticks == [] then Reach(b, b)
    else if Rewrites(ticks, keep, aligned, s, b) then LastReach(ticks, keep, aligned, b)
    else Reached(ticks[..|ticks| - 1], keep, aligned, s, b)
  }

  /** The row of bucket b rolled up from that part of the log. */
  function PartialRow(l: Table, s: Series, b: nat, r: Reach): Row {
    RolledRow(l, Raw, s, b, HOUR, r.from).(disk := LastDisk(l, Raw, s, r.visible, b + HOUR))
  }

  lemma {:induction false} ReachBounds(ticks: seq<Tick>, keep: Retention, aligned: bool, s: Series, b: nat)
    requires Monotone(ticks)
    ensures var r := Reached(ticks, keep, aligned, s, b);
            b <= r.visible <= r.from <= b + HOUR
    ensures ticks != [] ==> Reached(ticks, keep, aligned, s, b).from <= MaxInt(b, Start(ticks, keep, aligned))
  {
    hide RunLog, RawHorizon, Since;
    if ticks != [] {
      ReachBounds(ticks[..|ticks| - 1], keep, aligned, s, b);
      StartBounds(ticks, keep, aligned);
    }
  }

  lemma SamePartialRow(l: Table, l': Table, s: Series, b: nat, r: Reach)
    requires SameRows(l, l', Raw, s, b, b + HOUR) && b <= r.visible
    ensures PartialRow(l, s, b, r) == PartialRow(l', s, b, r)
  {
    hide Sum, LastDisk;
    SameSums(l, l', Raw, s, b, b + HOUR);
    SameSums(l, l', Raw, s, MaxInt(b, r.from), b + HOUR);
    SameSums(l, l', Raw, s, r.visible, b + HOUR);
  }

  /** One rollup, read on the log. */
  lemma HourRollup(ticks: seq<Tick>, keep: Retention, aligned: bool, k: Key)
    requires Monotone(ticks) && ticks != [] && k.tier == Hour
    ensures Get(Hourly(ticks, keep, aligned), k)
         == if k.ts % HOUR == 0 && Rewrites(ticks, keep, aligned, k.series, k.ts)
            then Some(PartialRow(RunLog(ticks), k.series, k.ts, LastReach(ticks, keep, aligned, k.ts)))
            else Get(RunTable(ticks[..|ticks| - 1], keep, aligned), k)
  {
    hide Collected, RunLog, RunTable, RawHorizon, Since, Sum, LastDisk, HasRow, Hourly;
    var t, l, b := Collected(ticks, keep, aligned), RunLog(ticks), k.ts;
    var since, h := Since(ticks[|ticks| - 1].ts, HOUR, aligned), RawHorizon(ticks, keep);
    HourStep(ticks, keep, aligned, k);
    CollectedFrom(ticks, keep, aligned, k.series);
    FromSums(t, l, Raw, k.series, h, MaxInt(b, since), b + HOUR);
    FromSums(t, l, Raw, k.series, h, b, b + HOUR);
  }

  /** A tick that does not rewrite a bucket wrote nothing into it. */
  lemma QuietTick(ticks: seq<Tick>, keep: Retention, aligned: bool, s: Series, b: nat)
    requires Monotone(ticks) && ticks != [] && !Rewrites(ticks, keep, aligned, s, b)
    ensures SameRows(RunLog(ticks[..|ticks| - 1]), RunLog(ticks), Raw, s, b, b + HOUR)
  {
    hide RunLog, Start;
    var now := ticks[|ticks| - 1].ts;
    StartBounds(ticks, keep, aligned);
    if b <= now < b + HOUR && LastSample(ticks[|ticks| - 1].rows, s).Some? {
      SampleLogged(ticks, s);
      assert false;
    } else {
      LogUnchanged(ticks, s, b, b + HOUR);
    }
  }

  /** The first second whose hour rows the tick before the last left in the table. */
  function HourHorizon(ticks: seq<Tick>, keep: Retention): (h: int)
    ensures h >= 0
  {
    if |ticks| < 2 then 0 else MaxInt(0, ticks[|ticks| - 2].ts - keep.hourlyDays * DAY)
  }

  /** The bucket is a whole hour with a sample in it. */
  ghost predicate Sampled(l: Table, s: Series, b: nat) {
    b % HOUR == 0 && HasRow(l, Raw, s, b, b + HOUR)
  }

  /**
    Every hour row of every run, for any retention and either window: there is one exactly
    for the sampled hours inside hourly retention, and it holds the samples the last rollup
    to rewrite it could see.
   */
  lemma {:induction false} HourRows(ticks: seq<Tick>, keep: Retention, aligned: bool, k: Key)
    requires Monotone(ticks) && ticks != [] && k.tier == Hour
    ensures var l, s, b := RunLog(ticks), k.series, k.ts;
            && Get(Hourly(ticks, keep, aligned), k)
               == (if Sampled(l, s, b) && (Rewrites(ticks, keep, aligned, s, b) || b >= HourHorizon(ticks, keep))
                   then Some(PartialRow(l, s, b, Reached(ticks, keep, aligned, s, b))) else None)
            && Get(RunTable(ticks, keep, aligned), k)
               == (if Sampled(l, s, b) && Kept(k, ticks[|ticks| - 1].ts, keep)
                   then Some(PartialRow(l, s, b, Reached(ticks, keep, aligned, s, b))) else None)
  {
    hide RunLog, PartialRow, HasRow, LastReach, Hourly, Start, RunTable;
    var n := |ticks| - 1;
    var l, s, b, before := RunLog(ticks), k.series, k.ts, ticks[..n];
    HourRollup(ticks, keep, aligned, k);
    HourStep(ticks, keep, aligned, k);
    Within(l, Raw, s, b, b + HOUR, MaxInt(b, Start(ticks, keep, aligned)), b + HOUR);
    if n > 0 {
      assert ticks[n - 1].ts <= ticks[n].ts;
      HourRows(before, keep, aligned, k);
    }
    EmptyRun(keep, aligned);
    if !Rewrites(ticks, keep, aligned, s, b) {
      QuietTick(ticks, keep, aligned, s, b);
      SameSums(RunLog(before), l, Raw, s, b, b + HOUR);
      ReachBounds(before, keep, aligned, s, b);
      SamePartialRow(RunLog(before), l, s, b, Reached(before, keep, aligned, s, b));
      if n == 0 {
        NothingLogged(s, b, b + HOUR);
      }
    }
  }

  lemma NothingLogged(s: Series, lo: int, hi: int)
    ensures !HasRow(RunLog([]), Raw, s, lo, hi)
  {
  }
}
