/**
  Day rows: two rollups on, they still hold the sums and peaks of every sample of the day,
  the exact weighted mean of the processor load and the memory mean up to rounding.
 */
module HistoryDays {
  import opened Options
  import opened Positional
  import opened History
  import opened HistoryFacts
  import opened HistoryRuns

  /** Totals of hour rows against totals of the raw rows they were rolled up from. */
  predicate Coarser(h: Totals, r: Totals) {
    && (h.rows == 0 <==> r.rows == 0)
    && h.rx == r.rx && h.tx == r.tx && h.dt == r.dt && h.cpuDt == r.cpuDt
    && h.cpuMax == r.cpuMax && h.ramMax == r.ramMax
    && h.ramDt <= r.ramDt
    && (if r.dt > 0 then r.ramDt < h.ramDt + r.dt else r.ramDt == 0)
  }

  lemma CoarserPlus(h: Totals, r: Totals, h': Totals, r': Totals)
    requires Coarser(h, r) && Coarser(h', r')
    requires h.rows == 0 ==> h == NO_ROWS && r == NO_ROWS
    requires h'.rows == 0 ==> h' == NO_ROWS && r' == NO_ROWS
    ensures Coarser(Plus(h, h'), Plus(r, r'))
  {
  }

  /** A mean times its weight gives the weighted sum back; an integer mean loses a fraction. */
  lemma MeanTimesWeight(total: nat, weight: nat)
    requires weight > 0
    ensures total / weight * weight <= total < total / weight * weight + weight
  {
    DivModSum(total, weight);
  }

  lemma RealMean(total: real, weight: nat)
    requires weight > 0
    ensures total / weight as real * weight as real == total
  {
  }

  /** One exact hour row against the raw rows of its hour. */
  lemma HourRowCoarser(l: Table, s: Series, b: nat)
    requires HasRow(l, Raw, s, b, b + HOUR)
    ensures Coarser(Single(RolledRow(l, Raw, s, b, HOUR, b)), Sum(l, Raw, s, b, b + HOUR))
  {
    hide Sum, LastDisk;
    var a := Sum(l, Raw, s, b, b + HOUR);
    SumRows(l, Raw, s, b, b + HOUR);
    if a.dt > 0 {
      RealMean(a.cpuDt, a.dt);
      MeanTimesWeight(a.ramDt, a.dt);
    } else {
      NoTimeNoWeight(l, Raw, s, b, b + HOUR);
    }
  }

  /** The hour rows of t from d on are exact and complete for n hours, and aligned. */
  ghost predicate ExactHours(t: Table, l: Table, s: Series, d: nat, n: nat) {
    forall ts: nat :: d <= ts < d + n * HOUR ==>
      Get(t, Key(Hour, ts, s))
      == if ts % HOUR == 0 && HasRow(l, Raw, s, ts, ts + HOUR) then Some(RolledRow(l, Raw, s, ts, HOUR, ts)) else None
  }

  /** One hour of exact hour rows. */
  lemma OneHour(t: Table, l: Table, s: Series, b: nat)
    requires b % HOUR == 0 && ExactHours(t, l, s, b, 1)
    ensures Coarser(Sum(t, Hour, s, b, b + HOUR), Sum(l, Raw, s, b, b + HOUR))
    ensures LastDisk(t, Hour, s, b, b + HOUR) == LastDisk(l, Raw, s, b, b + HOUR)
  {
    hide Sum, LastDisk, HasRow, RolledRow, Coarser, Single;
    assert Get(t, Key(Hour, b, s))
        == if HasRow(l, Raw, s, b, b + HOUR) then Some(RolledRow(l, Raw, s, b, HOUR, b)) else None;
    NoRowsInsideHour(t, l, s, b);
    OnlyFirst(t, Hour, s, b, b + HOUR);
    SumRows(l, Raw, s, b, b + HOUR);
    if HasRow(l, Raw, s, b, b + HOUR) {
      HourRowCoarser(l, s, b);
      RolledDisk(l, s, b);
    } else {
      NothingCoarser();
      NoDisk(l, Raw, s, b, b + HOUR);
    }
  }

  lemma RolledDisk(l: Table, s: Series, b: nat)
    ensures RolledRow(l, Raw, s, b, HOUR, b).disk == LastDisk(l, Raw, s, b, b + HOUR)
  {
  }

  lemma NothingCoarser()
    ensures Coarser(NO_ROWS, NO_ROWS)
  {
  }

  lemma NoRowsInsideHour(t: Table, l: Table, s: Series, b: nat)
    requires b % HOUR == 0 && ExactHours(t, l, s, b, 1)
    ensures !HasRow(t, Hour, s, b + 1, b + HOUR)
  {
    hide RolledRow;
    forall ts: nat | b + 1 <= ts < b + HOUR ensures Key(Hour, ts, s) !in t {
      assert Get(t, Key(Hour, ts, s)) == None;
    }
  }

  /** Regrouping: n hours of hour rows carry what the raw rows of those hours carry. */
  lemma {:induction false} Regrouped(t: Table, l: Table, s: Series, d: nat, n: nat)
    requires d % HOUR == 0 && ExactHours(t, l, s, d, n)
    ensures Coarser(Sum(t, Hour, s, d, d + n * HOUR), Sum(l, Raw, s, d, d + n * HOUR))
    ensures LastDisk(t, Hour, s, d, d + n * HOUR) == LastDisk(l, Raw, s, d, d + n * HOUR)
  {
    hide Sum, LastDisk, HasRow, RolledRow, Coarser, Plus;
    if n == 0 {
      EmptyWindow(t, Hour, s, d, d);
      EmptyWindow(l, Raw, s, d, d);
      NothingCoarser();
    } else {
      var mid := d + (n - 1) * HOUR;
      Regrouped(t, l, s, d, n - 1);
      OneHour(t, l, s, mid);
      SumSplit(t, Hour, s, d, mid, mid + HOUR);
      SumSplit(l, Raw, s, d, mid, mid + HOUR);
      SumRows(t, Hour, s, d, mid);
      SumRows(l, Raw, s, d, mid);
      SumRows(t, Hour, s, mid, mid + HOUR);
      SumRows(l, Raw, s, mid, mid + HOUR);
      CoarserRows(Sum(t, Hour, s, d, mid), Sum(l, Raw, s, d, mid));
      CoarserRows(Sum(t, Hour, s, mid, mid + HOUR), Sum(l, Raw, s, mid, mid + HOUR));
      CoarserPlus(Sum(t, Hour, s, d, mid), Sum(l, Raw, s, d, mid),
                  Sum(t, Hour, s, mid, mid + HOUR), Sum(l, Raw, s, mid, mid + HOUR));
    }
  }

  lemma CoarserRows(h: Totals, r: Totals)
    requires Coarser(h, r)
    ensures h.rows == 0 <==> r.rows == 0
  {
  }

  /** What a day row of day d must say about the log. */
  ghost predicate TrueDay(row: Row, l: Table, s: Series, d: nat) {
    var a := Sum(l, Raw, s, d, d + DAY);
    && row.rx == a.rx && row.tx == a.tx && row.dt == a.dt
    && row.cpuMax == a.cpuMax && row.ramMax == a.ramMax
    && row.cpuAvg * a.dt as real == a.cpuDt
    && (a.dt > 0 ==> row.ramAvg * a.dt <= a.ramDt < (row.ramAvg + 2) * a.dt)
    && row.disk == LastDisk(l, Raw, s, d, d + DAY)
  }

  /** The two rounded-down means are together less than two below the true mean. */
  lemma TwoRoundings(h: nat, r: nat, weight: nat)
    requires weight > 0 && h <= r < h + weight
    ensures h / weight * weight <= r < (h / weight + 2) * weight
  {
    MeanTimesWeight(h, weight);
    Distribute(h / weight, 2, weight);
  }

  /** Rolling exact hours up into a day row, when the window leaves no hour row out. */
  lemma DayFromExactHours(t: Table, l: Table, s: Series, d: nat, since: int)
    requires d % DAY == 0 && ExactHours(t, l, s, d, 24) && !HasRow(t, Hour, s, d, since)
    ensures TrueDay(RolledRow(t, Hour, s, d, DAY, since), l, s, d)
  {
    hide Sum, LastDisk, HasRow, ExactHours;
    Regrouped(t, l, s, d, 24);
    FromFirstRow(t, s, d, since);
    var h, r := Sum(t, Hour, s, d, d + DAY), Sum(l, Raw, s, d, d + DAY);
    if r.dt > 0 {
      RealMean(h.cpuDt, h.dt);
      TwoRoundings(h.ramDt, r.ramDt, r.dt);
    } else {
      NoTimeNoWeight(l, Raw, s, d, d + DAY);
    }
  }

  /** A window that starts before the first row of the day has the totals of the day. */
  lemma FromFirstRow(t: Table, s: Series, d: nat, since: int)
    requires !HasRow(t, Hour, s, d, since)
    ensures Sum(t, Hour, s, MaxInt(d, since), d + DAY) == Sum(t, Hour, s, d, d + DAY)
  {
    hide Sum;
    if d < since <= d + DAY {
      SumSplit(t, Hour, s, d, since, d + DAY);
      SumRows(t, Hour, s, d, since);
      SumRows(t, Hour, s, since, d + DAY);
      PlusNothing(Sum(t, Hour, s, since, d + DAY));
    } else if d + DAY < since {
      EmptyWindow(t, Hour, s, since, d + DAY);
      Within(t, Hour, s, d, since, d, d + DAY);
      SumRows(t, Hour, s, d, d + DAY);
    }
  }

  /** How one tick changes the day row of a bucket. */
  lemma DayStep(ticks: seq<Tick>, keep: Retention, aligned: bool, k: Key)
    requires ticks != [] && k.tier == Day
    ensures Get(RunTable(ticks, keep, aligned), k)
         == (var t, since := Hourly(ticks, keep, aligned), Since(ticks[|ticks| - 1].ts, DAY, aligned);
             if !Kept(k, ticks[|ticks| - 1].ts, keep) then None
             else if k.ts % DAY == 0 && HasRow(t, Hour, k.series, MaxInt(k.ts, since), k.ts + DAY)
             then Some(RolledRow(t, Hour, k.series, k.ts, DAY, since))
             else Get(RunTable(ticks[..|ticks| - 1], keep, aligned), k))
  {
    hide RolledInto, RolledRow, HasRow, Written;
    var n := |ticks| - 1;
    var last := ticks[n];
    var t := Collected(ticks, keep, aligned);
    WrittenAt(RunTable(ticks[..n], keep, aligned), last.ts, last.dt, last.rows, k);
    RolledAt(t, Raw, Hour, HOUR, Since(last.ts, HOUR, aligned), k);
    RolledAt(Hourly(ticks, keep, aligned), Hour, Day, DAY, Since(last.ts, DAY, aligned), k);
    PrunedAt(RolledUp(t, last.ts, aligned), last.ts, keep, k);
  }
}
