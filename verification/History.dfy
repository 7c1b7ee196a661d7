/**
  The tiered metrics table of argus/web/history.py: raw samples, hour rows and day rows in
  one table keyed by (tier, ts, net, bucket).
 */
module History {
  import opened Options
  import opened Positional

  const HOUR: nat := 3600
  const DAY: nat := 86400

  datatype Tier = Raw | Hour | Day

  /** One (net, bucket) time series. */
  datatype Series = Series(net: string, bucket: string)

  datatype Key = Key(tier: Tier, ts: nat, series: Series)

  datatype Row = Row(
    cpuAvg: real, cpuMax: real, ramAvg: nat, ramMax: nat,
    disk: Option<nat>, rx: nat, tx: nat, dt: nat)

  type Table = map<Key, Row>

  datatype SampleRow = SampleRow(
    series: Series, cpu: real, ram: nat, disk: Option<nat>, rx: nat, tx: nat)

  datatype Retention = Retention(rawHours: nat, hourlyDays: nat, dailyDays: nat)

  // -- aggregation -----------------------------------------------------------

  /** The SQL aggregates of a group of rows. */
  datatype Totals = Totals(
    rows: nat, rx: nat, tx: nat, dt: nat, cpuDt: real, ramDt: nat, cpuMax: real, ramMax: nat)

  const NO_ROWS := Totals(0, 0, 0, 0, 0.0, 0, 0.0, 0)

  function Single(row: Row): Totals {
    Totals(1, row.rx, row.tx, row.dt, row.cpuAvg * row.dt as real, row.ramAvg * row.dt, row.cpuMax, row.ramMax)
  }

  function MaxReal(x: real, y: real): real {
    if x < y then y else x
  }

  function MaxInt(x: int, y: int): int {
    if x < y then y else x
  }

  function Plus(a: Totals, b: Totals): Totals {
    if a.rows == 0 then b
    else if b.rows == 0 then a
    else
      Totals(a.rows + b.rows, a.rx + b.rx, a.tx + b.tx, a.dt + b.dt, a.cpuDt + b.cpuDt, a.ramDt + b.ramDt,
             MaxReal(a.cpuMax, b.cpuMax), MaxInt(a.ramMax, b.ramMax))
  }

  /** The contribution of one timestamp. */
  function At(t: Table, tier: Tier, s: Series, ts: int): Totals {
    if ts >= 0 && Key(tier, ts, s) in t then Single(t[Key(tier, ts, s)]) else NO_ROWS
  }

  /** The aggregates of the rows of a series with lo <= ts < hi. */
  function Sum(t: Table, tier: Tier, s: Series, lo: int, hi: int): Totals
    decreases hi - lo
  {
    if hi <= lo then NO_ROWS else Plus(Sum(t, tier, s, lo, hi - 1), At(t, tier, s, hi - 1))
  }

  ghost predicate HasRow(t: Table, tier: Tier, s: Series, lo: int, hi: int) {
    exists ts: nat :: lo <= ts < hi && Key(tier, ts, s) in t
  }

  function DiskAt(t: Table, tier: Tier, s: Series, ts: int): Option<nat> {
    if ts >= 0 && Key(tier, ts, s) in t then t[Key(tier, ts, s)].disk else None
  }

  /** The latest disk reading with lo <= ts < hi, skipping rows without one. */
  function LastDisk(t: Table, tier: Tier, s: Series, lo: int, hi: int): Option<nat>
    decreases hi - lo
  {
    if hi <= lo then None
    else if DiskAt(t, tier, s, hi - 1).Some? then DiskAt(t, tier, s, hi - 1)
    else LastDisk(t, tier, s, lo, hi - 1)
  }

  function Floor(ts: nat, span: nat): (b: nat)
    requires span > 0
    ensures b <= ts < b + span && b % span == 0
  {
    DivModUnique(ts / span, span, 0);
    DivModSum(ts, span);
    ts / span * span
  }

  /** The row the rollup writes for the bucket at b, from source rows with ts >= since. */
  function RolledRow(t: Table, src: Tier, s: Series, b: int, span: nat, since: int): Row {
    var a := Sum(t, src, s, MaxInt(b, since), b + span);
    Row(if a.dt > 0 then a.cpuDt / a.dt as real else 0.0, a.cpuMax,
        if a.dt > 0 then a.ramDt / a.dt else 0, a.ramMax,
        LastDisk(t, src, s, b, b + span), a.rx, a.tx, a.dt)
  }

  /** The groups of the rollup query: one per destination bucket with a source row. */
  function Groups(t: Table, src: Tier, dst: Tier, span: nat, since: int): set<Key>
    requires span > 0
  {
    set k | k in t && k.tier == src && k.ts >= since :: Key(dst, Floor(k.ts, span), k.series)
  }

  function RolledInto(t: Table, src: Tier, dst: Tier, span: nat, since: int): Table
    requires span > 0
  {
    t + map k | k in Groups(t, src, dst, span, since) :: RolledRow(t, src, k.series, k.ts, span, since)
  }

  /** The first multiple of span at or after x. */
  function AlignUp(x: int, span: nat): int
    requires span > 0
  {
    (x + span - 1) / span * span
  }

  /**
    Where a rollup window starts: two spans back, as coded; or, as the source documents it,
    at the first bucket whose floor lies in the window.
   */
  function Since(now: nat, span: nat, aligned: bool): int
    requires span > 0
  {
    if aligned then AlignUp(now - 2 * span, span) else now - 2 * span
  }

  function RolledUp(t: Table, now: nat, aligned: bool): Table {
    var hours := RolledInto(t, Raw, Hour, HOUR, Since(now, HOUR, aligned));
    RolledInto(hours, Hour, Day, DAY, Since(now, DAY, aligned))
  }

  function RawRow(r: SampleRow, dt: nat): Row {
    Row(r.cpu, r.cpu, r.ram, r.ram, r.disk, r.rx, r.tx, dt)
  }

  function Written(t: Table, ts: nat, dt: nat, rows: seq<SampleRow>): Table {
    if rows == [] then t
    else Written(t, ts, dt, rows[..|rows| - 1])[Key(Raw, ts, rows[|rows| - 1].series) := RawRow(rows[|rows| - 1], dt)]
  }

  predicate Kept(k: Key, now: nat, keep: Retention) {
    match k.tier
    case Raw => k.ts >= now - keep.rawHours * HOUR
    case Hour => k.ts >= now - keep.hourlyDays * DAY
    case Day => k.ts >= now - keep.dailyDays * DAY
  }

  function Pruned(t: Table, now: nat, keep: Retention): Table {
    map k | k in t && Kept(k, now, keep) :: t[k]
  }

  /** DELETE of a tier's rows before a cutoff. */
  function Deleted(t: Table, tier: Tier, cutoff: int): Table {
    map k | k in t && !(k.tier == tier && k.ts < cutoff) :: t[k]
  }

  /** The store: one table, changed in place by the statements of the writer. */
  class HistoryStore {
    var metric: Table

    constructor ()
      ensures metric == map[]
    {
      metric := map[];
    }

    method WriteSamples(ts: nat, dt: nat, rows: seq<SampleRow>)
      modifies this
      ensures metric == Written(old(metric), ts, dt, rows)
    {
      var n := 0;
      while n < |rows|
        invariant 0 <= n <= |rows|
        invariant metric == Written(old(metric), ts, dt, rows[..n])
      {
        assert rows[..n + 1][..n] == rows[..n];
        metric := metric[Key(Raw, ts, rows[n].series) := RawRow(rows[n], dt)];
        n := n + 1;
      }
      assert rows[..n] == rows;
    }

    method RollupInto(src: Tier, dst: Tier, span: nat, since: int)
      requires span > 0
      modifies this
      ensures metric == RolledInto(old(metric), src, dst, span, since)
    {
      metric := metric + map k | k in Groups(metric, src, dst, span, since)
                         :: RolledRow(metric, src, k.series, k.ts, span, since);
    }

    method Rollup(now: nat)
      modifies this
      ensures metric == RolledUp(old(metric), now, false)
      ensures metric == RolledInto(RolledInto(old(metric), Raw, Hour, 3600, now - 7200), Hour, Day, 86400, now - 172800)
    {
      RollupInto(Raw, Hour, HOUR, now - 2 * HOUR);
      RollupInto(Hour, Day, DAY, now - 2 * DAY);
    }

    method Prune(now: nat, keep: Retention)
      modifies this
      ensures metric == Pruned(old(metric), now, keep)
    {
      ghost var before := metric;
      metric := Deleted(metric, Raw, now - keep.rawHours * HOUR);
      metric := Deleted(metric, Hour, now - keep.hourlyDays * DAY);
      metric := Deleted(metric, Day, now - keep.dailyDays * DAY);
      ThreeDeletes(before, now, keep);
    }
  }

  lemma ThreeDeletes(t: Table, now: nat, keep: Retention)
    ensures Deleted(Deleted(Deleted(t, Raw, now - keep.rawHours * HOUR), Hour, now - keep.hourlyDays * DAY),
                    Day, now - keep.dailyDays * DAY)
         == Pruned(t, now, keep)
  {
    hide *;
    var a := Deleted(t, Raw, now - keep.rawHours * HOUR);
    var b := Deleted(a, Hour, now - keep.hourlyDays * DAY);
    var c := Deleted(b, Day, now - keep.dailyDays * DAY);
    forall k
      ensures k in c <==> k in Pruned(t, now, keep)
      ensures k in c && k in Pruned(t, now, keep) ==> c[k] == Pruned(t, now, keep)[k]
    {
      DeletedAt(t, Raw, now - keep.rawHours * HOUR, k);
      DeletedAt(a, Hour, now - keep.hourlyDays * DAY, k);
      DeletedAt(b, Day, now - keep.dailyDays * DAY, k);
      KeptAt(t, now, keep, k);
    }
  }

  lemma DeletedAt(t: Table, tier: Tier, cutoff: int, k: Key)
    ensures k in Deleted(t, tier, cutoff) <==> k in t && !(k.tier == tier && k.ts < cutoff)
    ensures k in Deleted(t, tier, cutoff) ==> Deleted(t, tier, cutoff)[k] == t[k]
  {
  }

  lemma KeptAt(t: Table, now: nat, keep: Retention, k: Key)
    ensures k in Pruned(t, now, keep) <==>
              k in t && match k.tier
                        case Raw => k.ts >= now - keep.rawHours * HOUR
                        case Hour => k.ts >= now - keep.hourlyDays * DAY
                        case Day => k.ts >= now - keep.dailyDays * DAY
    ensures k in Pruned(t, now, keep) ==> Pruned(t, now, keep)[k] == t[k]
  {
  }

  // -- whole runs ------------------------------------------------------------

  datatype Tick = Tick(ts: nat, dt: nat, rows: seq<SampleRow>)

  /** Write, roll up, prune: the order of the sampler's tick. */
  function Ticked(t: Table, tick: Tick, keep: Retention, aligned: bool): Table {
    Pruned(RolledUp(Written(t, tick.ts, tick.dt, tick.rows), tick.ts, aligned), tick.ts, keep)
  }

  function RunTable(ticks: seq<Tick>, keep: Retention, aligned: bool): Table {
    if ticks == [] then map[]
    else Ticked(RunTable(ticks[..|ticks| - 1], keep, aligned), ticks[|ticks| - 1], keep, aligned)
  }

  /** Every raw row ever written, never pruned. */
  function RunLog(ticks: seq<Tick>): Table {
    if ticks == [] then map[]
    else
      var last := ticks[|ticks| - 1];
      Written(RunLog(ticks[..|ticks| - 1]), last.ts, last.dt, last.rows)
  }

  predicate Monotone(ticks: seq<Tick>) {
    forall i, j :: 0 <= i < j < |ticks| ==> ticks[i].ts <= ticks[j].ts
  }

  /** A store driven through the ticks of a run ends in the run's table. */
  method Drive(ticks: seq<Tick>, keep: Retention) returns (store: HistoryStore)
    ensures fresh(store) && store.metric == RunTable(ticks, keep, false)
  {
    store := new HistoryStore();
    var n := 0;
    while n < |ticks|
      invariant 0 <= n <= |ticks|
      invariant fresh(store) && store.metric == RunTable(ticks[..n], keep, false)
    {
      assert ticks[..n + 1][..n] == ticks[..n];
      store.WriteSamples(ticks[n].ts, ticks[n].dt, ticks[n].rows);
      store.Rollup(ticks[n].ts);
      store.Prune(ticks[n].ts, keep);
      n := n + 1;
    }
    assert ticks[..n] == ticks;
  }
}
