/** How each statement of the metrics store changes the row stored under one key. */
module HistoryFacts {
  import opened Options
  import opened Positional
  import opened History

  function Get(t: Table, k: Key): Option<Row> {
    if k in t then Some(t[k]) else None
  }

  // -- sums over windows -----------------------------------------------------

  /** Two tables hold the same rows of a series in a window. */
  ghost predicate SameRows(t: Table, t': Table, tier: Tier, s: Series, lo: int, hi: int) {
    forall ts: nat :: lo <= ts < hi ==> Get(t, Key(tier, ts, s)) == Get(t', Key(tier, ts, s))
  }

  lemma {:induction false} SameSums(t: Table, t': Table, tier: Tier, s: Series, lo: int, hi: int)
    requires SameRows(t, t', tier, s, lo, hi)
    ensures Sum(t, tier, s, lo, hi) == Sum(t', tier, s, lo, hi)
    ensures LastDisk(t, tier, s, lo, hi) == LastDisk(t', tier, s, lo, hi)
    ensures HasRow(t, tier, s, lo, hi) == HasRow(t', tier, s, lo, hi)
    decreases hi - lo
  {
    if lo < hi {
      if hi - 1 >= 0 {
        assert Get(t, Key(tier, hi - 1, s)) == Get(t', Key(tier, hi - 1, s));
      }
      SameSums(t, t', tier, s, lo, hi - 1);
    }
    SameHasRow(t, t', tier, s, lo, hi);
    SameHasRow(t', t, tier, s, lo, hi);
  }

  lemma SameHasRow(t: Table, t': Table, tier: Tier, s: Series, lo: int, hi: int)
    requires SameRows(t, t', tier, s, lo, hi)
    ensures HasRow(t, tier, s, lo, hi) ==> HasRow(t', tier, s, lo, hi)
  {
    if ts: nat :| lo <= ts < hi && Key(tier, ts, s) in t {
      assert Get(t, Key(tier, ts, s)) == Get(t', Key(tier, ts, s));
    }
  }

  /** An empty window has no totals; a window with a row counts it. */
  lemma {:induction false} SumRows(t: Table, tier: Tier, s: Series, lo: int, hi: int)
    ensures Sum(t, tier, s, lo, hi).rows > 0 <==> HasRow(t, tier, s, lo, hi)
    ensures !HasRow(t, tier, s, lo, hi) ==> Sum(t, tier, s, lo, hi) == NO_ROWS
    ensures Sum(t, tier, s, lo, hi).rows == 0 ==> Sum(t, tier, s, lo, hi) == NO_ROWS
    decreases hi - lo
  {
    if lo < hi {
      SumRows(t, tier, s, lo, hi - 1);
      HasRowExtend(t, tier, s, lo, hi);
    }
  }

  lemma HasRowExtend(t: Table, tier: Tier, s: Series, lo: int, hi: int)
    requires lo < hi
    ensures HasRow(t, tier, s, lo, hi)
       <==> HasRow(t, tier, s, lo, hi - 1) || (hi - 1 >= 0 && Key(tier, hi - 1, s) in t)
  {
    if HasRow(t, tier, s, lo, hi) {
      var ts: nat :| lo <= ts < hi && Key(tier, ts, s) in t;
      if ts < hi - 1 {
        assert HasRow(t, tier, s, lo, hi - 1);
      }
    }
  }

  lemma HasRowSplit(t: Table, tier: Tier, s: Series, lo: int, mid: int, hi: int)
    requires lo <= mid <= hi
    ensures HasRow(t, tier, s, lo, hi) <==> HasRow(t, tier, s, lo, mid) || HasRow(t, tier, s, mid, hi)
  {
    if HasRow(t, tier, s, lo, hi) {
      var ts: nat :| lo <= ts < hi && Key(tier, ts, s) in t;
      assert ts < mid ==> HasRow(t, tier, s, lo, mid);
      assert ts >= mid ==> HasRow(t, tier, s, mid, hi);
    }
  }

  lemma PlusAssociates(a: Totals, b: Totals, c: Totals)
    ensures Plus(Plus(a, b), c) == Plus(a, Plus(b, c))
  {
  }

  /** The totals of a window are the totals of its two parts. */
  lemma {:induction false} SumSplit(t: Table, tier: Tier, s: Series, lo: int, mid: int, hi: int)
    requires lo <= mid <= hi
    ensures Sum(t, tier, s, lo, hi) == Plus(Sum(t, tier, s, lo, mid), Sum(t, tier, s, mid, hi))
    ensures LastDisk(t, tier, s, lo, hi)
         == if LastDisk(t, tier, s, mid, hi).Some? then LastDisk(t, tier, s, mid, hi) else LastDisk(t, tier, s, lo, mid)
    decreases hi - mid
  {
    hide Plus;
    if mid == hi {
      SumRows(t, tier, s, lo, mid);
      PlusNothing(Sum(t, tier, s, lo, mid));
    } else {
      SumSplit(t, tier, s, lo, mid, hi - 1);
      PlusAssociates(Sum(t, tier, s, lo, mid), Sum(t, tier, s, mid, hi - 1), At(t, tier, s, hi - 1));
    }
  }

  lemma PlusNothing(a: Totals)
    requires a.rows == 0 ==> a == NO_ROWS
    ensures Plus(a, NO_ROWS) == a && Plus(NO_ROWS, a) == a
  {
  }

  lemma SumsAdd(a: Totals, b: Totals)
    requires (a.rows == 0 ==> a == NO_ROWS) && (b.rows == 0 ==> b == NO_ROWS)
    ensures Plus(a, b).rx == a.rx + b.rx && Plus(a, b).tx == a.tx + b.tx && Plus(a, b).dt == a.dt + b.dt
    ensures Plus(a, b).cpuDt == a.cpuDt + b.cpuDt && Plus(a, b).ramDt == a.ramDt + b.ramDt
  {
  }

  /** Bytes, seconds and weighted sums of a window are those of its two parts. */
  lemma SumAdds(t: Table, tier: Tier, s: Series, lo: int, mid: int, hi: int)
    requires lo <= mid <= hi
    ensures var before, after, all := Sum(t, tier, s, lo, mid), Sum(t, tier, s, mid, hi), Sum(t, tier, s, lo, hi);
            && all.rx == before.rx + after.rx && all.tx == before.tx + after.tx && all.dt == before.dt + after.dt
            && all.cpuDt == before.cpuDt + after.cpuDt && all.ramDt == before.ramDt + after.ramDt
  {
    hide Sum, HasRow, Plus;
    SumSplit(t, tier, s, lo, mid, hi);
    SumRows(t, tier, s, lo, mid);
    SumRows(t, tier, s, mid, hi);
    SumsAdd(Sum(t, tier, s, lo, mid), Sum(t, tier, s, mid, hi));
  }

  /** Only the first timestamp of the window holds a row. */
  lemma OnlyFirst(t: Table, tier: Tier, s: Series, b: nat, hi: int)
    requires b < hi && !HasRow(t, tier, s, b + 1, hi)
    ensures Sum(t, tier, s, b, hi) == At(t, tier, s, b)
    ensures LastDisk(t, tier, s, b, hi) == DiskAt(t, tier, s, b)
  {
    hide Plus;
    SumSplit(t, tier, s, b, b + 1, hi);
    SumRows(t, tier, s, b + 1, hi);
    NoDisk(t, tier, s, b + 1, hi);
    assert Sum(t, tier, s, b, b) == NO_ROWS;
    assert Sum(t, tier, s, b, b + 1) == Plus(NO_ROWS, At(t, tier, s, b));
    PlusNothing(At(t, tier, s, b));
    assert LastDisk(t, tier, s, b, b + 1) == DiskAt(t, tier, s, b);
  }

  /** The peak columns of a window's totals: no row of it exceeds them, and some row reaches each. */
  ghost predicate Peaks(t: Table, tier: Tier, s: Series, lo: int, hi: int, cpu: real, ram: nat) {
    && (forall ts: nat :: lo <= ts < hi && Key(tier, ts, s) in t ==>
          t[Key(tier, ts, s)].cpuMax <= cpu && t[Key(tier, ts, s)].ramMax <= ram)
    && (exists ts: nat :: lo <= ts < hi && Key(tier, ts, s) in t && t[Key(tier, ts, s)].cpuMax == cpu)
    && (exists ts: nat :: lo <= ts < hi && Key(tier, ts, s) in t && t[Key(tier, ts, s)].ramMax == ram)
  }

  lemma {:induction false} SumPeaks(t: Table, tier: Tier, s: Series, lo: int, hi: int)
    requires HasRow(t, tier, s, lo, hi)
    ensures Peaks(t, tier, s, lo, hi, Sum(t, tier, s, lo, hi).cpuMax, Sum(t, tier, s, lo, hi).ramMax)
    decreases hi - lo
  {
    HasRowExtend(t, tier, s, lo, hi);
    SumRows(t, tier, s, lo, hi - 1);
    var before := Sum(t, tier, s, lo, hi - 1);
    if HasRow(t, tier, s, lo, hi - 1) {
      SumPeaks(t, tier, s, lo, hi - 1);
      var x: nat :| lo <= x < hi - 1 && Key(tier, x, s) in t && t[Key(tier, x, s)].cpuMax == before.cpuMax;
      var y: nat :| lo <= y < hi - 1 && Key(tier, y, s) in t && t[Key(tier, y, s)].ramMax == before.ramMax;
    }
  }

  /** A rolled-up row carries the peaks of the source rows it was made from. */
  lemma RolledPeaks(t: Table, src: Tier, s: Series, b: int, span: nat, since: int)
    requires HasRow(t, src, s, MaxInt(b, since), b + span)
    ensures var row := RolledRow(t, src, s, b, span, since);
            Peaks(t, src, s, MaxInt(b, since), b + span, row.cpuMax, row.ramMax)
  {
    hide Sum, HasRow, LastDisk, Peaks;
    SumPeaks(t, src, s, MaxInt(b, since), b + span);
  }

  lemma {:induction false} NoDisk(t: Table, tier: Tier, s: Series, lo: int, hi: int)
    requires !HasRow(t, tier, s, lo, hi)
    ensures LastDisk(t, tier, s, lo, hi) == None
    decreases hi - lo
  {
    if lo < hi {
      HasRowExtend(t, tier, s, lo, hi);
      NoDisk(t, tier, s, lo, hi - 1);
    }
  }

  /** Rows that cover no time carry no weight. */
  lemma {:induction false} NoTimeNoWeight(t: Table, tier: Tier, s: Series, lo: int, hi: int)
    requires Sum(t, tier, s, lo, hi).dt == 0
    ensures Sum(t, tier, s, lo, hi).cpuDt == 0.0 && Sum(t, tier, s, lo, hi).ramDt == 0
    decreases hi - lo
  {
    if lo < hi {
      NoTimeNoWeight(t, tier, s, lo, hi - 1);
    }
  }

  // -- windows and buckets ---------------------------------------------------

  lemma AlignUpFacts(x: int, span: nat)
    requires span > 0
    ensures x <= AlignUp(x, span) < x + span
    ensures AlignUp(x, span) % span == 0
  {
    var q := (x + span - 1) / span;
    assert x + span - 1 == span * q + (x + span - 1) % span;
    DivModUnique(q, span, 0);
  }

  lemma AlignUpMonotone(x: int, y: int, span: nat)
    requires span > 0 && x <= y
    ensures AlignUp(x, span) <= AlignUp(y, span)
  {
    hide AlignUp;
    AlignUpFacts(x, span);
    AlignUpFacts(y, span);
    MultiplesApart(AlignUp(y, span), AlignUp(x, span), span);
  }

  lemma FloorUnique(ts: nat, span: nat, b: nat)
    requires span > 0 && b % span == 0 && b <= ts < b + span
    ensures Floor(ts, span) == b
  {
    var q := b / span;
    DivModSum(b, span);
    DivModUnique(q, span, ts - b);
  }

  /**
    The documented window, rows whose bucket floor is at or after x, is the same query with
    the window start moved up to a bucket boundary.
   */
  lemma DocumentedWindow(ts: nat, x: int, span: nat)
    requires span > 0
    ensures Floor(ts, span) >= x <==> ts >= AlignUp(x, span)
  {
    var b, a := Floor(ts, span), AlignUp(x, span);
    AlignUpFacts(x, span);
    MultiplesApart(a, b, span);
    MultiplesApart(b, a, span);
  }

  /** Two multiples of span closer than span are in order. */
  lemma MultiplesApart(a: int, b: int, span: nat)
    requires span > 0 && a % span == 0 && b % span == 0
    ensures a < b ==> a + span <= b
  {
    var p, q := a / span, b / span;
    assert a == span * p && b == span * q;
    if q <= p {
      MulMono(q, p, span);
    } else {
      MulMono(p + 1, q, span);
      Distribute(p, 1, span);
    }
  }

  // -- statements ------------------------------------------------------------

  function LastSample(rows: seq<SampleRow>, s: Series): Option<SampleRow> {
    if rows == [] then None
    else if rows[|rows| - 1].series == s then Some(rows[|rows| - 1])
    else LastSample(rows[..|rows| - 1], s)
  }

  lemma {:induction false} WrittenAt(t: Table, ts: nat, dt: nat, rows: seq<SampleRow>, k: Key)
    ensures Get(Written(t, ts, dt, rows), k)
         == if k.tier == Raw && k.ts == ts && LastSample(rows, k.series).Some?
            then Some(RawRow(LastSample(rows, k.series).value, dt))
            else Get(t, k)
  {
    if rows != [] {
      WrittenAt(t, ts, dt, rows[..|rows| - 1], k);
    }
  }

  lemma GroupIff(t: Table, src: Tier, dst: Tier, span: nat, since: int, k: Key)
    requires span > 0
    ensures k in Groups(t, src, dst, span, since)
       <==> k.tier == dst && k.ts % span == 0 && HasRow(t, src, k.series, MaxInt(k.ts, since), k.ts + span)
  {
    if k in Groups(t, src, dst, span, since) {
      var j :| j in t && j.tier == src && j.ts >= since && Key(dst, Floor(j.ts, span), j.series) == k;
      assert HasRow(t, src, k.series, MaxInt(k.ts, since), k.ts + span) by {
        assert j == Key(src, j.ts, k.series);
      }
    }
    if k.tier == dst && k.ts % span == 0 && HasRow(t, src, k.series, MaxInt(k.ts, since), k.ts + span) {
      var ts: nat :| MaxInt(k.ts, since) <= ts < k.ts + span && Key(src, ts, k.series) in t;
      FloorUnique(ts, span, k.ts);
      var j := Key(src, ts, k.series);
      assert j in t && j.tier == src && j.ts >= since;
      assert Key(dst, Floor(j.ts, span), j.series) == k;
    }
  }

  /** A rollup replaces exactly the rows of the buckets that have a source row in the window. */
  lemma RolledAt(t: Table, src: Tier, dst: Tier, span: nat, since: int, k: Key)
    requires span > 0
    ensures Get(RolledInto(t, src, dst, span, since), k)
         == if k.tier == dst && k.ts % span == 0 && HasRow(t, src, k.series, MaxInt(k.ts, since), k.ts + span)
            then Some(RolledRow(t, src, k.series, k.ts, span, since))
            else Get(t, k)
  {
    GroupIff(t, src, dst, span, since, k);
  }

  lemma PrunedAt(t: Table, now: nat, keep: Retention, k: Key)
    ensures Get(Pruned(t, now, keep), k) == if Kept(k, now, keep) then Get(t, k) else None
    ensures Kept(k, now, keep) <==> now - k.ts <= match k.tier
                                                  case Raw => keep.rawHours * 3600
                                                  case Hour => keep.hourlyDays * 86400
                                                  case Day => keep.dailyDays * 86400
  {
  }
}
