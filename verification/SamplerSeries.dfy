/**
  From the containers' counters to the kept rows: the bytes a row holds for a series are at
  most those its containers moved between the ticks of its hour or day.
 */
module SamplerSeries {
  import opened Options
  import opened History
  import opened HistoryFacts
  import opened HistoryWindow
  import opened HistorySamples
  import opened Counters = Sampler

  // -- one reading -----------------------------------------------------------------------

  /** The bytes that the named containers moved. */
  function MovedBy(steps: seq<Step>, names: set<string>): nat {
    if steps == [] then 0
    else
      var step := steps[|steps| - 1];
      MovedBy(steps[..|steps| - 1], names) + if step.Move? && step.name in names then step.bytes else 0
  }

  lemma {:induction false} MovedByConcat(steps: seq<Step>, more: seq<Step>, names: set<string>)
    ensures MovedBy(steps + more, names) == MovedBy(steps, names) + MovedBy(more, names)
  {
    if more == [] {
      assert steps + more == steps;
    } else {
      var n := |more| - 1;
      assert (steps + more)[..|steps| + n] == steps + more[..n];
      MovedByConcat(steps, more[..n], names);
    }
  }

  lemma {:induction false} MovedByWithout(steps: seq<Step>, names: set<string>, name: string)
    requires name in names
    ensures MovedBy(steps, names) == MovedBy(steps, names - {name}) + MovedBy(steps, {name})
  {
    if steps != [] {
      MovedByWithout(steps[..|steps| - 1], names, name);
    }
  }

  /** Where the steps after the last reading start. */
  function LastRead(steps: seq<Step>): (n: nat)
    ensures n <= |steps|
  {
    if steps == [] then 0 else if steps[|steps| - 1].Read? then |steps| else LastRead(steps[..|steps| - 1])
  }

  /** What has happened since the last reading. */
  function Fresh(steps: seq<Step>): seq<Step> {
    steps[LastRead(steps)..]
  }

  lemma FreshStep(steps: seq<Step>)
    requires steps != []
    ensures var last := steps[|steps| - 1];
            Fresh(steps) == if last.Read? then [] else Fresh(steps[..|steps| - 1]) + [last]
  {
  }

  /** The baseline lags behind the counter by no more than the recent bytes. */
  predicate Lags(m: Meter, recent: nat) {
    m.last.Some? ==> m.counter <= recent + if m.last.value <= m.counter then m.last.value else 0
  }

  lemma LagsStep(m: Meter, step: Step, name: string, recent: nat)
    requires Lags(m, recent)
    ensures var m' := After(m, EventFor(step, name));
            && (step.Read? ==> Lags(m', 0))
            && Lags(m', recent + if step.Move? && step.name == name then step.bytes else 0)
  {
    hide SampleOf, Delta;
  }

  lemma MovedByOne(step: Step, name: string)
    ensures MovedBy([step], {name}) == if step.Move? && step.name == name then step.bytes else 0
  {
    assert [step][..0] == [];
  }

  /** A baseline lags behind its counter by no more than what moved since the last reading. */
  lemma {:induction false} BaselineGap(steps: seq<Step>, name: string, start: nat)
    ensures Lags(Metered(start, EventsFor(steps, name)), MovedBy(Fresh(steps), {name}))
  {
    hide Lags, After, EventFor, Fresh, LastRead, MovedBy;
    if steps == [] {
      Unread(start, MovedBy(Fresh([]), {name}));
    } else {
      var n := |steps| - 1;
      assert EventsFor(steps, name)[..n] == EventsFor(steps[..n], name);
      BaselineGap(steps[..n], name, start);
      FreshStep(steps);
      LagsStep(Metered(start, EventsFor(steps[..n], name)), steps[n], name, MovedBy(Fresh(steps[..n]), {name}));
      MovedByConcat(Fresh(steps[..n]), [steps[n]], {name});
      MovedByOne(steps[n], name);
      MovedByNone({name});
    }
  }

  lemma Unread(start: nat, recent: nat)
    ensures Lags(Metered(start, []), recent)
  {
  }

  lemma MovedByNone(names: set<string>)
    ensures MovedBy([], names) == 0
  {
  }

  /** Every reading of every container is its true counter. */
  ghost predicate AllFaithful(steps: seq<Step>, start: string -> nat) {
    forall name :: Faithful(steps, name, start(name))
  }

  lemma AllFaithfulPrefix(steps: seq<Step>, start: string -> nat)
    requires steps != [] && AllFaithful(steps, start)
    ensures AllFaithful(steps[..|steps| - 1], start)
  {
    hide Faithful;
    forall name ensures Faithful(steps[..|steps| - 1], name, start(name)) {
      FaithfulPrefix(steps, name, start(name));
    }
  }

  lemma NamesDistinct(steps: seq<Step>, start: string -> nat)
    requires steps != [] && steps[|steps| - 1].Read? && AllFaithful(steps, start)
    ensures DistinctNames(steps[|steps| - 1].samples)
  {
    assert Faithful(steps, "", start(""));
  }

  lemma {:induction false} SampleAt(samples: seq<ContainerSample>, i: nat)
    requires DistinctNames(samples) && i < |samples| && samples[i].hasNet
    ensures SampleOf(samples, samples[i].name) == Some(samples[i])
  {
    if i < |samples| - 1 {
      SampleAt(samples[..|samples| - 1], i);
    }
  }

  /** A sample is credited with at most what its container moved since the last reading. */
  lemma SampleAtMost(steps: seq<Step>, i: nat, start: string -> nat)
    requires steps != [] && steps[|steps| - 1].Read? && i < |steps[|steps| - 1].samples| && AllFaithful(steps, start)
    ensures var n := |steps| - 1;
            var sample := steps[n].samples[i];
            DeltaOf(sample, Baselines(steps[..n])) <= MovedBy(Fresh(steps[..n]), {sample.name})
  {
    hide Metered, SampleOf, Fresh, Baselines, DistinctNames, Steady;
    var n := |steps| - 1;
    var sample := steps[n].samples[i];
    var name := sample.name;
    assert Faithful(steps, name, start(name));
    if sample.hasNet {
      SampleAt(steps[n].samples, i);
      FaithfulPrefix(steps, name, start(name));
      BaselineGap(steps[..n], name, start(name));
      SamplerNeverOvercounts(steps[..n], name, start(name));
      assert EventsFor(steps, name)[..n] == EventsFor(steps[..n], name);
    }
  }

  /** Distinct containers share out what was moved. */
  lemma {:induction false} SharedOut(samples: seq<ContainerSample>, last: map<string, nat>, s: Series,
                                     names: set<string>, recent: seq<Step>)
    requires DistinctNames(samples)
    requires forall i :: 0 <= i < |samples| ==> DeltaOf(samples[i], last) <= MovedBy(recent, {samples[i].name})
    requires forall i :: 0 <= i < |samples| && samples[i].series == s ==> samples[i].name in names
    ensures DeltasOf(samples, last, s) <= MovedBy(recent, names)
  {
    hide DeltaOf, MovedBy;
    if samples != [] {
      var n := |samples| - 1;
      if samples[n].series == s {
        SharedOut(samples[..n], last, s, names - {samples[n].name}, recent);
        MovedByWithout(recent, names, samples[n].name);
      } else {
        SharedOut(samples[..n], last, s, names, recent);
      }
    }
  }

  /** Only the named containers are ever read for the series. */
  predicate ReadFrom(steps: seq<Step>, s: Series, names: set<string>) {
    forall i, j :: 0 <= i < |steps| && steps[i].Read? && 0 <= j < |steps[i].samples| && steps[i].samples[j].series == s
                   ==> steps[i].samples[j].name in names
  }

  /** One tick credits a series with at most what its containers moved since the tick before. */
  lemma ReadingAtMost(steps: seq<Step>, s: Series, names: set<string>, start: string -> nat)
    requires steps != [] && steps[|steps| - 1].Read? && AllFaithful(steps, start) && ReadFrom(steps, s, names)
    ensures var n := |steps| - 1;
            DeltasOf(steps[n].samples, Baselines(steps[..n]), s) <= MovedBy(Fresh(steps[..n]), names)
  {
    hide DeltaOf, MovedBy, Fresh, Baselines, SampleOf, Metered;
    var n := |steps| - 1;
    var samples, last, recent := steps[n].samples, Baselines(steps[..n]), Fresh(steps[..n]);
    NamesDistinct(steps, start);
    forall i | 0 <= i < |samples| ensures DeltaOf(samples[i], last) <= MovedBy(recent, {samples[i].name}) {
      SampleAtMost(steps, i, start);
    }
    SharedOut(samples, last, s, names, recent);
  }

  // -- the readings of a window ----------------------------------------------------------

  /** The bytes that the readings with lo <= ts < hi credit to a series. */
  function Credited(steps: seq<Step>, s: Series, lo: int, hi: int): nat {
    if steps == [] then 0
    else
      var n := |steps| - 1;
      Credited(steps[..n], s, lo, hi)
      + if steps[n].Read? && lo <= steps[n].ts < hi then DeltasOf(steps[n].samples, Baselines(steps[..n]), s) else 0
  }

  /** Where the steps after the last reading before a second start. */
  function Mark(steps: seq<Step>, t: int): (n: nat)
    ensures n <= |steps|
  {
    if steps == [] then 0
    else if steps[|steps| - 1].Read? && steps[|steps| - 1].ts < t then |steps|
    else Mark(steps[..|steps| - 1], t)
  }

  /** Readings in the order of the clock. */
  predicate InOrder(steps: seq<Step>) {
    forall i, j :: 0 <= i < j < |steps| && steps[i].Read? && steps[j].Read? ==> steps[i].ts <= steps[j].ts
  }

  predicate ReadBefore(steps: seq<Step>, t: int) {
    forall i :: 0 <= i < |steps| && steps[i].Read? ==> steps[i].ts < t
  }

  lemma {:induction false} MarkLast(steps: seq<Step>, t: int)
    requires ReadBefore(steps, t)
    ensures Mark(steps, t) == LastRead(steps)
  {
    if steps != [] {
      MarkLast(steps[..|steps| - 1], t);
    }
  }

  lemma {:induction false} MarksInOrder(steps: seq<Step>, lo: int, hi: int)
    requires lo <= hi
    ensures Mark(steps, lo) <= Mark(steps, hi)
  {
    if steps != [] {
      MarksInOrder(steps[..|steps| - 1], lo, hi);
    }
  }

  /** What happened between the last reading before lo and the last one before hi. */
  function Between(steps: seq<Step>, lo: int, hi: int): seq<Step>
    requires lo <= hi
  {
    MarksInOrder(steps, lo, hi);
    steps[Mark(steps, lo)..Mark(steps, hi)]
  }

  lemma BetweenStep(steps: seq<Step>, lo: int, hi: int)
    requires steps != [] && lo <= hi && InOrder(steps)
    ensures var n := |steps| - 1;
            var before := Between(steps[..n], lo, hi);
            Between(steps, lo, hi)
            == if steps[n].Read? && lo <= steps[n].ts < hi then before + Fresh(steps[..n]) + [steps[n]] else before
  {
    hide Mark, LastRead;
    var n := |steps| - 1;
    var init, last := steps[..n], steps[n];
    MarkStep(steps, lo);
    MarkStep(steps, hi);
    MarksInOrder(init, lo, hi);
    MarksInOrder(steps, lo, hi);
    if last.Read? && last.ts < hi {
      EarlierReads(steps, hi);
      MarkLast(init, hi);
      assert Mark(steps, hi) == n + 1;
      if last.ts < lo {
        EarlierReads(steps, lo);
        MarkLast(init, lo);
      } else {
        var from := Mark(init, lo);
        assert steps[from..n + 1] == init[from..LastRead(init)] + init[LastRead(init)..] + [last];
      }
    } else {
      assert steps[Mark(init, lo)..Mark(init, hi)] == init[Mark(init, lo)..Mark(init, hi)];
    }
  }

  lemma MarkStep(steps: seq<Step>, t: int)
    requires steps != []
    ensures var n := |steps| - 1;
            Mark(steps, t) == if steps[n].Read? && steps[n].ts < t then n + 1 else Mark(steps[..n], t)
  {
  }

  lemma EarlierReads(steps: seq<Step>, t: int)
    requires steps != [] && InOrder(steps) && steps[|steps| - 1].Read? && steps[|steps| - 1].ts < t
    ensures ReadBefore(steps[..|steps| - 1], t)
  {
  }

  /**
    The bytes the readings of a window credit to a series are at most those its containers
    moved between the reading before the window and the last one in it.
   */
  lemma {:induction false} CreditedAtMost(steps: seq<Step>, s: Series, names: set<string>, start: string -> nat,
                                          lo: int, hi: int)
    requires AllFaithful(steps, start) && ReadFrom(steps, s, names) && InOrder(steps) && lo <= hi
    ensures Credited(steps, s, lo, hi) <= MovedBy(Between(steps, lo, hi), names)
  {
    hide AllFaithful, DeltasOf, Baselines, MovedBy, Between, Fresh;
    if steps != [] {
      var n := |steps| - 1;
      AllFaithfulPrefix(steps, start);
      CreditedAtMost(steps[..n], s, names, start, lo, hi);
      BetweenStep(steps, lo, hi);
      if steps[n].Read? && lo <= steps[n].ts < hi {
        var before, recent := Between(steps[..n], lo, hi), Fresh(steps[..n]);
        ReadingAtMost(steps, s, names, start);
        MovedByConcat(before, recent, names);
        MovedByConcat(before + recent, [steps[n]], names);
      }
    }
  }

  // -- the rows of the store -------------------------------------------------------------

  /** The row of a series states what its readings were credited with, nothing if there were none. */
  ghost predicate RowsState(rows: seq<SampleRow>, sums: map<Series, nat>, transmit: bool) {
    forall s :: s != HOST && LastSample(rows, s).Some? ==>
      var sample := LastSample(rows, s).value;
      (if transmit then sample.tx else sample.rx) == if s in sums then sums[s] else 0
  }

  /**
    The store's ticks are those of the readings that were written; a reading whose write
    failed has none. Steps are those of one counter: the samples of the other are mirrored.
   */
  ghost predicate Reported(steps: seq<Step>, ticks: seq<Tick>, transmit: bool) {
    if steps == [] then ticks == []
    else
      var n, m := |steps| - 1, |ticks| - 1;
      || Reported(steps[..n], ticks, transmit)
      || (steps[n].Read? && ticks != [] && Reported(steps[..n], ticks[..m], transmit) && ticks[m].ts == steps[n].ts
          && RowsState(ticks[m].rows, Absorbed(steps[n].samples, Baselines(steps[..n])).sums, transmit))
  }

  function Bytes(m: Moved, transmit: bool): nat {
    if transmit then m.tx else m.rx
  }

  lemma {:induction false} ReportedAtMost(steps: seq<Step>, ticks: seq<Tick>, transmit: bool, s: Series,
                                          start: string -> nat, lo: int, hi: int)
    requires Reported(steps, ticks, transmit) && AllFaithful(steps, start) && s != HOST
    ensures Bytes(MovedIn(ticks, s, lo, hi), transmit) <= Credited(steps, s, lo, hi)
  {
    hide AllFaithful, DeltasOf, Baselines, Absorbed, LastSample;
    if steps != [] {
      var n, m := |steps| - 1, |ticks| - 1;
      AllFaithfulPrefix(steps, start);
      if Reported(steps[..n], ticks, transmit) {
        ReportedAtMost(steps[..n], ticks, transmit, s, start, lo, hi);
      } else {
        ReportedAtMost(steps[..n], ticks[..m], transmit, s, start, lo, hi);
        NamesDistinct(steps, start);
        TickCreditsDeltas(steps[n].samples, Baselines(steps[..n]), s, "");
      }
    }
  }

  /**
    End to end, for every accepted retention and either window: the bytes a kept hour or day
    row holds for a series are at most those its containers moved between the last reading
    before that hour or day and the last one in it.
   */
  lemma KeptRowsAtMostMoved(steps: seq<Step>, ticks: seq<Tick>, transmit: bool, keep: Retention, aligned: bool,
                            s: Series, b: nat, tier: Tier, names: set<string>, start: string -> nat)
    requires AllFaithful(steps, start) && ReadFrom(steps, s, names) && InOrder(steps)
    requires Reported(steps, ticks, transmit) && StrictClock(ticks) && s != HOST
    requires keep.hourlyDays >= 1 && (tier == Hour || (tier == Day && b % DAY == 0))
    requires Key(tier, b, s) in RunTable(ticks, keep, aligned)
    ensures var row := RunTable(ticks, keep, aligned)[Key(tier, b, s)];
            (if transmit then row.tx else row.rx)
            <= MovedBy(Between(steps, b, b + (if tier == Hour then HOUR else DAY)), names)
  {
    hide AllFaithful, ReadFrom, InOrder, Reported, RunTable, MovedIn, Credited, Between, MovedBy;
    var end := b + (if tier == Hour then HOUR else DAY);
    RowsAtMostSampled(ticks, keep, aligned, s, b, tier);
    ReportedAtMost(steps, ticks, transmit, s, start, b, end);
    CreditedAtMost(steps, s, names, start, b, end);
  }
}
