/**
  The network counters of argus/web/sampler.py: cumulative per-container counters become
  per-interval byte counts that never exceed what really moved.
 */
module Sampler {
  import opened Options
  import opened History

  datatype ContainerSample = ContainerSample(series: Series, name: string, hasNet: bool, rx: nat, tx: nat)

  /** Bytes moved since last; a counter that went backwards restarted from zero. */
  function Delta(cur: nat, last: Option<nat>): (d: nat)
    ensures last.None? ==> d == 0
    ensures d <= cur
    ensures last.Some? ==> cur == d + if cur < last.value then 0 else last.value
  {
    match last
    case None => 0
    case Some(l) => if cur < l then cur else cur - l
  }

  function Lookup<K, V>(m: map<K, V>, k: K): Option<V> {
    if k in m then Some(m[k]) else None
  }

  /** One counter during a tick: baselines, names met and bytes per series. */
  datatype Pass = Pass(last: map<string, nat>, seen: set<string>, sums: map<Series, nat>)

  function Absorb(p: Pass, s: ContainerSample): Pass {
    if !s.hasNet then p
    else
      var sum := if s.series in p.sums then p.sums[s.series] else 0;
      Pass(p.last[s.name := s.rx], p.seen + {s.name},
           p.sums[s.series := sum + Delta(s.rx, Lookup(p.last, s.name))])
  }

  function Absorbed(samples: seq<ContainerSample>, last: map<string, nat>): Pass {
    if samples == [] then Pass(last, {}, map[])
    else Absorb(Absorbed(samples[..|samples| - 1], last), samples[|samples| - 1])
  }

  /** The baselines kept for the next tick: those of the names met in this one. */
  function Remembered(p: Pass): map<string, nat> {
    map name | name in p.last && name in p.seen :: p.last[name]
  }

  /** The transmit side of a sample, so that both counters share one specification. */
  function Swapped(s: ContainerSample): ContainerSample {
    s.(rx := s.tx, tx := s.rx)
  }

  function Mirror(samples: seq<ContainerSample>): (m: seq<ContainerSample>)
    ensures |m| == |samples|
  {
    seq(|samples|, i requires 0 <= i < |samples| => Swapped(samples[i]))
  }

  class Sampler {
    var lastRx: map<string, nat>
    var lastTx: map<string, nat>

    constructor ()
      ensures lastRx == map[] && lastTx == map[]
    {
      lastRx, lastTx := map[], map[];
    }

    /** One tick: diff every networked sample, then forget the containers that are gone. */
    method Observe(samples: seq<ContainerSample>) returns (rx: map<Series, nat>, tx: map<Series, nat>)
      modifies this
      ensures rx == Absorbed(samples, old(lastRx)).sums
      ensures tx == Absorbed(Mirror(samples), old(lastTx)).sums
      ensures lastRx == Remembered(Absorbed(samples, old(lastRx)))
      ensures lastTx == Remembered(Absorbed(Mirror(samples), old(lastTx)))
    {
      hide Absorbed, Delta, Lookup, Mirror;
      rx, tx := map[], map[];
      var seen: set<string> := {};
      AbsorbedNothing(samples, old(lastRx));
      AbsorbedNothing(Mirror(samples), old(lastTx));
      var n := 0;
      while n < |samples|
        invariant 0 <= n <= |samples|
        invariant Pass(lastRx, seen, rx) == Absorbed(samples[..n], old(lastRx))
        invariant Pass(lastTx, seen, tx) == Absorbed(Mirror(samples)[..n], old(lastTx))
      {
        var s := samples[n];
        AbsorbedStep(samples, n, old(lastRx));
        AbsorbedStep(Mirror(samples), n, old(lastTx));
        MirrorAt(samples, n);
        if s.hasNet {
          seen := seen + {s.name};
          rx := rx[s.series := (if s.series in rx then rx[s.series] else 0) + Delta(s.rx, Lookup(lastRx, s.name))];
          tx := tx[s.series := (if s.series in tx then tx[s.series] else 0) + Delta(s.tx, Lookup(lastTx, s.name))];
          lastRx := lastRx[s.name := s.rx];
          lastTx := lastTx[s.name := s.tx];
        }
        n := n + 1;
      }
      assert samples[..n] == samples && Mirror(samples)[..n] == Mirror(samples);
      lastRx := map name | name in lastRx && name in seen :: lastRx[name];
      lastTx := map name | name in lastTx && name in seen :: lastTx[name];
    }
  }

  lemma AbsorbedNothing(samples: seq<ContainerSample>, last: map<string, nat>)
    ensures Absorbed(samples[..0], last) == Pass(last, {}, map[])
  {
  }

  lemma AbsorbedStep(samples: seq<ContainerSample>, n: nat, last: map<string, nat>)
    requires n < |samples|
    ensures Absorbed(samples[..n + 1], last) == Absorb(Absorbed(samples[..n], last), samples[n])
  {
    assert samples[..n + 1][..n] == samples[..n];
  }

  lemma MirrorAt(samples: seq<ContainerSample>, n: nat)
    requires n < |samples|
    ensures Mirror(samples)[n] == Swapped(samples[n])
  {
  }

  /** What the mirrored samples read: the same containers and series, with the transmit counters. */
  lemma {:induction false} MirrorReads(samples: seq<ContainerSample>, name: string)
    ensures SampleOf(Mirror(samples), name).Some? <==> SampleOf(samples, name).Some?
    ensures SampleOf(samples, name).Some? ==>
              var mirrored, sample := SampleOf(Mirror(samples), name).value, SampleOf(samples, name).value;
              mirrored.rx == sample.tx && mirrored.series == sample.series && mirrored.name == sample.name
  {
    if samples != [] {
      var n := |samples| - 1;
      assert Mirror(samples)[..n] == Mirror(samples[..n]);
      MirrorReads(samples[..n], name);
    }
  }

  /** A tick lists every container name at most once, as docker does. */
  predicate DistinctNames(samples: seq<ContainerSample>) {
    forall i, j :: 0 <= i < j < |samples| ==> samples[i].name != samples[j].name
  }

  /** The delta a sample is recorded with: against the baseline of the previous tick. */
  function DeltaOf(s: ContainerSample, last: map<string, nat>): nat {
    if s.hasNet then Delta(s.rx, Lookup(last, s.name)) else 0
  }

  function DeltasOf(samples: seq<ContainerSample>, last: map<string, nat>, series: Series): nat {
    if samples == [] then 0
    else
      var s := samples[|samples| - 1];
      DeltasOf(samples[..|samples| - 1], last, series) + if s.series == series then DeltaOf(s, last) else 0
  }

  /** The networked sample of a name, if the tick has one. */
  function SampleOf(samples: seq<ContainerSample>, name: string): Option<ContainerSample> {
    if samples == [] then None
    else
      var s := samples[|samples| - 1];
      if s.hasNet && s.name == name then Some(s) else SampleOf(samples[..|samples| - 1], name)
  }

  lemma {:induction false} SampleOfAbsent(samples: seq<ContainerSample>, name: string)
    requires forall i :: 0 <= i < |samples| ==> samples[i].name != name
    ensures SampleOf(samples, name) == None
  {
    if samples != [] {
      SampleOfAbsent(samples[..|samples| - 1], name);
    }
  }

  /**
    A tick credits each series with the deltas of its containers against the previous
    tick's counters, and afterwards remembers exactly the counters it just read: a name it
    did not read is forgotten.
   */
  lemma {:induction false} TickCreditsDeltas(samples: seq<ContainerSample>, last: map<string, nat>, series: Series,
                                             name: string)
    requires DistinctNames(samples)
    ensures var p := Absorbed(samples, last);
            && (if series in p.sums then p.sums[series] else 0) == DeltasOf(samples, last, series)
            && (name in p.seen <==> SampleOf(samples, name).Some?)
            && Lookup(p.last, name) == (if SampleOf(samples, name).Some? then Some(SampleOf(samples, name).value.rx)
                                        else Lookup(last, name))
            && Lookup(Remembered(p), name) == (if SampleOf(samples, name).Some?
                                               then Some(SampleOf(samples, name).value.rx)
                                               else None)
  {
    if samples != [] {
      var n := |samples| - 1;
      TickCreditsDeltas(samples[..n], last, series, name);
      TickCreditsDeltas(samples[..n], last, series, samples[n].name);
      SampleOfAbsent(samples[..n], samples[n].name);
    }
  }

  // -- one container name over a history ---------------------------------------

  /** What happens to one container name; Missed covers absence and failed reads. */
  datatype Event = Traffic(bytes: nat) | Restart | Seen | Missed

  /**
    The container's true counter, the sampler's baseline for it, the bytes recorded so far,
    the bytes really moved since the first sighting, and those moved since the last one.
   */
  datatype Meter = Meter(counter: nat, last: Option<nat>, recorded: nat, sighted: bool, moved: nat, pending: nat)

  function After(m: Meter, e: Event): Meter {
    match e
    case Traffic(n) => m.(counter := m.counter + n, pending := m.pending + n,
                          moved := if m.sighted then m.moved + n else m.moved)
    case Restart => m.(counter := 0)
    case Seen => m.(recorded := m.recorded + Delta(m.counter, m.last), last := Some(m.counter),
                    sighted := true, pending := 0)
    case Missed => m.(last := None)
  }

  function Metered(start: nat, events: seq<Event>): Meter {
    if events == [] then Meter(start, None, 0, false, 0, 0)
    else After(Metered(start, events[..|events| - 1]), events[|events| - 1])
  }

  /** No restart, and no missed sighting after the first one. */
  predicate Steady(start: nat, events: seq<Event>) {
    forall i :: 0 <= i < |events| && Metered(start, events[..i]).sighted ==> events[i].Traffic? || events[i].Seen?
  }

  predicate Accounted(m: Meter) {
    && (if m.sighted then m.recorded + m.pending <= m.moved else m.recorded == 0 && m.moved == 0 && m.last.None?)
    && (m.last.Some? ==> if m.last.value <= m.counter then m.counter - m.last.value <= m.pending
                         else m.counter <= m.pending)
  }

  lemma AccountedStep(m: Meter, e: Event)
    requires Accounted(m)
    ensures Accounted(After(m, e))
  {
  }

  /**
    Whatever a container does, the bytes recorded for it never exceed the bytes it moved
    after its first sighting.
   */
  lemma {:induction false} NeverOvercounts(start: nat, events: seq<Event>)
    ensures Accounted(Metered(start, events))
    ensures Metered(start, events).recorded <= Metered(start, events).moved
  {
    if events != [] {
      NeverOvercounts(start, events[..|events| - 1]);
      AccountedStep(Metered(start, events[..|events| - 1]), events[|events| - 1]);
    }
  }

  /** What a restart since the last sighting can hide: whether there was one, and the bytes before it. */
  datatype Gap = Gap(restarted: bool, unseen: nat)

  function GapOf(start: nat, events: seq<Event>): Gap {
    if events == [] then Gap(false, 0)
    else
      var n := |events| - 1;
      match events[n]
      case Seen => Gap(false, 0)
      case Restart => Gap(true, Metered(start, events[..n]).pending)
      case Traffic(_) => GapOf(start, events[..n])
      case Missed => GapOf(start, events[..n])
  }

  /**
    A sighting after the first loses nothing: nothing moved while the baseline was missing, and
    a restart since the last sighting had nothing unseen before it and shows, because the
    counter is below the baseline or the baseline was zero.
   */
  predicate Lossless(m: Meter, gap: Gap) {
    if m.last.None? then m.pending == 0
    else gap.restarted ==> gap.unseen == 0 && (m.counter < m.last.value || m.last.value == 0)
  }

  ghost predicate EverySightingLossless(start: nat, events: seq<Event>) {
    forall i :: 0 <= i < |events| && events[i].Seen? && Metered(start, events[..i]).sighted ==>
      Lossless(Metered(start, events[..i]), GapOf(start, events[..i]))
  }

  /** The counter holds what moved since the last restart, or since the baseline was read. */
  predicate CounterExplained(m: Meter, gap: Gap) {
    m.sighted && m.last.Some? ==>
      if gap.restarted then gap.unseen + m.counter == m.pending
      else m.last.value <= m.counter && m.counter - m.last.value == m.pending
  }

  lemma {:induction false} CounterIsExplained(start: nat, events: seq<Event>)
    ensures CounterExplained(Metered(start, events), GapOf(start, events))
  {
    if events != [] {
      NeverOvercounts(start, events[..|events| - 1]);
      CounterIsExplained(start, events[..|events| - 1]);
    }
  }

  /** A sighting records at most what is pending, and all of it exactly when it loses nothing. */
  lemma SightingRecords(m: Meter, gap: Gap)
    requires m.sighted && CounterExplained(m, gap)
    ensures Delta(m.counter, m.last) <= m.pending
    ensures Delta(m.counter, m.last) == m.pending <==> Lossless(m, gap)
  {
  }

  lemma LosslessPrefix(start: nat, events: seq<Event>)
    requires events != []
    ensures var n := |events| - 1;
            EverySightingLossless(start, events)
            <==> (EverySightingLossless(start, events[..n])
                  && (events[n].Seen? && Metered(start, events[..n]).sighted ==>
                        Lossless(Metered(start, events[..n]), GapOf(start, events[..n]))))
  {
    hide Metered, GapOf, Lossless;
    var n := |events| - 1;
    forall i | 0 <= i <= n ensures events[..n][..i] == events[..i] {
    }
    if EverySightingLossless(start, events[..n]) {
      forall i | 0 <= i < n && events[i].Seen? && Metered(start, events[..i]).sighted
        ensures Lossless(Metered(start, events[..i]), GapOf(start, events[..i]))
      {
        assert events[..n][i] == events[i] && events[..n][..i] == events[..i];
      }
    }
    if EverySightingLossless(start, events) {
      forall i | 0 <= i < n && events[..n][i].Seen? && Metered(start, events[..n][..i]).sighted
        ensures Lossless(Metered(start, events[..n][..i]), GapOf(start, events[..n][..i]))
      {
        assert events[..n][i] == events[i] && events[..n][..i] == events[..i];
      }
    }
  }

  /**
    Over every history, restarts and gaps included: all bytes up to the last sighting are
    recorded if and only if no sighting lost any.
   */
  lemma {:induction false} ExactIff(start: nat, events: seq<Event>)
    ensures var m := Metered(start, events);
            m.sighted ==> (m.recorded + m.pending == m.moved <==> EverySightingLossless(start, events))
    ensures !Metered(start, events).sighted ==> EverySightingLossless(start, events)
  {
    hide Lossless, EverySightingLossless, CounterExplained, Delta, Accounted, GapOf;
    if events == [] {
      NoSighting(start);
    } else {
      var n := |events| - 1;
      var m := Metered(start, events[..n]);
      ExactIff(start, events[..n]);
      NeverOvercounts(start, events[..n]);
      AccountedMeans(m);
      LosslessPrefix(start, events);
      CounterIsExplained(start, events[..n]);
      if m.sighted {
        SightingRecords(m, GapOf(start, events[..n]));
      } else {
        FirstSighting(m);
      }
    }
  }

  lemma NoSighting(start: nat)
    ensures EverySightingLossless(start, [])
  {
  }

  lemma AccountedMeans(m: Meter)
    requires Accounted(m)
    ensures if m.sighted then m.recorded + m.pending <= m.moved else m.recorded == 0 && m.moved == 0
  {
  }

  lemma FirstSighting(m: Meter)
    requires Accounted(m) && !m.sighted
    ensures Delta(m.counter, m.last) == 0
  {
  }

  /** A restart that hides nothing: the next sighting records exactly the counter. */
  lemma RestartIsCounted(m: Meter)
    requires m.last.Some? && m.counter < m.last.value
    ensures After(m, Seen).recorded == m.recorded + m.counter
  {
  }

  lemma SteadyPrefix(start: nat, events: seq<Event>)
    requires events != [] && Steady(start, events)
    ensures Steady(start, events[..|events| - 1])
  {
    hide Metered;
    var n := |events| - 1;
    forall i | 0 <= i < n && Metered(start, events[..n][..i]).sighted
      ensures events[..n][i].Traffic? || events[..n][i].Seen?
    {
      assert events[..n][..i] == events[..i];
    }
  }

  /** Without restarts and gaps nothing is lost: all bytes up to the last sighting are recorded. */
  lemma {:induction false} SteadyIsExact(start: nat, events: seq<Event>)
    requires Steady(start, events)
    ensures var m := Metered(start, events);
            if m.sighted
            then m.last == Some(m.counter - m.pending) && m.counter >= m.pending && m.recorded + m.pending == m.moved
            else m.recorded == m.moved == 0 && m.last == None
  {
    if events != [] {
      var n := |events| - 1;
      SteadyPrefix(start, events);
      SteadyIsExact(start, events[..n]);
    }
  }

  // -- the sampler against the world --------------------------------------------

  /**
    Between ticks containers move bytes or restart; a tick reads some of them at a second, and
    a restarted sampler knows no counter.
   */
  datatype Step =
    | Move(name: string, bytes: nat)
    | Reset(name: string)
    | Read(ts: nat, samples: seq<ContainerSample>)
    | Boot

  function EventFor(step: Step, name: string): Event {
    match step
    case Move(n, bytes) => Traffic(if n == name then bytes else 0)
    case Reset(n) => if n == name then Restart else Traffic(0)
    case Read(_, samples) => if SampleOf(samples, name).Some? then Seen else Missed
    case Boot => Missed
  }

  function EventsFor(steps: seq<Step>, name: string): (es: seq<Event>)
    ensures |es| == |steps|
  {
    seq(|steps|, i requires 0 <= i < |steps| => EventFor(steps[i], name))
  }

  /** The sampler's baselines after the ticks among the steps. */
  function Baselines(steps: seq<Step>): map<string, nat> {
    if steps == [] then map[]
    else
      var before, step := Baselines(steps[..|steps| - 1]), steps[|steps| - 1];
      if step.Read? then Remembered(Absorbed(step.samples, before)) else if step.Boot? then map[] else before
  }

  /** The bytes all ticks recorded for one container name. */
  function RecordedFor(steps: seq<Step>, name: string): nat {
    if steps == [] then 0
    else
      var step := steps[|steps| - 1];
      RecordedFor(steps[..|steps| - 1], name)
      + if step.Read? && SampleOf(step.samples, name).Some?
        then DeltaOf(SampleOf(step.samples, name).value, Baselines(steps[..|steps| - 1]))
        else 0
  }

  /** Every reading of name is its true counter, and ticks list names at most once. */
  predicate Faithful(steps: seq<Step>, name: string, start: nat) {
    forall i :: 0 <= i < |steps| && steps[i].Read? ==>
      && DistinctNames(steps[i].samples)
      && var reading := SampleOf(steps[i].samples, name);
         reading.Some? ==> reading.value.rx == Metered(start, EventsFor(steps, name)[..i]).counter
  }

  lemma {:induction false} SampleOfNamed(samples: seq<ContainerSample>, name: string)
    requires SampleOf(samples, name).Some?
    ensures SampleOf(samples, name).value.hasNet && SampleOf(samples, name).value.name == name
  {
    if !(samples[|samples| - 1].hasNet && samples[|samples| - 1].name == name) {
      SampleOfNamed(samples[..|samples| - 1], name);
    }
  }

  /**
    Over every history of traffic, restarts, absences and failed reads, the sampler records
    for a container exactly what its meter says, so never more than the container moved
    after its first sighting, and all of it up to the last sighting when nothing went wrong.
   */
  lemma {:induction false} SamplerNeverOvercounts(steps: seq<Step>, name: string, start: nat)
    requires Faithful(steps, name, start)
    ensures var m := Metered(start, EventsFor(steps, name));
            && Lookup(Baselines(steps), name) == m.last
            && RecordedFor(steps, name) == m.recorded <= m.moved
            && (Steady(start, EventsFor(steps, name)) ==>
                  RecordedFor(steps, name) + (if m.sighted then m.pending else 0) == m.moved)
  {
    hide Lookup, Delta, Steady, Baselines, RecordedFor, EventFor, After, Accounted;
    var es := EventsFor(steps, name);
    NeverOvercounts(start, es);
    if Steady(start, es) {
      SteadyIsExact(start, es);
    }
    if steps == [] {
      NothingYet(start, name);
    } else {
      var n := |steps| - 1;
      assert es[..n] == EventsFor(steps[..n], name);
      FaithfulPrefix(steps, name, start);
      SamplerNeverOvercounts(steps[..n], name, start);
      StepMetered(steps, name, Metered(start, es[..n]));
    }
  }

  lemma NothingYet(start: nat, name: string)
    ensures EventsFor([], name) == [] && RecordedFor([], name) == 0 == Metered(start, []).recorded
    ensures Lookup(Baselines([]), name) == Metered(start, []).last
  {
    NoBaseline(name);
  }

  /** One step keeps baseline and record in line with the meter. */
  lemma StepMetered(steps: seq<Step>, name: string, m: Meter)
    requires steps != [] && Lookup(Baselines(steps[..|steps| - 1]), name) == m.last
    requires RecordedFor(steps[..|steps| - 1], name) == m.recorded
    requires steps[|steps| - 1].Read? ==>
               var reading := SampleOf(steps[|steps| - 1].samples, name);
               DistinctNames(steps[|steps| - 1].samples) && (reading.Some? ==> reading.value.rx == m.counter)
    ensures var after := After(m, EventFor(steps[|steps| - 1], name));
            Lookup(Baselines(steps), name) == after.last && RecordedFor(steps, name) == after.recorded
  {
    hide Absorbed, Remembered, Lookup, Delta, DistinctNames;
    var n := |steps| - 1;
    NoBaseline(name);
    if steps[n].Read? {
      TickCreditsDeltas(steps[n].samples, Baselines(steps[..n]), Series("", ""), name);
      if SampleOf(steps[n].samples, name).Some? {
        SampleOfNamed(steps[n].samples, name);
      }
    }
  }

  /** And it records every byte up to the last sighting if and only if no sighting lost any. */
  lemma SamplerExactIff(steps: seq<Step>, name: string, start: nat)
    requires Faithful(steps, name, start)
    ensures var m := Metered(start, EventsFor(steps, name));
            m.sighted ==> (RecordedFor(steps, name) + m.pending == m.moved
                           <==> EverySightingLossless(start, EventsFor(steps, name)))
  {
    hide Metered, RecordedFor, EverySightingLossless, Faithful, Steady, EventsFor;
    SamplerNeverOvercounts(steps, name, start);
    ExactIff(start, EventsFor(steps, name));
  }

  lemma NoBaseline(name: string)
    ensures Lookup<string, nat>(map[], name) == None
  {
  }

  lemma FaithfulPrefix(steps: seq<Step>, name: string, start: nat)
    requires steps != [] && Faithful(steps, name, start)
    ensures Faithful(steps[..|steps| - 1], name, start)
  {
    hide Metered, SampleOf, DistinctNames;
    var n := |steps| - 1;
    forall i | 0 <= i < n && steps[i].Read?
      ensures EventsFor(steps[..n], name)[..i] == EventsFor(steps, name)[..i]
    {
    }
  }
}
