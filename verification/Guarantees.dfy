/**
 What the counters of a GPU promise to whoever reads them, in every well-formed run.
 */
module Guarantees {
  import opened FieldSets
  import opened Clock
  import opened Identity
  import opened Aggregation
  import opened Decoding
  import opened History
  import opened Sampling
  import opened Integration
  import opened Counters
  import opened Exporter
  import opened Runs
  import opened Isolation
  import opened Histories

  /** The events of a field of a GPU since it last appeared or changed its labels. */
  function Events(setup: Setup, ops: seq<Op>, id: string, f: FieldId): seq<Event> {
    EventsOf(OwnSamples(setup, ops, id), f)
  }

  lemma ReadingIsIntegral(setup: Setup, ops: seq<Op>, ids: set<string>, id: string, f: FieldId, m: Metric)
    requires Reached(setup, ops, ids, id) && WeightOf(setup, f, m).Some?
    ensures CounterValue(setup, ops, id, m) == Integral(Events(setup, ops, id, f), WeightOf(setup, f, m).value,
                                                        setup.maxGap(f))
  {
    CountersAreIntegrals(setup, ops, ids, id, f, m);
  }

  /** The aggregate of an integrated field. */
  function AggregateOf(f: FieldId): Aggregate
    requires AggregationForField(f).Some?
  {
    AggregationForField(f).value
  }

  /**
   Observed time is the sum of exactly the counted gaps. The time from the first observation to the
   last bounds it exactly when the steps back are made up for by steps that did not count; so always
   when no timestamp goes back.
   */
  lemma ObservedIsCountedTime(setup: Setup, ops: seq<Op>, ids: set<string>, id: string, f: FieldId)
    requires Reached(setup, ops, ids, id) && IsIntegrated(f)
    ensures var observed, events := CounterValue(setup, ops, id, ObservedSeconds(AggregateOf(f))),
        Events(setup, ops, id, f);
            && observed == Seconds(ObservedTime(events, setup.maxGap(f)))
            && (observed <= Seconds(Elapsed(events)) <==> Returns(events) <= Lost(events, setup.maxGap(f)))
            && (Forward(events) ==> observed <= Seconds(Elapsed(events)))
  {
    var events := Events(setup, ops, id, f);
    ReadingIsIntegral(setup, ops, ids, id, f, ObservedSeconds(AggregateOf(f)));
    IntegralOfOneIsObservedTime(events, setup.maxGap(f));
    ElapsedBoundExactly(events, setup.maxGap(f));
    ReturnsMeanBackward(events);
  }

  /** A field whose aggregate is integrated. */
  predicate IsIntegrated(f: FieldId) { AggregationForField(f).Some? && IsIntegral(AggregationForField(f).value) }

  /**
   Weighted time lies between the smallest and the largest contributing fraction of the observed time.
   Observations that add nothing, such as the first one or one after a reset, are free.
   */
  lemma WeightedIsBetweenFractions(setup: Setup, ops: seq<Op>, ids: set<string>, id: string, f: FieldId, low: real,
                                   high: real)
    requires Reached(setup, ops, ids, id) && IsIntegrated(f)
    requires ContributesBetween(Events(setup, ops, id, f), FractionOf(AggregateOf(f)), low, high, setup.maxGap(f))
    ensures Bounded(low, CounterValue(setup, ops, id, WeightedSeconds(AggregateOf(f))), high,
                    CounterValue(setup, ops, id, ObservedSeconds(AggregateOf(f))))
  {
    ReadingIsIntegral(setup, ops, ids, id, f, ObservedSeconds(AggregateOf(f)));
    ReadingIsIntegral(setup, ops, ids, id, f, WeightedSeconds(AggregateOf(f)));
    IntegralBetween(Events(setup, ops, id, f), FractionOf(AggregateOf(f)), low, high, setup.maxGap(f));
  }

  lemma {:induction false} EventsInRange(samples: seq<GpuSample>, f: FieldId)
    requires forall s :: s in samples ==> AllInRange(s.observations)
    ensures forall e :: e in EventsOf(samples, f) && e.At? ==> InRange(f, e.value)
  {
    if samples == [] {
    } else {
      var n := |samples| - 1;
      EventsInRange(samples[..n], f);
      assert samples[n] in samples;
      ObservedInRange(f, samples[n].observations);
    }
  }

  lemma {:induction false} ObservedInRange(f: FieldId, observations: seq<Observation>)
    requires AllInRange(observations)
    ensures forall e :: e in ObservedEvents(f, observations) && e.At? ==> InRange(f, e.value)
  {
    if observations == [] {
    } else {
      ObservedInRange(f, observations[..|observations| - 1]);
    }
  }

  const MAX_WATTS: real := 1000000.0

  /** A value between nothing and the largest decodable power all the time there was. */
  ghost predicate EnergyWithin(energy: real, elapsed: Duration) { 0.0 <= energy <= MAX_WATTS * Seconds(elapsed) }

  /**
   With timestamps that do not go back, estimated energy is never more than the largest decodable
   power over the elapsed time.
   */
  lemma EnergyIsBounded(setup: Setup, ops: seq<Op>, ids: set<string>, id: string)
    requires Reached(setup, ops, ids, id)
    requires forall s :: s in OwnSamples(setup, ops, id) ==> AllInRange(s.observations)
    requires Forward(Events(setup, ops, id, POWER_USAGE))
    ensures EnergyWithin(CounterValue(setup, ops, id, EnergyEstimated), Elapsed(Events(setup, ops, id, POWER_USAGE)))
  {
    ReadingIsIntegral(setup, ops, ids, id, POWER_USAGE, EnergyEstimated);
    EventsInRange(OwnSamples(setup, ops, id), POWER_USAGE);
    IntegratedPowerIsBounded(Events(setup, ops, id, POWER_USAGE), setup.maxGap(POWER_USAGE));
  }

  lemma IntegratedPowerIsBounded(events: seq<Event>, gap: Duration)
    requires forall e :: e in events && e.At? ==> InRange(POWER_USAGE, e.value)
    requires Forward(events)
    ensures EnergyWithin(Integral(events, VALUE, gap), Elapsed(events))
  {
    forall i | 0 <= i < |events| && events[i].At? ensures 0.0 <= VALUE(events[i].value) <= MAX_WATTS {
      assert events[i] in events;
    }
    IntegralBetween(events, VALUE, 0.0, MAX_WATTS, gap);
    IntegralOfOneIsObservedTime(events, gap);
    ReturnsMeanBackward(events);
    ElapsedBoundExactly(events, gap);
    EnergyArithmetic(Integral(events, VALUE, gap), ObservedTime(events, gap), Elapsed(events));
  }

  lemma EnergyArithmetic(energy: real, observed: Duration, elapsed: Duration)
    requires Bounded(0.0, energy, MAX_WATTS, Seconds(observed)) && observed <= elapsed
    ensures EnergyWithin(energy, elapsed)
  {
  }

  /** The raw values of a hardware counter of a GPU since it last appeared, negative ones left out. */
  function HardwareReadings(setup: Setup, ops: seq<Op>, id: string, suffix: string): seq<real> {
    Readings(RawOf(setup, OwnSamples(setup, ops, id), suffix))
  }

  /**
   Without readings there is neither a series nor a stored value. Otherwise the stored value is the
   last reading and the exported total is the last reading plus the reading before each drop: at
   least the stored value, and equal to it exactly when the counter never dropped.
   */
  ghost predicate ClosedForm(stored: Option<real>, exported: Option<real>, readings: seq<real>) {
    if readings == [] then stored == None && exported == None
    else
      var last := readings[|readings| - 1];
      && stored == Some(last) && exported == Some(last + BeforeDrops(readings)) && exported.value >= last
      && (exported.value == last <==> Rising(readings))
  }

  lemma MirrorClosedForm(h: Hardware, stored: map<string, real>, series: SeriesMap, raw: seq<real>)
    requires h.Mirrors(stored, series, raw)
    ensures ClosedForm(Lookup(stored, h.StoredKey()), Lookup(series, h.Line()), Readings(raw))
  {
    ReadingsClosedForm(raw);
  }

  lemma HardwareClosedForm(setup: Setup, ops: seq<Op>, ids: set<string>, id: string, suffix: string)
    requires Reached(setup, ops, ids, id) && TableKeyed(setup.counters) && IsCounter(suffix)
    ensures var st := Run(setup, ops);
            ClosedForm(Lookup(st.hardware, Key(id, suffix)),
                       Lookup(st.series, Series(HardwareTotal(suffix), setup.LabelsOf(st.active[id]))),
                       HardwareReadings(setup, ops, id, suffix))
  {
    var st := Run(setup, ops);
    HardwareCountersAreTotals(setup, ops, ids, id, suffix);
    MirrorClosedForm(Hardware(id, setup.LabelsOf(st.active[id]), suffix), st.hardware, st.series,
                     RawOf(setup, OwnSamples(setup, ops, id), suffix));
  }
}
