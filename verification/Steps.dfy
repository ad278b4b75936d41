/**
 What one step of the exporter touches: which series, which stored keys, and by how much.
 */
module Steps {
  import opened FieldSets
  import opened Clock
  import opened Identity
  import opened Aggregation
  import opened Decoding
  import opened History
  import opened Sampling
  import opened Tracker
  import opened Exporter

  /** Metrics fed by observations. */
  predicate Integrated(m: Metric) {
    m.RequestCount? || m.ActivityWindows? || m.ActiveSeconds? || m.EnergyEstimated? || m.WeightedSeconds?
        || m.ObservedSeconds? || m.RateTotal?
  }

  predicate WindowMetric(m: Metric) { m.WindowMax? || m.WindowAvg? }

  predicate CollectMetric(m: Metric) { m.CollectSuccess? || m.CollectionErrors? }

  /** What one observation adds to a metric of its GPU. */
  function Adds(setup: Setup, m: Metric, a: Aggregate, o: Observation, dt: Duration, request: bool): real {
    match m
    case RequestCount => BoolReal(request)
    case ActivityWindows => BoolReal(request)
    case ActiveSeconds => if o.fieldId == GPU_UTIL && dt > 0 && o.value > setup.activeThreshold then Seconds(dt)
        else 0.0
    case EnergyEstimated => if o.fieldId == POWER_USAGE && dt > 0 then o.value * Seconds(dt) else 0.0
    case WeightedSeconds(b) => if b == a && IsIntegral(a) && dt > 0 then Fraction(a, o.value) * Seconds(dt) else 0.0
    case ObservedSeconds(b) => if b == a && IsIntegral(a) && dt > 0 then Seconds(dt) else 0.0
    case RateTotal(b) => if b == a && IsRate(a) && dt > 0 then o.value * Seconds(dt) else 0.0
    case _ => 0.0
  }

  /** `after` is `before` with the integrated series of these labels possibly created or moved. */
  ghost predicate Confined(before: SeriesMap, after: SeriesMap, labels: Labels, s: Series) {
    && (s in before ==> s in after)
    && (s in after && s !in before ==> s.labels == labels && Integrated(s.metric))
    && (s.labels != labels || !Integrated(s.metric) ==> Lookup(after, s) == Lookup(before, s))
  }

  lemma PlusWhenAdds(condition: bool, series: SeriesMap, t: Series, x: real, s: Series)
    requires Integrated(t.metric)
    ensures var after := PlusWhen(condition, series, t, x);
            && Get(after, s) == Get(series, s) + (if condition && s == t then x else 0.0)
            && Confined(series, after, t.labels, s)
  {
  }

  predicate OfActivity(m: Metric) { m.RequestCount? || m.ActivityWindows? || m.ActiveSeconds? }

  lemma CountedActivityAdds(setup: Setup, series: SeriesMap, labels: Labels, a: Aggregate, o: Observation,
                            dt: Duration, request: bool, s: Series)
    ensures var after := CountedActivity(setup, series, labels, o, dt, request);
            && Get(after, s) == Get(series, s) + (if s.labels == labels && OfActivity(s.metric)
                then Adds(setup, s.metric, a, o, dt, request) else 0.0)
            && Confined(series, after, labels, s)
  {
    var s0 := PlusWhen(request, series, Series(RequestCount, labels), 1.0);
    var s1 := PlusWhen(request, s0, Series(ActivityWindows, labels), 1.0);
    PlusWhenAdds(request, series, Series(RequestCount, labels), 1.0, s);
    PlusWhenAdds(request, s0, Series(ActivityWindows, labels), 1.0, s);
    PlusWhenAdds(o.fieldId == GPU_UTIL && dt > 0 && o.value > setup.activeThreshold, s1, Series(ActiveSeconds, labels),
                 Seconds(dt), s);
  }

  predicate OfIntegrals(m: Metric) { m.WeightedSeconds? || m.ObservedSeconds? }

  lemma CountedIntegralsAdd(setup: Setup, series: SeriesMap, labels: Labels, a: Aggregate, o: Observation,
                            dt: Duration, request: bool, s: Series)
    ensures var after := CountedIntegrals(series, labels, a, o, dt);
            && Get(after, s) == Get(series, s) + (if s.labels == labels && OfIntegrals(s.metric)
                then Adds(setup, s.metric, a, o, dt, request) else 0.0)
            && Confined(series, after, labels, s)
  {
    var weighted := Amount(Fraction(a, o.value), dt);
    var s0 := PlusWhen(IsIntegral(a) && dt > 0, series, Series(WeightedSeconds(a), labels), weighted);
    PlusWhenAdds(IsIntegral(a) && dt > 0, series, Series(WeightedSeconds(a), labels), weighted, s);
    PlusWhenAdds(IsIntegral(a) && dt > 0, s0, Series(ObservedSeconds(a), labels), Seconds(dt), s);
  }

  lemma CountedRatesAdd(setup: Setup, series: SeriesMap, labels: Labels, a: Aggregate, o: Observation, dt: Duration,
                        request: bool, s: Series)
    ensures var after := CountedRates(series, labels, a, o, dt);
            && Get(after, s) == Get(series, s) + (if s.labels == labels && !OfActivity(s.metric)
                && !OfIntegrals(s.metric) then Adds(setup, s.metric, a, o, dt, request) else 0.0)
            && Confined(series, after, labels, s)
  {
    var moved := Amount(o.value, dt);
    var s0 := PlusWhen(IsRate(a) && dt > 0, series, Series(RateTotal(a), labels), moved);
    PlusWhenAdds(IsRate(a) && dt > 0, series, Series(RateTotal(a), labels), moved, s);
    PlusWhenAdds(o.fieldId == POWER_USAGE && dt > 0, s0, Series(EnergyEstimated, labels), moved, s);
  }

  lemma CountedAdds(setup: Setup, series: SeriesMap, labels: Labels, a: Aggregate, o: Observation, dt: Duration,
                    request: bool, s: Series)
    ensures var after := Counted(setup, series, labels, a, o, dt, request);
            && Get(after, s) == Get(series, s) + (if s.labels == labels then Adds(setup, s.metric, a, o, dt, request)
                else 0.0)
            && Confined(series, after, labels, s)
  {
    var s0 := CountedActivity(setup, series, labels, o, dt, request);
    CountedActivityAdds(setup, series, labels, a, o, dt, request, s);
    CountedIntegralsAdd(setup, s0, labels, a, o, dt, request, s);
    CountedRatesAdd(setup, CountedIntegrals(s0, labels, a, o, dt), labels, a, o, dt, request, s);
  }

  /** What an observation adds to a series, as a number. */
  lemma CountedGet(setup: Setup, series: SeriesMap, labels: Labels, a: Aggregate, o: Observation, dt: Duration,
                   request: bool, s: Series)
    ensures Get(Counted(setup, series, labels, a, o, dt, request), s)
            == Get(series, s) + (if s.labels == labels then Adds(setup, s.metric, a, o, dt, request) else 0.0)
  {
    CountedAdds(setup, series, labels, a, o, dt, request, s);
  }

  lemma IntervalNonNegative(setup: Setup, times: Times, key: string, o: Observation)
    ensures Interval(setup, times, key, o) >= 0
  {
  }

  /** Whether a utilization observation ends a request, by the stored activity. */
  function EndsRequestNow(setup: Setup, st: State, info: GpuInfo, o: Observation): bool {
    var id := StableIdentifier(info);
    o.fieldId == GPU_UTIL &&
    setup.Rule().EndsRequest(if id in st.activity then st.activity[id] else INACTIVE, UtilReading(o.value, o.timestamp))
  }

  /** What one observation adds to a series. */
  lemma ObserveOneAdds(setup: Setup, st: State, info: GpuInfo, fields: FieldStates, o: Observation, s: Series)
    ensures Get(ObserveOne(setup, st, info, fields, o).series, s)
            == Get(st.series, s) +
               (if Skipped(fields, o.fieldId) || s.labels != setup.LabelsOf(info) then 0.0
                else Adds(setup, s.metric, AggregationForField(o.fieldId).value, o,
                          Interval(setup, st.times, ObservationKey(info, o.fieldId), o),
                              EndsRequestNow(setup, st, info, o)))
  {
    if !Skipped(fields, o.fieldId) {
      CountedGet(setup, st.series, setup.LabelsOf(info), AggregationForField(o.fieldId).value, o,
                 Interval(setup, st.times, ObservationKey(info, o.fieldId), o), EndsRequestNow(setup, st, info, o), s);
    }
  }

  lemma StatusTouches(series: SeriesMap, labels: Labels, fields: FieldStates, s: Series)
    ensures s.labels != labels || !FieldStatusMetric(s.metric)
        ==> Lookup(series + StatusSeries(labels, fields), s) == Lookup(series, s)
    ensures s in series + StatusSeries(labels, fields) ==> s in series || s.labels == labels
  {
  }

  lemma GaugesTouch(series: SeriesMap, labels: Labels, slots: Slots, gauges: seq<FieldId>, s: Series)
    ensures s.labels != labels || !s.metric.Current? ==>
              Lookup(series + GaugesFrom(labels, slots, gauges), s) == Lookup(series, s)
    ensures s in series + GaugesFrom(labels, slots, gauges) ==> s in series || s.labels == labels
  {
  }

  /** Observations touch the integrated series of their GPU only. */
  lemma {:induction false} ObservationsTouch(setup: Setup, st: State, info: GpuInfo, fields: FieldStates,
                                             observations: seq<Observation>, s: Series)
    ensures var after := ObserveAll(setup, st, info, fields, observations);
            && (s.labels != setup.LabelsOf(info) || !Integrated(s.metric)
                ==> Lookup(after.series, s) == Lookup(st.series, s))
            && (s in after.series ==> s in st.series || s.labels == setup.LabelsOf(info))
            && after.hardware == st.hardware && after.active == st.active && after.health == st.health
  {
    if observations == [] {
    } else {
      var n := |observations| - 1;
      var before := ObserveAll(setup, st, info, fields, observations[..n]);
      ObservationsTouch(setup, st, info, fields, observations[..n], s);
      var o := observations[n];
      if !Skipped(fields, o.fieldId) {
        var dt := Interval(setup, before.times, ObservationKey(info, o.fieldId), o);
        IntervalNonNegative(setup, before.times, ObservationKey(info, o.fieldId), o);
        var was := if StableIdentifier(info) in before.activity then before.activity[StableIdentifier(info)]
            else INACTIVE;
        CountedAdds(setup, before.series, setup.LabelsOf(info), AggregationForField(o.fieldId).value, o, dt,
                    o.fieldId == GPU_UTIL && setup.Rule().EndsRequest(was, UtilReading(o.value, o.timestamp)), s);
      }
    }
  }

  /** Hardware counters touch the hardware series of their GPU only. */
  lemma {:induction false} CountersTouch(setup: Setup, st: State, info: GpuInfo, slots: Slots, table: seq<CounterSpec>,
                                         s: Series)
    ensures var after := CountAll(setup, st, info, slots, table);
            && (s.labels != setup.LabelsOf(info) || !s.metric.HardwareTotal?
                ==> Lookup(after.series, s) == Lookup(st.series, s))
            && (s in after.series ==> s in st.series || s.labels == setup.LabelsOf(info))
            && after == st.(series := after.series, hardware := after.hardware)
  {
    if table == [] {
    } else {
      CountersTouch(setup, st, info, slots, table[..|table| - 1], s);
    }
  }

  /** The metrics a sample can move before its hardware counters. */
  predicate Observable(m: Metric) { Integrated(m) || FieldStatusMetric(m) || m.Current? }

  lemma MetricsApart(m: Metric)
    ensures WindowMetric(m) || CollectMetric(m) || m.HardwareTotal? ==> !Observable(m)
    ensures WindowMetric(m) || CollectMetric(m) ==> !m.HardwareTotal?
  {
  }

  lemma ObserveSampleTouches(setup: Setup, st: State, sample: GpuSample, s: Series)
    ensures var after := ObserveSample(setup, st, sample);
            && (s.labels != setup.LabelsOf(sample.info) || !Observable(s.metric)
                ==> Lookup(after.series, s) == Lookup(st.series, s))
            && (s in after.series ==> s in st.series || s.labels == setup.LabelsOf(sample.info))
            && after.active == st.active && after.health == st.health && after.hardware == st.hardware
  {
    var labels := setup.LabelsOf(sample.info);
    var published, observed := WithStatus(setup, st, sample), WithObservations(setup, st, sample);
    StatusTouches(st.series, labels, sample.fields, s);
    ObservationsTouch(setup, published, sample.info, sample.fields, sample.observations, s);
    GaugesTouch(observed.series, labels, sample.slots, setup.gauges, s);
    assert ObserveSample(setup, st, sample).series == observed.series + GaugesFrom(labels, sample.slots, setup.gauges);
  }

  /** A sample touches series of its own labels only, and no window or collection-status gauge. */
  lemma SampleTouches(setup: Setup, st: State, sample: GpuSample, s: Series)
    requires s.labels != setup.LabelsOf(sample.info) || WindowMetric(s.metric) || CollectMetric(s.metric)
    ensures Lookup(CollectSample(setup, st, sample).series, s) == Lookup(st.series, s)
  {
    if s.labels != setup.LabelsOf(sample.info) {
      OtherLabelsLeft(setup, st, sample, s);
    } else {
      MetricsApart(s.metric);
      OtherMetricsLeft(setup, st, sample, s);
    }
  }

  lemma OtherLabelsLeft(setup: Setup, st: State, sample: GpuSample, s: Series)
    requires s.labels != setup.LabelsOf(sample.info)
    ensures Lookup(CollectSample(setup, st, sample).series, s) == Lookup(st.series, s)
  {
    ObserveSampleTouches(setup, st, sample, s);
    CountersTouch(setup, ObserveSample(setup, st, sample), sample.info, sample.slots, setup.counters, s);
  }

  lemma OtherMetricsLeft(setup: Setup, st: State, sample: GpuSample, s: Series)
    requires !Observable(s.metric) && !s.metric.HardwareTotal?
    ensures Lookup(CollectSample(setup, st, sample).series, s) == Lookup(st.series, s)
  {
    ObserveSampleTouches(setup, st, sample, s);
    CountersTouch(setup, ObserveSample(setup, st, sample), sample.info, sample.slots, setup.counters, s);
  }

  lemma SampleCreates(setup: Setup, st: State, sample: GpuSample, s: Series)
    ensures var after := CollectSample(setup, st, sample);
            && (s in after.series ==> s in st.series || s.labels == setup.LabelsOf(sample.info))
            && after.active == st.active && after.health == st.health
  {
    ObserveSampleTouches(setup, st, sample, s);
    CountersTouch(setup, ObserveSample(setup, st, sample), sample.info, sample.slots, setup.counters, s);
  }

  lemma {:induction false} ErrorsTouch(setup: Setup, series: SeriesMap, failures: seq<Failure>, s: Series)
    ensures var after := ErrorsCounted(setup, series, failures);
            && (!CollectMetric(s.metric) ==> Lookup(after, s) == Lookup(series, s))
            && (s in after ==> s in series || exists f :: f in failures && s.labels == setup.LabelsOf(f.info))
  {
    if failures == [] {
    } else {
      ErrorsTouch(setup, series, failures[..|failures| - 1], s);
      assert failures[|failures| - 1] in failures;
    }
  }

  lemma {:induction false} SuccessTouches(setup: Setup, series: SeriesMap, supported: seq<GpuInfo>,
                                          failed: set<string>, s: Series)
    ensures var after := SuccessSet(setup, series, supported, failed);
            && (!CollectMetric(s.metric) ==> Lookup(after, s) == Lookup(series, s))
            && (s in after ==> s in series || exists info :: info in supported && s.labels == setup.LabelsOf(info))
  {
    if supported == [] {
    } else {
      SuccessTouches(setup, series, supported[..|supported| - 1], failed, s);
      assert supported[|supported| - 1] in supported;
    }
  }

  lemma PublishGpuTouches(series: SeriesMap, labels: Labels, id: string, snapshot: Windows, aggregates: set<Aggregate>,
                          s: Series)
    ensures var after := PublishGpu(series, labels, id, snapshot, aggregates);
            && Lookup(after, s) == PublishedValue(series, labels, id, snapshot, aggregates, s)
            && (s.labels != labels || !WindowMetric(s.metric) ==> Lookup(after, s) == Lookup(series, s))
            && (s in after ==> s in series || s.labels == labels)
  {
    var candidates := series.Keys + (set a | a in aggregates :: Series(WindowMax(a), labels))
        + (set a | a in aggregates :: Series(WindowAvg(a), labels));
    if PublishedValue(series, labels, id, snapshot, aggregates, s).Some? {
      assert s in candidates;
    }
  }

  lemma {:induction false} PublishTouches(setup: Setup, series: SeriesMap, order: seq<GpuInfo>, snapshot: Windows,
                                          s: Series)
    ensures var after := PublishGpus(setup, series, order, snapshot);
            && (!WindowMetric(s.metric) ==> Lookup(after, s) == Lookup(series, s))
            && (s in after ==> s in series || exists info :: info in order && s.labels == setup.LabelsOf(info))
            && ((forall info :: info in order ==> s.labels != setup.LabelsOf(info))
                ==> Lookup(after, s) == Lookup(series, s))
  {
    if order == [] {
    } else {
      var n := |order| - 1;
      PublishTouches(setup, series, order[..n], snapshot, s);
      PublishGpuTouches(PublishGpus(setup, series, order[..n], snapshot), setup.LabelsOf(order[n]),
                        StableIdentifier(order[n]), snapshot, AllAggregates(), s);
      assert order[n] in order;
    }
  }

  lemma ForgetTouches(setup: Setup, st: State, infos: map<string, GpuInfo>, ids: set<string>, s: Series, key: string)
    requires ids <= infos.Keys
    ensures var after := Forget(setup, st, infos, ids);
            && Lookup(after.series, s) == (if exists id :: id in ids && s.labels == setup.LabelsOf(infos[id]) then None
                else Lookup(st.series, s))
            && Lookup(after.hardware, key) == (if exists id :: id in ids && Dropped(id, key) then None
                else Lookup(st.hardware, key))
            && Lookup(after.times, key) == (if exists id :: id in ids && Dropped(id, key) then None
                else Lookup(st.times, key))
  {
  }

  lemma ObserveSampleParts(setup: Setup, st: State, sample: GpuSample)
    ensures var observed, after := WithObservations(setup, st, sample), ObserveSample(setup, st, sample);
            && after.times == observed.times - CutKeys(sample.info, sample.fields)
            && after.series == observed.series + GaugesFrom(setup.LabelsOf(sample.info), sample.slots, setup.gauges)
  {
  }

  /** After a sample a gauge shows its slot; without a value it keeps what it showed before. */
  lemma GaugesShowTheSlots(setup: Setup, st: State, sample: GpuSample, f: FieldId)
    requires f in setup.gauges
    ensures var s := Series(Current(f), setup.LabelsOf(sample.info));
            Lookup(CollectSample(setup, st, sample).series, s)
            == if GaugeValue(sample.slots, f).Some? then GaugeValue(sample.slots, f) else Lookup(st.series, s)
  {
    GaugesSetLast(setup, st, sample, f);
    GaugeShown(WithObservations(setup, st, sample).series, setup.LabelsOf(sample.info), sample.slots, setup.gauges, f);
  }

  lemma GaugesSetLast(setup: Setup, st: State, sample: GpuSample, f: FieldId)
    ensures var s, observed := Series(Current(f), setup.LabelsOf(sample.info)),
        WithObservations(setup, st, sample).series;
            && Lookup(observed, s) == Lookup(st.series, s)
            && Lookup(CollectSample(setup, st, sample).series, s)
               == Lookup(observed + GaugesFrom(setup.LabelsOf(sample.info), sample.slots, setup.gauges), s)
  {
    var s := Series(Current(f), setup.LabelsOf(sample.info));
    BeforeTheGauges(setup, st, sample, s);
    AfterTheGauges(setup, st, sample, s);
    ObserveSampleParts(setup, st, sample);
  }

  lemma BeforeTheGauges(setup: Setup, st: State, sample: GpuSample, s: Series)
    requires !Integrated(s.metric) && !FieldStatusMetric(s.metric)
    ensures Lookup(WithObservations(setup, st, sample).series, s) == Lookup(st.series, s)
  {
    StatusTouches(st.series, setup.LabelsOf(sample.info), sample.fields, s);
    ObservationsTouch(setup, WithStatus(setup, st, sample), sample.info, sample.fields, sample.observations, s);
  }

  lemma AfterTheGauges(setup: Setup, st: State, sample: GpuSample, s: Series)
    requires !s.metric.HardwareTotal?
    ensures Lookup(CollectSample(setup, st, sample).series, s) == Lookup(ObserveSample(setup, st, sample).series, s)
  {
    CountersTouch(setup, ObserveSample(setup, st, sample), sample.info, sample.slots, setup.counters, s);
  }

  lemma GaugeShown(series: SeriesMap, labels: Labels, slots: Slots, gauges: seq<FieldId>, f: FieldId)
    requires f in gauges
    ensures Lookup(series + GaugesFrom(labels, slots, gauges), Series(Current(f), labels))
            == if GaugeValue(slots, f).Some? then GaugeValue(slots, f) else Lookup(series, Series(Current(f), labels))
  {
  }

  /** A legacy PCIe rate whose profiling counterpart is available. */
  predicate Replaced(fields: FieldStates, f: FieldId) {
    || (f == PCIE_TX_THROUGHPUT && StatusOf(fields, PROF_PCIE_TX_BYTES).available)
    || (f == PCIE_RX_THROUGHPUT && StatusOf(fields, PROF_PCIE_RX_BYTES).available)
  }

  function WithoutReplaced(fields: FieldStates, observations: seq<Observation>): seq<Observation> {
    if observations == [] then []
    else
      var n := |observations| - 1;
      WithoutReplaced(fields, observations[..n]) + if Replaced(fields, observations[n].fieldId) then []
          else [observations[n]]
  }

  /**
   Replaced legacy rates feed nothing: a sample does exactly what it does without them, stored
   timestamps included.
   */
  lemma {:induction false} ReplacedRatesFeedNothing(setup: Setup, st: State, info: GpuInfo, fields: FieldStates,
                                                    observations: seq<Observation>)
    ensures ObserveAll(setup, st, info, fields, observations)
        == ObserveAll(setup, st, info, fields, WithoutReplaced(fields, observations))
  {
    if observations == [] {
    } else {
      var n := |observations| - 1;
      var o, rest := observations[n], WithoutReplaced(fields, observations[..n]);
      ReplacedRatesFeedNothing(setup, st, info, fields, observations[..n]);
      if Replaced(fields, o.fieldId) {
        assert rest + [] == rest;
        ReplacedIsSkipped(setup, ObserveAll(setup, st, info, fields, rest), info, fields, o);
      } else {
        assert (rest + [o])[..|rest|] == rest;
      }
    }
  }

  lemma ReplacedIsSkipped(setup: Setup, st: State, info: GpuInfo, fields: FieldStates, o: Observation)
    requires Replaced(fields, o.fieldId)
    ensures ObserveOne(setup, st, info, fields, o) == st
  {
  }
}
