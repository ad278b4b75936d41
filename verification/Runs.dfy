/**
 Whole runs of the exporter, collections and window publications in any order.
 */
module Runs {
  import opened FieldSets
  import opened Clock
  import opened Identity
  import opened Aggregation
  import opened Decoding
  import opened History
  import opened Sampling
  import opened Tracker
  import opened Integration
  import opened Exporter
  import opened Steps

  /** PublishWindows carries the order in which the active GPUs were gone through. */
  datatype Op = CollectBatch(now: Time, batch: SampleBatch) | CollectError | PublishWindows(order: seq<GpuInfo>)

  function Step(setup: Setup, st: State, op: Op): State {
    match op
    case CollectBatch(now, batch) => Collect(setup, st, now, batch)
    case CollectError => st.(health := MarkedFailed(st.health))
    case PublishWindows(order) => Publish(setup, st, order)
  }

  function Run(setup: Setup, ops: seq<Op>): State {
    if ops == [] then INITIAL else Step(setup, Run(setup, ops[..|ops| - 1]), ops[|ops| - 1])
  }

  /** The value of a counter of a GPU. */
  function CounterValue(setup: Setup, ops: seq<Op>, id: string, m: Metric): real
    requires id in Run(setup, ops).active
  {
    Get(Run(setup, ops).series, Series(m, setup.LabelsOf(Run(setup, ops).active[id])))
  }

  // ----- The counter triangle --------------------------------------------------------------

  /**
   With f the threshold as a fraction: f * active <= weighted <= active + f * (observed - active)
   and 0 <= active <= observed.
   */
  ghost predicate Triangle(f: real, active: real, weighted: real, observed: real) {
    f * active <= weighted <= active + f * (observed - active) && 0.0 <= active <= observed
  }

  ghost predicate TriangleAt(f: real, series: SeriesMap, labels: Labels) {
    Triangle(f,
             Get(series, Series(ActiveSeconds, labels)),
             Get(series, Series(WeightedSeconds(Utilization), labels)),
             Get(series, Series(ObservedSeconds(Utilization), labels)))
  }

  /** f separates the fractions of values above the threshold from the others. */
  ghost predicate Separates(f: real, threshold: real) {
    0.0 <= f <= 1.0 && forall v :: if v > threshold then f <= PercentFraction(v) else PercentFraction(v) <= f
  }

  lemma ThresholdSeparates(threshold: real)
    ensures Separates(PercentFraction(threshold), threshold)
  {
    forall v ensures if v > threshold then PercentFraction(threshold) <= PercentFraction(v)
        else PercentFraction(v) <= PercentFraction(threshold) {
      if v > threshold { PercentFractionMonotone(threshold, v); } else { PercentFractionMonotone(v, threshold); }
    }
  }

  lemma TriangleGrowsAbove(f: real, active: real, weighted: real, observed: real, fraction: real, dt: real)
    requires Triangle(f, active, weighted, observed) && dt >= 0.0 && f <= fraction <= 1.0
    ensures Triangle(f, active + dt, weighted + fraction * dt, observed + dt)
  {
    ScaleBetween(f, fraction, 1.0, dt);
    assert f * (active + dt) == f * active + f * dt;
    assert (observed + dt) - (active + dt) == observed - active;
  }

  lemma TriangleGrowsBelow(f: real, active: real, weighted: real, observed: real, fraction: real, dt: real)
    requires Triangle(f, active, weighted, observed) && dt >= 0.0 && 0.0 <= fraction <= f
    ensures Triangle(f, active, weighted + fraction * dt, observed + dt)
  {
    ScaleBetween(0.0, fraction, f, dt);
    assert f * ((observed + dt) - active) == f * (observed - active) + f * dt;
  }

  lemma TriangleAfterObservation(setup: Setup, f: real, st: State, info: GpuInfo, fields: FieldStates, o: Observation,
                                 labels: Labels)
    requires Separates(f, setup.activeThreshold) && TriangleAt(f, st.series, labels)
    ensures TriangleAt(f, ObserveOne(setup, st, info, fields, o).series, labels)
  {
    if !Skipped(fields, o.fieldId) {
      var a := AggregationForField(o.fieldId).value;
      var dt := Interval(setup, st.times, ObservationKey(info, o.fieldId), o);
      IntervalNonNegative(setup, st.times, ObservationKey(info, o.fieldId), o);
      var was := if StableIdentifier(info) in st.activity then st.activity[StableIdentifier(info)] else INACTIVE;
      var request := o.fieldId == GPU_UTIL && setup.Rule().EndsRequest(was, UtilReading(o.value, o.timestamp));
      TriangleCounted(setup, f, st.series, setup.LabelsOf(info), a, o, dt, request, labels);
    }
  }

  lemma UtilizationAdds(setup: Setup, a: Aggregate, o: Observation, dt: Duration, request: bool)
    requires dt >= 0 && AggregationForField(o.fieldId) == Some(a)
    ensures var counted := o.fieldId == GPU_UTIL && dt > 0;
            && Adds(setup, ActiveSeconds, a, o, dt, request)
                == (if counted && o.value > setup.activeThreshold then Seconds(dt) else 0.0)
            && Adds(setup, WeightedSeconds(Utilization), a, o, dt, request)
                == (if counted then PercentFraction(o.value) * Seconds(dt) else 0.0)
            && Adds(setup, ObservedSeconds(Utilization), a, o, dt, request) == (if counted then Seconds(dt) else 0.0)
  {
  }

  /** The three series of a label tuple. */
  function TriangleSeries(labels: Labels): seq<Series> {
    [Series(ActiveSeconds, labels), Series(WeightedSeconds(Utilization), labels),
     Series(ObservedSeconds(Utilization), labels)]
  }

  lemma TriangleUnmoved(f: real, before: SeriesMap, after: SeriesMap, labels: Labels)
    requires TriangleAt(f, before, labels)
    requires forall s :: s in TriangleSeries(labels) ==> Get(after, s) == Get(before, s)
    ensures TriangleAt(f, after, labels)
  {
    var t := TriangleSeries(labels);
    assert t[0] in t && t[1] in t && t[2] in t;
  }

  /** A step that does not touch the three series, or deletes all of them, keeps the triangle. */
  lemma TriangleUntouched(f: real, before: SeriesMap, after: SeriesMap, labels: Labels)
    requires TriangleAt(f, before, labels)
    requires (forall s :: s in TriangleSeries(labels) ==> Lookup(after, s) == Lookup(before, s)) ||
             (forall s :: s in TriangleSeries(labels) ==> s !in after)
    ensures TriangleAt(f, after, labels)
  {
    var t := TriangleSeries(labels);
    assert t[0] in t && t[1] in t && t[2] in t;
  }

  /** The three counters after one observation that counts. */
  ghost predicate Moved(setup: Setup, before: SeriesMap, after: SeriesMap, labels: Labels, value: real, fraction: real,
                        dt: real) {
    && Get(after, Series(ActiveSeconds, labels)) ==
         Get(before, Series(ActiveSeconds, labels)) + (if value > setup.activeThreshold then dt else 0.0)
    && Get(after, Series(WeightedSeconds(Utilization), labels)) ==
         Get(before, Series(WeightedSeconds(Utilization), labels)) + fraction * dt
    && Get(after, Series(ObservedSeconds(Utilization), labels))
        == Get(before, Series(ObservedSeconds(Utilization), labels)) + dt
  }

  lemma TriangleMoved(setup: Setup, f: real, before: SeriesMap, after: SeriesMap, labels: Labels, value: real,
                      fraction: real, dt: real)
    requires TriangleAt(f, before, labels) && Moved(setup, before, after, labels, value, fraction, dt) && dt >= 0.0
    requires 0.0 <= f <= 1.0
    requires if value > setup.activeThreshold then f <= fraction <= 1.0 else 0.0 <= fraction <= f
    ensures TriangleAt(f, after, labels)
  {
    var active := Get(before, Series(ActiveSeconds, labels));
    var weighted := Get(before, Series(WeightedSeconds(Utilization), labels));
    var observed := Get(before, Series(ObservedSeconds(Utilization), labels));
    if value > setup.activeThreshold {
      TriangleGrowsAbove(f, active, weighted, observed, fraction, dt);
    } else {
      TriangleGrowsBelow(f, active, weighted, observed, fraction, dt);
    }
  }

  lemma ObservationMoves(setup: Setup, series: SeriesMap, own: Labels, a: Aggregate, o: Observation, dt: Duration,
                         request: bool)
    requires dt > 0 && AggregationForField(o.fieldId) == Some(a) && o.fieldId == GPU_UTIL
    ensures Moved(setup, series, Counted(setup, series, own, a, o, dt, request), own, o.value,
                  PercentFraction(o.value), Seconds(dt))
  {
    CountedGet(setup, series, own, a, o, dt, request, Series(ActiveSeconds, own));
    CountedGet(setup, series, own, a, o, dt, request, Series(WeightedSeconds(Utilization), own));
    CountedGet(setup, series, own, a, o, dt, request, Series(ObservedSeconds(Utilization), own));
    UtilizationAdds(setup, a, o, dt, request);
  }

  lemma ObservationLeaves(setup: Setup, series: SeriesMap, own: Labels, a: Aggregate, o: Observation, dt: Duration,
                          request: bool, s: Series)
    requires dt >= 0 && AggregationForField(o.fieldId) == Some(a)
    requires s.labels != own || o.fieldId != GPU_UTIL || dt == 0
    requires s in TriangleSeries(s.labels)
    ensures Get(Counted(setup, series, own, a, o, dt, request), s) == Get(series, s)
  {
    CountedGet(setup, series, own, a, o, dt, request, s);
    UtilizationAdds(setup, a, o, dt, request);
  }

  lemma TriangleCounted(setup: Setup, f: real, series: SeriesMap, own: Labels, a: Aggregate, o: Observation,
                        dt: Duration, request: bool, labels: Labels)
    requires Separates(f, setup.activeThreshold) && TriangleAt(f, series, labels) && dt >= 0
    requires AggregationForField(o.fieldId) == Some(a)
    ensures TriangleAt(f, Counted(setup, series, own, a, o, dt, request), labels)
  {
    var after := Counted(setup, series, own, a, o, dt, request);
    if labels == own && o.fieldId == GPU_UTIL && dt > 0 {
      ObservationMoves(setup, series, own, a, o, dt, request);
      TriangleMoved(setup, f, series, after, labels, o.value, PercentFraction(o.value), Seconds(dt));
    } else {
      forall s | s in TriangleSeries(labels) ensures Get(after, s) == Get(series, s) {
        ObservationLeaves(setup, series, own, a, o, dt, request, s);
      }
      TriangleUnmoved(f, series, after, labels);
    }
  }

  lemma {:induction false} TriangleAfterObservations(setup: Setup, f: real, st: State, info: GpuInfo,
                                                     fields: FieldStates, observations: seq<Observation>,
                                                     labels: Labels)
    requires Separates(f, setup.activeThreshold) && TriangleAt(f, st.series, labels)
    ensures TriangleAt(f, ObserveAll(setup, st, info, fields, observations).series, labels)
  {
    if observations == [] {
    } else {
      var n := |observations| - 1;
      TriangleAfterObservations(setup, f, st, info, fields, observations[..n], labels);
      TriangleAfterObservation(setup, f, ObserveAll(setup, st, info, fields, observations[..n]), info, fields,
                               observations[n], labels);
    }
  }

  lemma TriangleAfterObserveSample(setup: Setup, f: real, st: State, sample: GpuSample, labels: Labels)
    requires Separates(f, setup.activeThreshold) && TriangleAt(f, st.series, labels)
    ensures TriangleAt(f, ObserveSample(setup, st, sample).series, labels)
  {
    var own := setup.LabelsOf(sample.info);
    var published := WithStatus(setup, st, sample);
    TriangleAfterStatus(setup, f, st.series, own, sample.fields, labels);
    TriangleAfterObservations(setup, f, published, sample.info, sample.fields, sample.observations, labels);
    var observed := WithObservations(setup, st, sample);
    TriangleAfterGauges(setup, f, observed.series, own, sample.slots, labels);
  }

  lemma TriangleAfterStatus(setup: Setup, f: real, series: SeriesMap, own: Labels, fields: FieldStates, labels: Labels)
    requires TriangleAt(f, series, labels)
    ensures TriangleAt(f, series + StatusSeries(own, fields), labels)
  {
    var after := series + StatusSeries(own, fields);
    forall s | s in TriangleSeries(labels) ensures Lookup(after, s) == Lookup(series, s) {
      StatusTouches(series, own, fields, s);
    }
    TriangleUntouched(f, series, after, labels);
  }

  lemma TriangleAfterGauges(setup: Setup, f: real, series: SeriesMap, own: Labels, slots: Slots, labels: Labels)
    requires TriangleAt(f, series, labels)
    ensures TriangleAt(f, series + GaugesFrom(own, slots, setup.gauges), labels)
  {
    var after := series + GaugesFrom(own, slots, setup.gauges);
    forall s | s in TriangleSeries(labels) ensures Lookup(after, s) == Lookup(series, s) {
      GaugesTouch(series, own, slots, setup.gauges, s);
    }
    TriangleUntouched(f, series, after, labels);
  }

  lemma TriangleAfterSample(setup: Setup, f: real, st: State, sample: GpuSample, labels: Labels)
    requires Separates(f, setup.activeThreshold) && TriangleAt(f, st.series, labels)
    ensures TriangleAt(f, CollectSample(setup, st, sample).series, labels)
  {
    TriangleAfterObserveSample(setup, f, st, sample, labels);
    TriangleAfterCounters(setup, f, ObserveSample(setup, st, sample), sample.info, sample.slots, setup.counters,
                          labels);
  }

  lemma TriangleAfterCounters(setup: Setup, f: real, st: State, info: GpuInfo, slots: Slots, table: seq<CounterSpec>,
                              labels: Labels)
    requires TriangleAt(f, st.series, labels)
    ensures TriangleAt(f, CountAll(setup, st, info, slots, table).series, labels)
  {
    forall s | s in TriangleSeries(labels) ensures Lookup(CountAll(setup, st, info, slots, table).series, s)
        == Lookup(st.series, s) {
      CountersTouch(setup, st, info, slots, table, s);
    }
    TriangleUntouched(f, st.series, CountAll(setup, st, info, slots, table).series, labels);
  }

  lemma {:induction false} TriangleAfterSamples(setup: Setup, f: real, st: State, samples: seq<GpuSample>,
                                                labels: Labels)
    requires Separates(f, setup.activeThreshold) && TriangleAt(f, st.series, labels)
    ensures TriangleAt(f, CollectSamples(setup, st, samples).series, labels)
  {
    if samples == [] {
    } else {
      var n := |samples| - 1;
      TriangleAfterSamples(setup, f, st, samples[..n], labels);
      TriangleAfterSample(setup, f, CollectSamples(setup, st, samples[..n]), samples[n], labels);
    }
  }

  lemma TriangleAfterReconcile(setup: Setup, f: real, st: State, current: seq<GpuInfo>, labels: Labels)
    requires TriangleAt(f, st.series, labels)
    ensures TriangleAt(f, Reconcile(setup, st, current).series, labels)
  {
    var gone := Outdated(st.active, ByIdentifier(current));
    var kept := Forget(setup, st, st.active, gone).series;
    forall s | s in TriangleSeries(labels)
      ensures Lookup(kept, s) == if exists id :: id in gone && labels == setup.LabelsOf(st.active[id]) then None
          else Lookup(st.series, s)
    {
      ForgetTouches(setup, st, st.active, gone, s, "");
    }
    TriangleUntouched(f, st.series, kept, labels);
  }

  lemma TriangleAfterBegin(setup: Setup, f: real, st: State, now: Time, batch: SampleBatch, labels: Labels)
    requires TriangleAt(f, st.series, labels)
    ensures TriangleAt(f, Begin(setup, st, now, batch).series, labels)
  {
    TriangleAfterReconcile(setup, f, st, batch.supported, labels);
    var kept := Reconcile(setup, st, batch.supported).series;
    var counted := ErrorsCounted(setup, kept, batch.failures);
    var after := SuccessSet(setup, counted, batch.supported, FailedIdentifiers(batch.failures));
    forall s | s in TriangleSeries(labels) ensures Lookup(after, s) == Lookup(kept, s) {
      ErrorsTouch(setup, kept, batch.failures, s);
      SuccessTouches(setup, counted, batch.supported, FailedIdentifiers(batch.failures), s);
    }
    TriangleUntouched(f, kept, after, labels);
  }

  /**
   In every reachable state and for every label tuple the utilization counters form the triangle:
   whatever the batches, through resets of unavailable fields, removals and returns of GPUs.
   */
  lemma {:induction false} TriangleInEveryRun(setup: Setup, ops: seq<Op>, labels: Labels)
    ensures TriangleAt(PercentFraction(setup.activeThreshold), Run(setup, ops).series, labels)
  {
    var f := PercentFraction(setup.activeThreshold);
    ThresholdSeparates(setup.activeThreshold);
    if ops == [] {
    } else {
      var st := Run(setup, ops[..|ops| - 1]);
      TriangleInEveryRun(setup, ops[..|ops| - 1], labels);
      match ops[|ops| - 1]
      case CollectBatch(now, batch) =>
        TriangleAfterBegin(setup, f, st, now, batch, labels);
        TriangleAfterSamples(setup, f, Begin(setup, st, now, batch), batch.samples, labels);
      case CollectError =>
      case PublishWindows(order) =>
        var after := Publish(setup, st, order).series;
        forall s | s in TriangleSeries(labels) ensures Lookup(after, s) == Lookup(st.series, s) {
          PublishTouches(setup, st.series, order, st.windows, s);
        }
        TriangleUntouched(f, st.series, after, labels);
    }
  }
}
