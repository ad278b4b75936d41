/**
 The exporter as it runs: the objects whose fields change in place (exporter.go, metrics.go). Every
 method is proved to do what the functions of module Exporter say, and the two steps of its loop,
 a collection and a publication, to be the steps of a run.
 */
module Service {
  import opened FieldSets
  import opened Clock
  import opened Identity
  import opened Aggregation
  import opened Decoding
  import opened History
  import opened Sampling
  import opened Tracker
  import opened Model = Exporter
  import opened Steps
  import opened Runs
  import opened Isolation
  import opened Requests
  import opened Readiness

  // ----- Series ----------------------------------------------------------------------------

  function WithoutLabels(series: SeriesMap, labels: Labels): SeriesMap {
    map s | s in series && s.labels != labels :: series[s]
  }

  class Metrics {
    var series: SeriesMap

    constructor ()
      ensures series == map[]
    {
      series := map[];
    }

    method Set(s: Series, value: real)
      modifies this
      ensures series == old(series)[s := value]
    {
      series := series[s := value];
    }

    method Add(s: Series, x: real)
      modifies this
      ensures series == Plus(old(series), s, x)
    {
      var previous := if s in series then series[s] else 0.0;
      series := series[s := previous + x];
    }

    method Delete(s: Series)
      modifies this
      ensures series == old(series) - {s}
    {
      series := series - {s};
    }

    /** Every series with these labels goes, whatever other labels it has. */
    method DeleteGpu(labels: Labels)
      modifies this
      ensures series == WithoutLabels(old(series), labels)
    {
      var rest := series.Keys;
      while rest != {}
        invariant rest <= old(series).Keys
        invariant series == map s | s in old(series) && (s in rest || s.labels != labels) :: old(series)[s]
      {
        var s :| s in rest;
        if s.labels == labels {
          series := series - {s};
        }
        rest := rest - {s};
      }
    }
  }

  // ----- Lemmas about one more turn of a loop ----------------------------------------------

  /** publishFieldStatus for one field. */
  function StatusPublished(series: SeriesMap, labels: Labels, f: FieldId, status: FieldStatus): SeriesMap {
    var marked := series[Series(FieldSupported(f), labels) := BoolReal(status.supported)]
                        [Series(FieldAvailable(f), labels) := BoolReal(status.available)];
    if status.lastSuccess == ZERO_TIME then marked
    else marked[Series(FieldLastSuccess(f), labels) := UnixSeconds(status.lastSuccess) as real]
  }

  /** What publishFieldStatus sets a series to for some of the fields, if it sets it. */
  function StatusAmong(labels: Labels, fields: FieldStates, done: set<FieldId>, s: Series): Option<real> {
    if FieldStatusMetric(s.metric) && s.metric.field in done then StatusValue(labels, fields, s) else None
  }

  function OrElse(first: Option<real>, second: Option<real>): Option<real> { if first.Some? then first else second }

  lemma StatusMeaning(series: SeriesMap, labels: Labels, fields: FieldStates, s: Series)
    ensures Lookup(series + StatusSeries(labels, fields), s)
        == OrElse(StatusValue(labels, fields, s), Lookup(series, s))
  {
  }

  lemma StatusPublishedAt(series: SeriesMap, labels: Labels, f: FieldId, status: FieldStatus, s: Series)
    ensures Lookup(StatusPublished(series, labels, f, status), s)
            == if s.labels == labels && FieldStatusMetric(s.metric) && s.metric.field == f
               then OrElse(ShownStatus(s.metric, status), Lookup(series, s)) else Lookup(series, s)
  {
  }

  /** `series` is `start` with the status of these fields published. */
  ghost predicate Shows(series: SeriesMap, start: SeriesMap, labels: Labels, fields: FieldStates, done: set<FieldId>) {
    forall s :: Lookup(series, s) == OrElse(StatusAmong(labels, fields, done, s), Lookup(start, s))
  }

  lemma StatusOneMore(series: SeriesMap, start: SeriesMap, labels: Labels, fields: FieldStates, done: set<FieldId>,
                      f: FieldId)
    requires f in fields && f !in done && Shows(series, start, labels, fields, done)
    ensures Shows(StatusPublished(series, labels, f, fields[f]), start, labels, fields, done + {f})
  {
    forall s ensures Lookup(StatusPublished(series, labels, f, fields[f]), s)
        == OrElse(StatusAmong(labels, fields, done + {f}, s), Lookup(start, s)) {
      StatusPublishedAt(series, labels, f, fields[f], s);
    }
  }

  lemma StatusOfAll(series: SeriesMap, start: SeriesMap, labels: Labels, fields: FieldStates)
    requires Shows(series, start, labels, fields, fields.Keys)
    ensures series == start + StatusSeries(labels, fields)
  {
    forall s ensures Lookup(series, s) == Lookup(start + StatusSeries(labels, fields), s) {
      StatusMeaning(start, labels, fields, s);
    }
    SameLookups(series, start + StatusSeries(labels, fields));
  }

  lemma FailedPrefix(failures: seq<Failure>, n: nat)
    requires n < |failures|
    ensures FailedIdentifiers(failures[..n + 1]) == FailedIdentifiers(failures[..n])
        + {StableIdentifier(failures[n].info)}
    ensures failures[..n + 1][..n] == failures[..n]
  {
    assert failures[..n + 1] == failures[..n] + [failures[n]];
  }

  lemma SameLookups(a: SeriesMap, b: SeriesMap)
    requires forall s :: Lookup(a, s) == Lookup(b, s)
    ensures a == b
  {
    forall s ensures s in a <==> s in b {
      assert Lookup(a, s) == Lookup(b, s);
    }
    forall s | s in a ensures a[s] == b[s] {
      assert Lookup(a, s) == Lookup(b, s);
    }
  }

  lemma GaugesOneMore(series: SeriesMap, labels: Labels, slots: Slots, fields: seq<FieldId>, f: FieldId)
    ensures series + GaugesFrom(labels, slots, fields + [f])
            == (var shown, value := series + GaugesFrom(labels, slots, fields), GaugeValue(slots, f);
                if value.Some? then shown[Series(Current(f), labels) := value.value] else shown)
  {
  }

  function CutsAmong(info: GpuInfo, fields: FieldStates, done: set<FieldId>): set<string> {
    set f | f in CutFields(fields) && f in done :: ObservationKey(info, f)
  }

  lemma CutsOneMore(info: GpuInfo, fields: FieldStates, done: set<FieldId>, f: FieldId)
    ensures CutsAmong(info, fields, done + {f}) == CutsAmong(info, fields, done) + if f in CutFields(fields)
        then {ObservationKey(info, f)} else {}
  {
  }

  function WithoutPrefix<V>(stored: map<string, V>, id: string): map<string, V> {
    map key | key in stored && !Dropped(id, key) :: stored[key]
  }

  lemma ForgetNothing(setup: Setup, st: State, infos: map<string, GpuInfo>)
    ensures Forget(setup, st, infos, {}) == st
  {
  }

  lemma ForgetOneMore(setup: Setup, st: State, infos: map<string, GpuInfo>, ids: set<string>, id: string)
    requires ids <= infos.Keys && id in infos
    ensures var before, after := Forget(setup, st, infos, ids), Forget(setup, st, infos, ids + {id});
            after == before.(series := WithoutLabels(before.series, setup.LabelsOf(infos[id])),
                             hardware := WithoutPrefix(before.hardware, id), times := WithoutPrefix(before.times, id))
  {
    var before, after := Forget(setup, st, infos, ids), Forget(setup, st, infos, ids + {id});
    assert after.series == WithoutLabels(before.series, setup.LabelsOf(infos[id]));
    assert after.hardware == WithoutPrefix(before.hardware, id);
    assert after.times == WithoutPrefix(before.times, id);
  }

  lemma PublishNothing(series: SeriesMap, labels: Labels, id: string, snapshot: Windows)
    ensures PublishGpu(series, labels, id, snapshot, {}) == series
  {
  }

  lemma PublishOneMore(series: SeriesMap, labels: Labels, id: string, snapshot: Windows, done: set<Aggregate>,
                       a: Aggregate)
    requires a !in done
    ensures PublishGpu(series, labels, id, snapshot, done + {a})
        == PublishOne(PublishGpu(series, labels, id, snapshot, done), labels, id, snapshot, a)
  {
    var left := PublishGpu(series, labels, id, snapshot, done + {a});
    var right := PublishOne(PublishGpu(series, labels, id, snapshot, done), labels, id, snapshot, a);
    forall s ensures Lookup(left, s) == Lookup(right, s) {
      PublishGpuTouches(series, labels, id, snapshot, done + {a}, s);
      PublishGpuTouches(series, labels, id, snapshot, done, s);
    }
    SameLookups(left, right);
  }

  lemma CollectOneMore(setup: Setup, st: State, samples: seq<GpuSample>, i: nat)
    requires i < |samples|
    ensures CollectSamples(setup, st, samples[..i + 1])
        == Model.CollectSample(setup, CollectSamples(setup, st, samples[..i]), samples[i])
  {
    assert samples[..i + 1][..i] == samples[..i];
  }

  /** GPUs are filed under their own identifier. */
  ghost predicate Filed(active: map<string, GpuInfo>) {
    forall id :: id in active ==> StableIdentifier(active[id]) == id
  }

  lemma {:induction false} ByIdentifierIsFiled(current: seq<GpuInfo>)
    ensures Filed(ByIdentifier(current))
  {
    if current == [] {
    } else {
      ByIdentifierIsFiled(current[..|current| - 1]);
    }
  }

  // ----- The exporter ----------------------------------------------------------------------

  class Exporter {
    const setup: Setup
    const metrics: Metrics
    const window: WindowAggregator
    const activity: ActivityTracker
    var hardwareCounters: map<string, real>
    var observationTimes: Times
    var activeGpus: map<string, GpuInfo>
    var health: Health
    /** The collections and publications so far. */
    ghost var ops: seq<Op>

    ghost predicate Valid()
      reads this, window, activity
    {
      window.Valid() && activity.Valid() && activity.rule == setup.Rule() && Filed(activeGpus)
    }

    ghost function Contents(): State
      reads this, metrics, window, activity
    {
      State(metrics.series, hardwareCounters, observationTimes, activeGpus, window.windows, activity.states, health)
    }

    /** The exporter is where a run of its operations leads. */
    ghost predicate OnTrack()
      reads this, metrics, window, activity
    {
      Valid() && Contents() == Run(setup, ops)
    }

    constructor (setup: Setup)
      ensures OnTrack() && this.setup == setup && ops == [] && fresh(metrics) && fresh(window) && fresh(activity)
    {
      this.setup := setup;
      metrics := new Metrics();
      window := new WindowAggregator();
      activity := new ActivityTracker(setup.activeThreshold, setup.minRequestTime);
      hardwareCounters, observationTimes, activeGpus := map[], map[], map[];
      health := INITIAL.health;
      ops := [];
    }

    // Observations.

    method ObservationInterval(info: GpuInfo, fieldId: FieldId, now: Time) returns (dt: Duration)
      modifies this`observationTimes
      ensures forall value :: dt == Interval(setup, old(observationTimes), ObservationKey(info, fieldId),
                                             Observation(fieldId, now, value))
      ensures observationTimes == StoredTimes(old(observationTimes), ObservationKey(info, fieldId), now)
    {
      if now == ZERO_TIME {
        return 0;
      }
      var key := ObservationKey(info, fieldId);
      var known := key in observationTimes;
      var previous := if known then observationTimes[key] else ZERO_TIME;
      observationTimes := observationTimes[key := now];
      if !known || now <= previous {
        return 0;
      }
      var delta := now - previous;
      if delta > setup.maxGap(fieldId) {
        return 0;
      }
      return delta;
    }

    method CountActivity(labels: Labels, gpuKey: string, o: Observation, dt: Duration)
      requires Valid()
      modifies metrics, activity
      ensures Valid()
      ensures var was, reading := ActivityOf(old(activity.states), gpuKey), UtilReading(o.value, o.timestamp);
              && activity.states == (if o.fieldId == GPU_UTIL
                  then old(activity.states)[gpuKey := setup.Rule().Next(was, reading)] else old(activity.states))
              && metrics.series == CountedActivity(setup, old(metrics.series), labels, o, dt, o.fieldId == GPU_UTIL
                  && setup.Rule().EndsRequest(was, reading))
    {
      if o.fieldId == GPU_UTIL {
        var request := activity.Observe(gpuKey, o.value, o.timestamp);
        if request {
          metrics.Add(Series(RequestCount, labels), 1.0);
          metrics.Add(Series(ActivityWindows, labels), 1.0);
        }
        if dt > 0 && o.value > setup.activeThreshold {
          metrics.Add(Series(ActiveSeconds, labels), Seconds(dt));
        }
      }
    }

    method CountIntegral(labels: Labels, a: Aggregate, o: Observation, dt: Duration)
      modifies metrics
      ensures metrics.series == CountedIntegrals(old(metrics.series), labels, a, o, dt)
    {
      if IsIntegral(a) && dt > 0 {
        var fraction := RatioFraction(o.value);
        if a.Utilization? {
          fraction := PercentFraction(o.value);
        }
        metrics.Add(Series(WeightedSeconds(a), labels), Amount(fraction, dt));
        metrics.Add(Series(ObservedSeconds(a), labels), Seconds(dt));
      }
    }

    method CountRates(labels: Labels, a: Aggregate, o: Observation, dt: Duration)
      modifies metrics
      ensures metrics.series == CountedRates(old(metrics.series), labels, a, o, dt)
    {
      if IsRate(a) && dt > 0 {
        metrics.Add(Series(RateTotal(a), labels), Amount(o.value, dt));
      }
      if o.fieldId == POWER_USAGE && dt > 0 {
        metrics.Add(Series(EnergyEstimated, labels), Amount(o.value, dt));
      }
    }

    /** One turn of the loop of processObservations. */
    method ProcessObservation(info: GpuInfo, fields: FieldStates, o: Observation)
      requires Valid()
      modifies this`observationTimes, metrics, window, activity
      ensures Valid() && Contents() == ObserveOne(setup, old(Contents()), info, fields, o)
    {
      var aggregation := AggregationForField(o.fieldId);
      if aggregation.None? {
        return;
      }
      if IsLegacyPcie(o.fieldId) && StatusOf(fields, DcpPcieField(o.fieldId)).available {
        return;
      }
      var gpuKey, labels := StableIdentifier(info), setup.LabelsOf(info);
      window.Observe(gpuKey, aggregation.value, o.value);
      var dt := ObservationInterval(info, o.fieldId, o.timestamp);
      assert dt == Interval(setup, old(observationTimes), ObservationKey(info, o.fieldId),
                            Observation(o.fieldId, o.timestamp, o.value));
      CountActivity(labels, gpuKey, o, dt);
      CountIntegral(labels, aggregation.value, o, dt);
      CountRates(labels, aggregation.value, o, dt);
    }

    method ProcessObservations(sample: GpuSample)
      requires Valid()
      modifies this`observationTimes, metrics, window, activity
      ensures Valid() && Contents() == ObserveAll(setup, old(Contents()), sample.info, sample.fields,
                                                  sample.observations)
    {
      var all := sample.observations;
      for i := 0 to |all|
        invariant Valid() && Contents() == ObserveAll(setup, old(Contents()), sample.info, sample.fields, all[..i])
      {
        assert all[..i + 1][..i] == all[..i];
        ProcessObservation(sample.info, sample.fields, all[i]);
      }
      assert all[..|all|] == all;
    }

    method ResetUnavailableFields(info: GpuInfo, fields: FieldStates)
      modifies this`observationTimes
      ensures observationTimes == old(observationTimes) - CutKeys(info, fields)
    {
      var rest := fields.Keys;
      while rest != {}
        invariant rest <= fields.Keys
        invariant observationTimes == old(observationTimes) - CutsAmong(info, fields, fields.Keys - rest)
      {
        var f :| f in rest;
        CutsOneMore(info, fields, fields.Keys - rest, f);
        if fields[f].supported && !fields[f].available {
          observationTimes := observationTimes - {ObservationKey(info, f)};
        }
        rest := rest - {f};
        assert fields.Keys - rest == (fields.Keys - (rest + {f})) + {f};
      }
      assert CutsAmong(info, fields, fields.Keys) == CutKeys(info, fields);
    }

    method PublishFieldStatus(labels: Labels, fields: FieldStates)
      modifies metrics
      ensures metrics.series == old(metrics.series) + StatusSeries(labels, fields)
    {
      var rest := fields.Keys;
      ghost var start := metrics.series;
      ghost var done: set<FieldId> := {};
      while rest != {}
        invariant done !! rest && done + rest == fields.Keys
        invariant Shows(metrics.series, start, labels, fields, done)
      {
        var f :| f in rest;
        StatusOneMore(metrics.series, start, labels, fields, done, f);
        PublishStatusOf(labels, f, fields[f]);
        rest := rest - {f};
        done := done + {f};
      }
      assert done == fields.Keys;
      StatusOfAll(metrics.series, start, labels, fields);
    }

    method PublishStatusOf(labels: Labels, f: FieldId, status: FieldStatus)
      modifies metrics
      ensures metrics.series == StatusPublished(old(metrics.series), labels, f, status)
    {
      metrics.Set(Series(FieldSupported(f), labels), BoolReal(status.supported));
      metrics.Set(Series(FieldAvailable(f), labels), BoolReal(status.available));
      if status.lastSuccess != ZERO_TIME {
        metrics.Set(Series(FieldLastSuccess(f), labels), UnixSeconds(status.lastSuccess) as real);
      }
    }

    /** The setGauge calls of collectSample. */
    method SetGauges(labels: Labels, slots: Slots)
      modifies metrics
      ensures metrics.series == old(metrics.series) + GaugesFrom(labels, slots, setup.gauges)
    {
      var fields := setup.gauges;
      for i := 0 to |fields|
        invariant metrics.series == old(metrics.series) + GaugesFrom(labels, slots, fields[..i])
      {
        assert fields[..i + 1] == fields[..i] + [fields[i]];
        GaugesOneMore(old(metrics.series), labels, slots, fields[..i], fields[i]);
        var value := GaugeValue(slots, fields[i]);
        if value.Some? {
          metrics.Set(Series(Current(fields[i]), labels), value.value);
        }
      }
      assert fields[..|fields|] == fields;
    }

    // Hardware counters.

    method ObserveHardwareCounter(key: string, value: real, s: Series)
      modifies this`hardwareCounters, metrics
      ensures Contents() == CountHardware(old(Contents()), key, value, s)
    {
      if value < 0.0 {
        return;
      }
      var delta := value;
      if key in hardwareCounters {
        if value >= hardwareCounters[key] {
          delta := value - hardwareCounters[key];
        } else {
          delta := value;
        }
      }
      hardwareCounters := hardwareCounters[key := value];
      metrics.Add(s, delta);
    }

    method ObserveReliabilityCounters(sample: GpuSample, labels: Labels)
      requires labels == setup.LabelsOf(sample.info)
      modifies this`hardwareCounters, metrics
      ensures Contents() == CountAll(setup, old(Contents()), sample.info, sample.slots, setup.counters)
    {
      var table := setup.counters;
      for i := 0 to |table|
        invariant Contents() == CountAll(setup, old(Contents()), sample.info, sample.slots, table[..i])
      {
        assert table[..i + 1][..i] == table[..i];
        if table[i].field in sample.slots {
          ObserveHardwareCounter(HardwareCounterKey(sample.info, table[i].suffix), sample.slots[table[i].field],
                                 Series(HardwareTotal(table[i].suffix), labels));
        }
      }
      assert table[..|table|] == table;
    }

    method ReadSample(sample: GpuSample)
      requires Valid()
      modifies this`observationTimes, metrics, window, activity
      ensures Valid() && Contents() == WithObservations(setup, old(Contents()), sample)
    {
      PublishFieldStatus(setup.LabelsOf(sample.info), sample.fields);
      ProcessObservations(sample);
    }

    method ObserveSample(sample: GpuSample)
      requires Valid()
      modifies this`observationTimes, metrics, window, activity
      ensures Valid() && Contents() == Model.ObserveSample(setup, old(Contents()), sample)
    {
      ReadSample(sample);
      ResetUnavailableFields(sample.info, sample.fields);
      SetGauges(setup.LabelsOf(sample.info), sample.slots);
    }

    method CollectSample(sample: GpuSample)
      requires Valid()
      modifies this`observationTimes, this`hardwareCounters, metrics, window, activity
      ensures Valid() && Contents() == Model.CollectSample(setup, old(Contents()), sample)
    {
      ObserveSample(sample);
      ObserveReliabilityCounters(sample, setup.LabelsOf(sample.info));
    }

    // Identity.

    method DeleteGpuState(gpuKey: string)
      modifies this`hardwareCounters, this`observationTimes
      ensures hardwareCounters == WithoutPrefix(old(hardwareCounters), gpuKey)
      ensures observationTimes == WithoutPrefix(old(observationTimes), gpuKey)
    {
      var prefix := gpuKey + ":";
      var rest := hardwareCounters.Keys;
      while rest != {}
        invariant rest <= old(hardwareCounters).Keys && observationTimes == old(observationTimes)
        invariant hardwareCounters ==
                  map key | key in old(hardwareCounters) && (key in rest || !Dropped(gpuKey, key)) ::
                    old(hardwareCounters)[key]
      {
        var key :| key in rest;
        if prefix <= key {
          hardwareCounters := hardwareCounters - {key};
        }
        rest := rest - {key};
      }
      rest := observationTimes.Keys;
      while rest != {}
        invariant rest <= old(observationTimes).Keys && hardwareCounters == WithoutPrefix(old(hardwareCounters), gpuKey)
        invariant observationTimes ==
                  map key | key in old(observationTimes) && (key in rest || !Dropped(gpuKey, key)) ::
                    old(observationTimes)[key]
      {
        var key :| key in rest;
        if prefix <= key {
          observationTimes := observationTimes - {key};
        }
        rest := rest - {key};
      }
    }

    method FileByIdentifier(current: seq<GpuInfo>) returns (next: map<string, GpuInfo>)
      ensures next == ByIdentifier(current)
    {
      next := map[];
      for i := 0 to |current|
        invariant next == ByIdentifier(current[..i])
      {
        assert current[..i + 1][..i] == current[..i];
        next := next[StableIdentifier(current[i]) := current[i]];
      }
      assert current[..|current|] == current;
    }

    method ReconcileGpus(current: seq<GpuInfo>)
      requires Valid()
      modifies this`hardwareCounters, this`observationTimes, this`activeGpus, metrics
      ensures Valid() && Contents() == Reconcile(setup, old(Contents()), current)
    {
      ghost var start := Contents();
      var previous := activeGpus;
      activeGpus := FileByIdentifier(current);
      ByIdentifierIsFiled(current);
      ForgetNothing(setup, start, previous);
      var rest := previous.Keys;
      ghost var gone: set<string> := {};
      while rest != {}
        invariant Valid() && activeGpus == ByIdentifier(current)
        invariant rest <= previous.Keys && gone == Outdated(previous, activeGpus) - rest
        invariant Contents() == Forget(setup, start, previous, gone).(active := activeGpus)
      {
        var key :| key in rest;
        OutdatedBut(previous, activeGpus, rest, key);
        if !(key in activeGpus && SameIdentity(previous[key], activeGpus[key])) {
          ForgetGpu(start, previous, gone, key);
          gone := gone + {key};
        }
        rest := rest - {key};
      }
      assert gone == Outdated(previous, activeGpus);
    }

    lemma OutdatedBut(previous: map<string, GpuInfo>, next: map<string, GpuInfo>, rest: set<string>, key: string)
      requires key in rest && rest <= previous.Keys
      ensures Outdated(previous, next) - (rest - {key}) == Outdated(previous, next) - rest
          + if key in next && SameIdentity(previous[key], next[key]) then {} else {key}
    {
    }

    method ForgetGpu(ghost start: State, infos: map<string, GpuInfo>, ghost gone: set<string>, key: string)
      requires gone <= infos.Keys && key in infos && Contents()
          == Forget(setup, start, infos, gone).(active := activeGpus)
      modifies this`hardwareCounters, this`observationTimes, metrics
      ensures Contents() == Forget(setup, start, infos, gone + {key}).(active := activeGpus)
    {
      ForgetOneMore(setup, start, infos, gone, key);
      metrics.DeleteGpu(setup.LabelsOf(infos[key]));
      DeleteGpuState(key);
    }

    // Health.

    method MarkCollection(now: Time, batch: SampleBatch)
      modifies this`health
      ensures health == Marked(old(health), now, batch)
    {
      var failed: set<string> := {};
      for i := 0 to |batch.failures|
        invariant health == old(health)
        invariant failed == FailedIdentifiers(batch.failures[..i])
      {
        FailedPrefix(batch.failures, i);
        failed := failed + {StableIdentifier(batch.failures[i].info)};
      }
      assert batch.failures[..|batch.failures|] == batch.failures;
      var complete := |batch.supported| > 0 && |batch.samples| == |batch.supported| && |failed| == 0;
      if complete {
        health := health.(lastSuccess := now, lastGpuCount := |batch.supported|);
      } else {
        health := health.(lastGpuCount := 0);
      }
      health := health.(up := true, complete := complete, discovered := |batch.supported|,
                        collected := |batch.samples|, failed := |failed|);
      if !complete {
        health := health.(errors := health.errors + 1);
      }
    }

    /**
     A failed attempt is a step of the run, after which the exporter is ready at no time, whatever
     succeeded before.
     */
    method MarkCollectFailure()
      requires OnTrack()
      modifies this`health, this`ops
      ensures OnTrack() && ops == old(ops) + [CollectError]
      ensures forall now :: !Model.Ready(setup, health, now)
      ensures health.lastSuccess == LatestCompletion(old(ops)) && health.errors == IncompleteAttempts(old(ops)) + 1
    {
      HealthInEveryRun(setup, ops);
      ghost var next := ops + [CollectError];
      assert next[..|ops|] == ops;
      health := health.(lastGpuCount := 0);
      health := health.(up := false, complete := false, discovered := 0, collected := 0, failed := 0);
      health := health.(errors := health.errors + 1);
      ops := next;
    }

    method PublishGpuCollectionStatus(batch: SampleBatch)
      modifies metrics
      ensures metrics.series == SuccessSet(setup, ErrorsCounted(setup, old(metrics.series), batch.failures),
                                           batch.supported, FailedIdentifiers(batch.failures))
    {
      var failed := CountErrors(batch.failures);
      SetSuccess(batch.supported, failed);
    }

    method CountErrors(failures: seq<Failure>) returns (failed: set<string>)
      modifies metrics
      ensures failed == FailedIdentifiers(failures) && metrics.series
          == ErrorsCounted(setup, old(metrics.series), failures)
    {
      failed := {};
      for i := 0 to |failures|
        invariant failed == FailedIdentifiers(failures[..i])
        invariant metrics.series == ErrorsCounted(setup, old(metrics.series), failures[..i])
      {
        FailedPrefix(failures, i);
        failed := failed + {StableIdentifier(failures[i].info)};
        metrics.Add(Series(CollectionErrors(failures[i].reason), setup.LabelsOf(failures[i].info)), 1.0);
      }
      assert failures[..|failures|] == failures;
    }

    method SetSuccess(supported: seq<GpuInfo>, failed: set<string>)
      modifies metrics
      ensures metrics.series == SuccessSet(setup, old(metrics.series), supported, failed)
    {
      for i := 0 to |supported|
        invariant metrics.series == SuccessSet(setup, old(metrics.series), supported[..i], failed)
      {
        assert supported[..i + 1][..i] == supported[..i];
        metrics.Set(Series(CollectSuccess, setup.LabelsOf(supported[i])),
                    BoolReal(StableIdentifier(supported[i]) !in failed));
      }
      assert supported[..|supported|] == supported;
    }

    /** The answer is that of the latest attempt alone. */
    method Ready(now: Time) returns (ready: bool)
      requires OnTrack()
      ensures ready <==> ReadyBy(setup, LatestAttempt(ops), now)
    {
      ReadyMeansLatestAttemptComplete(setup, ops, now);
      if health.lastGpuCount <= 0 || health.lastSuccess == ZERO_TIME {
        return false;
      }
      return now - health.lastSuccess <= setup.maxAge;
    }

    // The two steps of the loop.

    /** collect, given what the client answered: nothing when it failed. */
    method Collect(now: Time, answer: Option<SampleBatch>) returns (ok: bool)
      requires OnTrack()
      modifies this, metrics, window, activity
      ensures OnTrack() && ok == answer.Some?
      ensures ops == old(ops) + [if answer.Some? then CollectBatch(now, answer.value) else CollectError]
    {
      if answer.None? {
        MarkCollectFailure();
        return false;
      }
      ghost var next := ops + [CollectBatch(now, answer.value)];
      assert next[..|ops|] == ops;
      CollectAll(now, answer.value);
      ops := next;
      return true;
    }

    method CollectAll(now: Time, batch: SampleBatch)
      requires Valid()
      modifies this`health, this`hardwareCounters, this`observationTimes, this`activeGpus, metrics, window, activity
      ensures Valid() && Contents() == Model.Collect(setup, old(Contents()), now, batch)
    {
      BeginCollection(now, batch);
      CollectAllSamples(batch.samples);
    }

    method BeginCollection(now: Time, batch: SampleBatch)
      requires Valid()
      modifies this`health, this`hardwareCounters, this`observationTimes, this`activeGpus, metrics
      ensures Valid() && Contents() == Begin(setup, old(Contents()), now, batch)
    {
      ReconcileGpus(batch.supported);
      MarkCollection(now, batch);
      PublishGpuCollectionStatus(batch);
    }

    method CollectAllSamples(samples: seq<GpuSample>)
      requires Valid()
      modifies this`hardwareCounters, this`observationTimes, metrics, window, activity
      ensures Valid() && Contents() == CollectSamples(setup, old(Contents()), samples)
    {
      for i := 0 to |samples|
        invariant Valid() && Contents() == CollectSamples(setup, old(Contents()), samples[..i])
      {
        CollectNext(samples, i, old(Contents()));
      }
      assert samples[..|samples|] == samples;
    }

    method CollectNext(samples: seq<GpuSample>, i: nat, ghost start: State)
      requires Valid() && i < |samples| && Contents() == CollectSamples(setup, start, samples[..i])
      modifies this`hardwareCounters, this`observationTimes, metrics, window, activity
      ensures Valid() && Contents() == CollectSamples(setup, start, samples[..i + 1])
    {
      CollectOneMore(setup, start, samples, i);
      CollectSample(samples[i]);
    }

    method PublishAggregate(labels: Labels, gpuKey: string, snapshot: Windows, a: Aggregate)
      modifies metrics
      ensures metrics.series == PublishOne(old(metrics.series), labels, gpuKey, snapshot, a)
    {
      var key := WindowKey(gpuKey, a);
      if key !in snapshot || snapshot[key].count == 0 {
        metrics.Delete(Series(WindowMax(a), labels));
        metrics.Delete(Series(WindowAvg(a), labels));
      } else {
        metrics.Set(Series(WindowMax(a), labels), snapshot[key].max);
        metrics.Set(Series(WindowAvg(a), labels), snapshot[key].Avg());
      }
    }

    method PublishAggregates(info: GpuInfo, snapshot: Windows)
      modifies metrics
      ensures metrics.series == PublishGpu(old(metrics.series), setup.LabelsOf(info), StableIdentifier(info), snapshot,
                                           AllAggregates())
    {
      var labels, gpuKey := setup.LabelsOf(info), StableIdentifier(info);
      ghost var start, all := metrics.series, AllAggregates();
      ghost var done: set<Aggregate> := {};
      PublishNothing(start, labels, gpuKey, snapshot);
      var rest := AllAggregates();
      while rest != {}
        invariant done !! rest && done + rest == all
        invariant metrics.series == PublishGpu(start, labels, gpuKey, snapshot, done)
      {
        var a :| a in rest;
        PublishOneMore(start, labels, gpuKey, snapshot, done, a);
        PublishAggregate(labels, gpuKey, snapshot, a);
        rest := rest - {a};
        done := done + {a};
      }
      assert done == all;
    }

    /** The active GPUs, in the order the map happens to give them. */
    method ActiveInfos() returns (infos: seq<GpuInfo>)
      requires Filed(activeGpus)
      ensures Lists(infos, activeGpus)
    {
      infos := [];
      var rest := activeGpus.Keys;
      while rest != {}
        invariant rest <= activeGpus.Keys
        invariant forall info :: info in infos ==>
                    StableIdentifier(info) in activeGpus && activeGpus[StableIdentifier(info)] == info
        invariant forall id :: id in activeGpus && id !in rest ==> activeGpus[id] in infos
      {
        var id :| id in rest;
        infos := infos + [activeGpus[id]];
        rest := rest - {id};
      }
    }

    method PublishInfos(infos: seq<GpuInfo>, snapshot: Windows)
      modifies metrics
      ensures metrics.series == PublishGpus(setup, old(metrics.series), infos, snapshot)
    {
      for i := 0 to |infos|
        invariant metrics.series == PublishGpus(setup, old(metrics.series), infos[..i], snapshot)
      {
        assert infos[..i + 1][..i] == infos[..i];
        PublishAggregates(infos[i], snapshot);
      }
      assert infos[..|infos|] == infos;
    }

    method PublishWindow()
      requires OnTrack()
      modifies this`ops, metrics, window
      ensures OnTrack()
      ensures exists order :: Lists(order, old(activeGpus)) && ops == old(ops) + [PublishWindows(order)]
      ensures window.windows == map[]
    {
      var snapshot := window.Snapshot();
      var infos := ActiveInfos();
      PublishInfos(infos, snapshot);
      ghost var next := ops + [PublishWindows(infos)];
      assert next[..|ops|] == ops;
      ops := next;
    }
  }
}
