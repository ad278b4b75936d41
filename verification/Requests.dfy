/**
 Requests over whole runs: the activity of an identifier is that of all its utilization readings,
 and the request counters of a GPU count the requests that ended since the GPU appeared.
 */
module Requests {
  import opened FieldSets
  import opened Clock
  import opened Identity
  import opened History
  import opened Sampling
  import opened Tracker
  import opened Exporter
  import opened Steps
  import opened Runs
  import opened Isolation
  import opened Histories

  // ----- Utilization readings --------------------------------------------------------------

  function UtilOf(o: Observation): seq<UtilReading> {
    if o.fieldId == GPU_UTIL then [UtilReading(o.value, o.timestamp)] else []
  }

  function UtilIn(observations: seq<Observation>): seq<UtilReading> {
    if observations == [] then []
    else UtilIn(observations[..|observations| - 1]) + UtilOf(observations[|observations| - 1])
  }

  function UtilsOf(id: string, samples: seq<GpuSample>): seq<UtilReading> {
    if samples == [] then [] else UtilsOf(id, samples[..|samples| - 1]) + SampleUtils(id, samples[|samples| - 1])
  }

  function SampleUtils(id: string, sample: GpuSample): seq<UtilReading> {
    if StableIdentifier(sample.info) == id then UtilIn(sample.observations) else []
  }

  /** Every utilization reading under an identifier; removing the GPU does not end this history. */
  function UtilHistory(ops: seq<Op>, id: string): seq<UtilReading> {
    if ops == [] then []
    else if ops[|ops| - 1].CollectBatch? then UtilHistory(ops[..|ops| - 1], id)
        + UtilsOf(id, ops[|ops| - 1].batch.samples)
    else UtilHistory(ops[..|ops| - 1], id)
  }

  /** The readings before the GPU last appeared or changed its labels. */
  function BeforeLife(setup: Setup, ops: seq<Op>, id: string): seq<UtilReading> {
    if ops == [] then []
    else
      var n := |ops| - 1;
      match ops[n]
      case CollectBatch(now, batch) =>
        if Stays(Run(setup, ops[..n]), batch.supported, id) then BeforeLife(setup, ops[..n], id)
            else UtilHistory(ops[..n], id)
      case _ => BeforeLife(setup, ops[..n], id)
  }

  // ----- The counters of one GPU -----------------------------------------------------------

  function ActivityOf(activity: map<string, GpuActivity>, id: string): GpuActivity {
    if id in activity then activity[id] else INACTIVE
  }

  /** The stored activity and one of the two request counters follow a history of readings. */
  datatype Requester = Requester(rule: ActivityRule, id: string, labels: Labels, metric: Metric, base: nat) {
    function Line(): Series { Series(metric, labels) }

    ghost predicate CountsRequests() { metric.RequestCount? || metric.ActivityWindows? }

    ghost predicate Follows(activity: map<string, GpuActivity>, series: SeriesMap, history: seq<UtilReading>) {
      && ActivityOf(activity, id) == rule.After(history)
      && Get(series, Line()) == rule.Requests(history) as real - base as real
    }

    lemma Keep(activity: map<string, GpuActivity>, series: SeriesMap, activity': map<string, GpuActivity>,
               series': SeriesMap, history: seq<UtilReading>)
      requires Follows(activity, series, history)
      requires ActivityOf(activity', id) == ActivityOf(activity, id)
      requires Lookup(series', Line()) == Lookup(series, Line())
      ensures Follows(activity', series', history)
    {
    }
  }

  lemma ActivityAfterObservation(setup: Setup, st: State, info: GpuInfo, fields: FieldStates, o: Observation,
                                 id: string)
    ensures ActivityOf(ObserveOne(setup, st, info, fields, o).activity, id)
            == if o.fieldId == GPU_UTIL && StableIdentifier(info) == id
               then setup.Rule().Next(ActivityOf(st.activity, id), UtilReading(o.value, o.timestamp))
               else ActivityOf(st.activity, id)
  {
  }

  lemma RequestAdded(setup: Setup, st: State, info: GpuInfo, fields: FieldStates, o: Observation, q: Requester)
    requires q.CountsRequests() && q.labels == setup.LabelsOf(info) && q.id == StableIdentifier(info)
    ensures Get(ObserveOne(setup, st, info, fields, o).series, q.Line())
            == Get(st.series, q.Line()) +
               BoolReal(o.fieldId == GPU_UTIL &&
                        setup.Rule().EndsRequest(ActivityOf(st.activity, q.id), UtilReading(o.value, o.timestamp)))
  {
    ObserveOneAdds(setup, st, info, fields, o, q.Line());
  }

  lemma CountsObservation(setup: Setup, st: State, info: GpuInfo, fields: FieldStates, o: Observation, q: Requester,
                          history: seq<UtilReading>)
    requires q.CountsRequests() && q.labels == setup.LabelsOf(info) && q.id == StableIdentifier(info)
    requires q.rule == setup.Rule()
    requires q.Follows(st.activity, st.series, history)
    ensures var after := ObserveOne(setup, st, info, fields, o);
            q.Follows(after.activity, after.series, history + UtilOf(o))
  {
    ActivityAfterObservation(setup, st, info, fields, o, q.id);
    RequestAdded(setup, st, info, fields, o, q);
    if o.fieldId == GPU_UTIL {
      q.rule.OneMoreReading(history, UtilReading(o.value, o.timestamp));
    } else {
      assert history + [] == history;
    }
  }

  lemma {:induction false} CountsObservations(setup: Setup, st: State, info: GpuInfo, fields: FieldStates,
                                              observations: seq<Observation>, q: Requester, history: seq<UtilReading>)
    requires q.CountsRequests() && q.labels == setup.LabelsOf(info) && q.id == StableIdentifier(info)
    requires q.rule == setup.Rule()
    requires q.Follows(st.activity, st.series, history)
    ensures var after := ObserveAll(setup, st, info, fields, observations);
            q.Follows(after.activity, after.series, history + UtilIn(observations))
  {
    if observations == [] {
      assert history + [] == history;
    } else {
      var n := |observations| - 1;
      CountsObservations(setup, st, info, fields, observations[..n], q, history);
      CountsObservation(setup, ObserveAll(setup, st, info, fields, observations[..n]), info, fields, observations[n], q,
                        history + UtilIn(observations[..n]));
      assert (history + UtilIn(observations[..n])) + UtilOf(observations[n]) == history + UtilIn(observations);
    }
  }

  lemma {:induction false} OtherActivity(setup: Setup, st: State, info: GpuInfo, fields: FieldStates,
                                         observations: seq<Observation>, id: string)
    requires StableIdentifier(info) != id
    ensures ActivityOf(ObserveAll(setup, st, info, fields, observations).activity, id) == ActivityOf(st.activity, id)
  {
    if observations == [] {
    } else {
      var n := |observations| - 1;
      OtherActivity(setup, st, info, fields, observations[..n], id);
      ActivityAfterObservation(setup, ObserveAll(setup, st, info, fields, observations[..n]), info, fields,
                               observations[n], id);
    }
  }

  /** After its observations a sample touches neither the activity nor the request counters. */
  lemma RestOfSampleLeaves(setup: Setup, st: State, sample: GpuSample, s: Series)
    requires Integrated(s.metric)
    ensures var observed, after := WithObservations(setup, st, sample), CollectSample(setup, st, sample);
            after.activity == observed.activity && Lookup(after.series, s) == Lookup(observed.series, s)
  {
    ObserveSampleParts(setup, st, sample);
    GaugesTouch(WithObservations(setup, st, sample).series, setup.LabelsOf(sample.info), sample.slots, setup.gauges, s);
    CountersTouch(setup, ObserveSample(setup, st, sample), sample.info, sample.slots, setup.counters, s);
  }

  lemma CountsStatus(setup: Setup, st: State, sample: GpuSample, q: Requester, history: seq<UtilReading>)
    requires q.CountsRequests() && q.Follows(st.activity, st.series, history)
    ensures var published := WithStatus(setup, st, sample);
            q.Follows(published.activity, published.series, history)
  {
    var published := WithStatus(setup, st, sample);
    StatusTouches(st.series, setup.LabelsOf(sample.info), sample.fields, q.Line());
    q.Keep(st.activity, st.series, published.activity, published.series, history);
  }

  lemma CountsObserving(setup: Setup, st: State, sample: GpuSample, q: Requester, history: seq<UtilReading>)
    requires q.CountsRequests() && q.labels == setup.LabelsOf(sample.info) && q.id == StableIdentifier(sample.info)
    requires q.rule == setup.Rule()
    requires q.Follows(st.activity, st.series, history)
    ensures var observed := WithObservations(setup, st, sample);
            q.Follows(observed.activity, observed.series, history + UtilIn(sample.observations))
  {
    CountsStatus(setup, st, sample, q, history);
    CountsObservations(setup, WithStatus(setup, st, sample), sample.info, sample.fields, sample.observations, q,
                       history);
  }

  lemma CountsOwnSample(setup: Setup, st: State, sample: GpuSample, q: Requester, history: seq<UtilReading>)
    requires q.CountsRequests() && q.labels == setup.LabelsOf(sample.info) && q.id == StableIdentifier(sample.info)
    requires q.rule == setup.Rule()
    requires q.Follows(st.activity, st.series, history)
    ensures var after := CollectSample(setup, st, sample);
            q.Follows(after.activity, after.series, history + UtilIn(sample.observations))
  {
    var observed, after := WithObservations(setup, st, sample), CollectSample(setup, st, sample);
    CountsObserving(setup, st, sample, q, history);
    RestOfSampleLeaves(setup, st, sample, q.Line());
    q.Keep(observed.activity, observed.series, after.activity, after.series, history + UtilIn(sample.observations));
  }

  lemma CountsOtherSample(setup: Setup, st: State, sample: GpuSample, q: Requester, history: seq<UtilReading>)
    requires q.CountsRequests() && q.labels != setup.LabelsOf(sample.info) && q.id != StableIdentifier(sample.info)
    requires q.Follows(st.activity, st.series, history)
    ensures var after := CollectSample(setup, st, sample);
            q.Follows(after.activity, after.series, history)
  {
    var after := CollectSample(setup, st, sample);
    OtherActivity(setup, WithStatus(setup, st, sample), sample.info, sample.fields, sample.observations, q.id);
    RestOfSampleLeaves(setup, st, sample, q.Line());
    SampleTouches(setup, st, sample, q.Line());
    q.Keep(st.activity, st.series, after.activity, after.series, history);
  }

  lemma CountsSample(setup: Setup, st: State, sample: GpuSample, q: Requester, history: seq<UtilReading>)
    requires q.CountsRequests() && Named(setup, sample, q.id, q.labels) && q.rule == setup.Rule()
    requires q.Follows(st.activity, st.series, history)
    ensures var after := CollectSample(setup, st, sample);
            q.Follows(after.activity, after.series, if StableIdentifier(sample.info) == q.id
                then history + UtilIn(sample.observations) else history)
  {
    if StableIdentifier(sample.info) == q.id {
      CountsOwnSample(setup, st, sample, q, history);
    } else {
      CountsOtherSample(setup, st, sample, q, history);
    }
  }

  lemma UtilsOfLast(history: seq<UtilReading>, id: string, samples: seq<GpuSample>)
    requires samples != []
    ensures var n := |samples| - 1;
            var seen := history + UtilsOf(id, samples[..n]);
            history + UtilsOf(id, samples) == if StableIdentifier(samples[n].info) == id
                then seen + UtilIn(samples[n].observations) else seen
  {
    var n := |samples| - 1;
    Associative(history, UtilsOf(id, samples[..n]), SampleUtils(id, samples[n]));
    assert (history + UtilsOf(id, samples[..n])) + [] == history + UtilsOf(id, samples[..n]);
  }

  lemma {:induction false} CountsSamples(setup: Setup, st: State, samples: seq<GpuSample>, q: Requester,
                                         history: seq<UtilReading>)
    requires q.CountsRequests() && q.rule == setup.Rule()
    requires q.Follows(st.activity, st.series, history)
    requires forall s :: s in samples ==> Named(setup, s, q.id, q.labels)
    ensures var after := CollectSamples(setup, st, samples);
            q.Follows(after.activity, after.series, history + UtilsOf(q.id, samples))
  {
    if samples == [] {
      assert history + [] == history;
    } else {
      var n := |samples| - 1;
      CountsSamples(setup, st, samples[..n], q, history);
      CountsSample(setup, CollectSamples(setup, st, samples[..n]), samples[n], q, history
          + UtilsOf(q.id, samples[..n]));
      UtilsOfLast(history, q.id, samples);
    }
  }

  // ----- Runs ------------------------------------------------------------------------------

  lemma CountsBatch(setup: Setup, st: State, now: Time, batch: SampleBatch, ids: set<string>, id: string, m: Metric,
                    base: nat, history: seq<UtilReading>)
    requires Tidy(setup, st, ids) && WellFormed(batch, ids) && PairwiseSeparate(ids)
    requires id in ByIdentifier(batch.supported)
    requires m.RequestCount? || m.ActivityWindows?
    requires ActivityOf(st.activity, id) == setup.Rule().After(history)
    requires if Stays(st, batch.supported, id)
             then Requester(setup.Rule(), id, setup.LabelsOf(st.active[id]), m, base)
                    .Follows(st.activity, st.series, history)
             else base == setup.Rule().Requests(history)
    ensures var after := Collect(setup, st, now, batch);
            Requester(setup.Rule(), id, setup.LabelsOf(ByIdentifier(batch.supported)[id]), m, base)
              .Follows(after.activity, after.series, history + UtilsOf(id, batch.samples))
  {
    var q := Requester(setup.Rule(), id, setup.LabelsOf(ByIdentifier(batch.supported)[id]), m, base);
    BeginIsExact(setup, st, now, batch, ids, id, m, "");
    SamplesAreNamed(setup, batch, ids, id);
    CountsSamples(setup, Begin(setup, st, now, batch), batch.samples, q, history);
  }

  lemma {:induction false} ActivityAfterSamples(setup: Setup, st: State, samples: seq<GpuSample>, id: string,
                                                history: seq<UtilReading>)
    requires ActivityOf(st.activity, id) == setup.Rule().After(history)
    ensures ActivityOf(CollectSamples(setup, st, samples).activity, id)
        == setup.Rule().After(history + UtilsOf(id, samples))
  {
    if samples == [] {
      assert history + [] == history;
    } else {
      var n := |samples| - 1;
      var seen := history + UtilsOf(id, samples[..n]);
      ActivityAfterSamples(setup, st, samples[..n], id, history);
      ActivityAfterSample(setup, CollectSamples(setup, st, samples[..n]), samples[n], id, seen);
      UtilsOfLast(history, id, samples);
    }
  }

  lemma ActivityAfterSample(setup: Setup, st: State, sample: GpuSample, id: string, history: seq<UtilReading>)
    requires ActivityOf(st.activity, id) == setup.Rule().After(history)
    ensures ActivityOf(CollectSample(setup, st, sample).activity, id)
            == setup.Rule().After(if StableIdentifier(sample.info) == id then history + UtilIn(sample.observations)
                else history)
  {
    RestOfSampleLeaves(setup, st, sample, Series(RequestCount, setup.LabelsOf(sample.info)));
    if StableIdentifier(sample.info) == id {
      ActivityAfterObservations(setup, WithStatus(setup, st, sample), sample.info, sample.fields, sample.observations,
                                id, history);
    } else {
      OtherActivity(setup, WithStatus(setup, st, sample), sample.info, sample.fields, sample.observations, id);
    }
  }

  lemma {:induction false} ActivityAfterObservations(setup: Setup, st: State, info: GpuInfo, fields: FieldStates,
                                                     observations: seq<Observation>, id: string,
                                                     history: seq<UtilReading>)
    requires id == StableIdentifier(info) && ActivityOf(st.activity, id) == setup.Rule().After(history)
    ensures ActivityOf(ObserveAll(setup, st, info, fields, observations).activity, id)
        == setup.Rule().After(history + UtilIn(observations))
  {
    if observations == [] {
      assert history + [] == history;
    } else {
      var n := |observations| - 1;
      var seen, o := history + UtilIn(observations[..n]), observations[n];
      ActivityAfterObservations(setup, st, info, fields, observations[..n], id, history);
      ActivityAfterObservation(setup, ObserveAll(setup, st, info, fields, observations[..n]), info, fields, o, id);
      assert seen + UtilOf(o) == history + UtilIn(observations);
      assert (seen + [UtilReading(o.value, o.timestamp)])[..|seen|] == seen && seen + [] == seen;
    }
  }

  /** In every run, well-formed or not, the activity of an identifier is that of all its readings. */
  lemma {:induction false} ActivityOfAllReadings(setup: Setup, ops: seq<Op>, id: string)
    ensures ActivityOf(Run(setup, ops).activity, id) == setup.Rule().After(UtilHistory(ops, id))
  {
    if ops == [] {
    } else {
      var n := |ops| - 1;
      ActivityOfAllReadings(setup, ops[..n], id);
      match ops[n]
      case CollectBatch(now, batch) =>
        ActivityAfterSamples(setup, Begin(setup, Run(setup, ops[..n]), now, batch), batch.samples, id,
                             UtilHistory(ops[..n], id));
      case CollectError =>
      case PublishWindows(order) =>
    }
  }

  /**
   Reconciling does not touch the activity, so a GPU begins its life active exactly when the last
   reading under its identifier, in whatever earlier life, was above the threshold.
   */
  lemma LifeBeginsActiveExactly(setup: Setup, before: seq<Op>, now: Time, batch: SampleBatch, id: string)
    ensures var history := UtilHistory(before, id);
            ActivityOf(Begin(setup, Run(setup, before), now, batch).activity, id).active <==>
            history != [] && setup.Rule().Above(history[|history| - 1])
  {
    var history := UtilHistory(before, id);
    ActivityOfAllReadings(setup, before, id);
    setup.Rule().StateMeaning(history, |history|);
    assert history[..|history|] == history;
  }

  /** A request counter of an active GPU counts the requests of its history, less those before the GPU appeared. */
  ghost predicate RequestsAgree(setup: Setup, ops: seq<Op>, id: string, m: Metric)
    requires id in Run(setup, ops).active
  {
    var st := Run(setup, ops);
    Requester(setup.Rule(), id, setup.LabelsOf(st.active[id]), m, setup.Rule().Requests(BeforeLife(setup, ops, id)))
      .Follows(st.activity, st.series, UtilHistory(ops, id))
  }

  lemma RequestsAfterBatch(setup: Setup, ops: seq<Op>, ids: set<string>, id: string, m: Metric)
    requires Reached(setup, ops, ids, id) && (m.RequestCount? || m.ActivityWindows?) && ops != []
        && ops[|ops| - 1].CollectBatch?
    requires LastBatchKeeps(setup, ops, id) ==> RequestsAgree(setup, ops[..|ops| - 1], id, m)
    ensures RequestsAgree(setup, ops, id, m)
  {
    var before, op := ops[..|ops| - 1], ops[|ops| - 1];
    var st := Run(setup, before);
    EverythingBelongsToAnActiveGpu(setup, before, ids);
    ActivityOfAllReadings(setup, before, id);
    ActiveAfterCollect(setup, st, op.now, op.batch, ids);
    CountsBatch(setup, st, op.now, op.batch, ids, id, m, setup.Rule().Requests(BeforeLife(setup, ops, id)),
                UtilHistory(before, id));
  }

  lemma RequestsAfterPublication(setup: Setup, ops: seq<Op>, id: string, m: Metric)
    requires ops != [] && ops[|ops| - 1].PublishWindows? && id in Run(setup, ops[..|ops| - 1]).active
    requires (m.RequestCount? || m.ActivityWindows?)
    requires RequestsAgree(setup, ops[..|ops| - 1], id, m)
    ensures RequestsAgree(setup, ops, id, m)
  {
    var st := Run(setup, ops[..|ops| - 1]);
    PublishTouches(setup, st.series, ops[|ops| - 1].order, st.windows, Series(m, setup.LabelsOf(st.active[id])));
  }

  /**
   In every well-formed run both request counters of an active GPU are the number of requests that
   ended since the GPU appeared: of those in its whole history, without those before.
   */
  lemma {:induction false} RequestsAreCounted(setup: Setup, ops: seq<Op>, ids: set<string>, id: string, m: Metric)
    requires Reached(setup, ops, ids, id) && (m.RequestCount? || m.ActivityWindows?)
    ensures RequestsAgree(setup, ops, id, m)
  {
    if ops == [] {
    } else {
      var n := |ops| - 1;
      match ops[n]
      case CollectBatch(_, _) =>
        if LastBatchKeeps(setup, ops, id) {
          RequestsAreCounted(setup, ops[..n], ids, id, m);
        }
        RequestsAfterBatch(setup, ops, ids, id, m);
      case CollectError =>
        RequestsAreCounted(setup, ops[..n], ids, id, m);
      case PublishWindows(_) =>
        RequestsAreCounted(setup, ops[..n], ids, id, m);
        RequestsAfterPublication(setup, ops, id, m);
    }
  }

  // ----- Own readings ----------------------------------------------------------------------

  /** The utilization readings of a GPU since it last appeared or changed its labels. */
  function OwnReadings(setup: Setup, ops: seq<Op>, id: string): seq<UtilReading> {
    UtilsOf(id, OwnSamples(setup, ops, id))
  }

  lemma {:induction false} UtilsInParts(id: string, a: seq<GpuSample>, b: seq<GpuSample>)
    ensures UtilsOf(id, a + b) == UtilsOf(id, a) + UtilsOf(id, b)
  {
    if b == [] {
      assert a + b == a;
    } else {
      var n := |b| - 1;
      assert (a + b)[..|a + b| - 1] == a + b[..n] && (a + b)[|a + b| - 1] == b[n];
      UtilsInParts(id, a, b[..n]);
      Associative(UtilsOf(id, a), UtilsOf(id, b[..n]), SampleUtils(id, b[n]));
    }
  }

  lemma {:induction false} UtilsOfMine(id: string, samples: seq<GpuSample>)
    ensures UtilsOf(id, SamplesOf(id, samples)) == UtilsOf(id, samples)
  {
    if samples == [] {
    } else {
      var n := |samples| - 1;
      UtilsOfMine(id, samples[..n]);
      UtilsInParts(id, SamplesOf(id, samples[..n]), Mine(id, samples[n]));
      assert [samples[n]][..0] == [];
    }
  }

  lemma HistoryAfterBatch(setup: Setup, ops: seq<Op>, id: string)
    requires ops != [] && ops[|ops| - 1].CollectBatch?
    requires var before := ops[..|ops| - 1];
             UtilHistory(before, id) == BeforeLife(setup, before, id) + OwnReadings(setup, before, id)
    ensures UtilHistory(ops, id) == BeforeLife(setup, ops, id) + OwnReadings(setup, ops, id)
  {
    var before, samples := ops[..|ops| - 1], ops[|ops| - 1].batch.samples;
    UtilsOfMine(id, samples);
    if LastBatchKeeps(setup, ops, id) {
      UtilsInParts(id, OwnSamples(setup, before, id), SamplesOf(id, samples));
      Associative(BeforeLife(setup, before, id), OwnReadings(setup, before, id), UtilsOf(id, samples));
    } else {
      assert [] + SamplesOf(id, samples) == SamplesOf(id, samples);
    }
  }

  /** The history of an identifier is that before its present life and then its own readings. */
  lemma {:induction false} HistoryIsBeforeAndOwn(setup: Setup, ops: seq<Op>, id: string)
    ensures UtilHistory(ops, id) == BeforeLife(setup, ops, id) + OwnReadings(setup, ops, id)
  {
    if ops == [] {
    } else {
      HistoryIsBeforeAndOwn(setup, ops[..|ops| - 1], id);
      if ops[|ops| - 1].CollectBatch? {
        HistoryAfterBatch(setup, ops, id);
      }
    }
  }

  /** The stored activity at the time the GPU appeared. */
  function Born(setup: Setup, ops: seq<Op>, id: string): GpuActivity { setup.Rule().After(BeforeLife(setup, ops, id)) }

  /** The first own reading that is not above the threshold ends a request begun before the GPU appeared. */
  predicate EndsInherited(setup: Setup, ops: seq<Op>, id: string) {
    var own, born := OwnReadings(setup, ops, id), Born(setup, ops, id);
    born.active && setup.Rule().EndsFrom(own, born.activeFrom)
  }

  /** The same reading ends a request of the own readings before it, taken by themselves. */
  predicate EndsOwn(setup: Setup, ops: seq<Op>, id: string) {
    var own := OwnReadings(setup, ops, id);
    Born(setup, ops, id).active && setup.Rule().FirstIdle(own) > 0 && setup.Rule().EndsFrom(own, own[0].at)
  }

  lemma CountedSinceBorn(setup: Setup, ops: seq<Op>, ids: set<string>, id: string, m: Metric)
    requires Reached(setup, ops, ids, id) && (m.RequestCount? || m.ActivityWindows?)
    ensures var before, own, rule := BeforeLife(setup, ops, id), OwnReadings(setup, ops, id), setup.Rule();
            CounterValue(setup, ops, id, m) == rule.Requests(before + own) as real - rule.Requests(before) as real
  {
    RequestsAreCounted(setup, ops, ids, id, m);
    HistoryIsBeforeAndOwn(setup, ops, id);
  }

  /**
   In every run both request counters are the requests of the GPU's own readings, but for the first
   of them: when the GPU was active as it appeared, that one counts from before.
   */
  lemma CountedByOwnReadings(setup: Setup, ops: seq<Op>, ids: set<string>, id: string, m: Metric)
    requires Reached(setup, ops, ids, id) && (m.RequestCount? || m.ActivityWindows?)
    ensures CounterValue(setup, ops, id, m) ==
              setup.Rule().Requests(OwnReadings(setup, ops, id)) as real
              + BoolReal(EndsInherited(setup, ops, id)) - BoolReal(EndsOwn(setup, ops, id))
  {
    CountedSinceBorn(setup, ops, ids, id, m);
    setup.Rule().RequestsFollowOn(BeforeLife(setup, ops, id), OwnReadings(setup, ops, id));
  }

  /**
   A request counter counts the requests of the GPU's own readings exactly when it appeared inactive,
   or its first reading not above the threshold ends a request both ways or neither way.
   */
  lemma OwnRequestsExactly(setup: Setup, ops: seq<Op>, ids: set<string>, id: string, m: Metric)
    requires Reached(setup, ops, ids, id) && (m.RequestCount? || m.ActivityWindows?)
    ensures var born, own, rule := Born(setup, ops, id), OwnReadings(setup, ops, id), setup.Rule();
            CounterValue(setup, ops, id, m) == rule.Requests(own) as real <==>
            !born.active
            || (rule.EndsFrom(own, born.activeFrom) <==> rule.FirstIdle(own) > 0 && rule.EndsFrom(own, own[0].at))
  {
    CountedByOwnReadings(setup, ops, ids, id, m);
  }

  /** That many requests fit between two times. */
  ghost predicate Fits(rule: ActivityRule, counted: real, first: Time, last: Time) {
    counted * rule.minRequestTime as real <= (last - first) as real
  }

  /**
   With times that do not go back, the counted requests fit into the time since the GPU appeared:
   since its first own reading or, when it appeared active, since it was found active.
   */
  lemma CountedRequestsFitInTime(setup: Setup, ops: seq<Op>, ids: set<string>, id: string, m: Metric)
    requires Reached(setup, ops, ids, id) && (m.RequestCount? || m.ActivityWindows?)
    requires OwnReadings(setup, ops, id) != [] && setup.Rule().Ordered(OwnReadings(setup, ops, id))
    requires Born(setup, ops, id).active ==> Born(setup, ops, id).activeFrom <= OwnReadings(setup, ops, id)[0].at
    ensures var own := OwnReadings(setup, ops, id);
            Fits(setup.Rule(), CounterValue(setup, ops, id, m), setup.Rule().Start(Born(setup, ops, id), own),
                 own[|own| - 1].at)
  {
    CountedSinceBorn(setup, ops, ids, id, m);
    FollowingFit(setup.Rule(), BeforeLife(setup, ops, id), OwnReadings(setup, ops, id),
                 CounterValue(setup, ops, id, m));
  }

  lemma FollowingFit(rule: ActivityRule, before: seq<UtilReading>, own: seq<UtilReading>, counted: real)
    requires counted == rule.Requests(before + own) as real - rule.Requests(before) as real
    requires own != [] && rule.Ordered(own) && rule.Start(rule.After(before), own) <= own[0].at
    ensures Fits(rule, counted, rule.Start(rule.After(before), own), own[|own| - 1].at)
  {
    rule.RequestsFitInTime(before, own);
    CountedFits(rule, rule.Requests(before + own), rule.Requests(before), counted, rule.Start(rule.After(before), own),
                own[|own| - 1].at);
  }

  lemma CountedFits(rule: ActivityRule, all: nat, before: nat, counted: real, first: Time, last: Time)
    requires rule.Fit(all - before, first, last) && counted == all as real - before as real
    ensures Fits(rule, counted, first, last)
  {
    assert counted * rule.minRequestTime as real == ((all - before) * rule.minRequestTime) as real;
  }
}
