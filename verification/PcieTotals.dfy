/**
 The PCIe byte totals: each is fed by two fields, and in every run it is the sum of their two
 integrals, over the observations that are not replaced by the profiling rate of the sample.
 */
module PcieTotals {
  import opened FieldSets
  import opened Clock
  import opened Identity
  import opened Aggregation
  import opened History
  import opened Sampling
  import opened Integration
  import opened Exporter
  import opened Steps
  import opened Runs
  import opened Isolation
  import opened Histories

  /** The total of one direction of one GPU, by the integrators of its two fields. */
  datatype PcieTotal = PcieTotal(legacy: Integrator, prof: Integrator) {
    /** The total and both stored timestamps are those of these events. */
    ghost predicate Follows(times: Times, series: SeriesMap, legacyEvents: seq<Event>, profEvents: seq<Event>) {
      && Lookup(times, legacy.TimeKey()) == LastTime(legacyEvents)
          && Lookup(times, prof.TimeKey()) == LastTime(profEvents)
      && Get(series, legacy.Line()) == legacy.Sum(legacyEvents) + prof.Sum(profEvents)
    }
  }

  function Transmitted(setup: Setup, id: string, labels: Labels): PcieTotal {
    var m := RateTotal(PcieTransmit);
    PcieTotal(Integrator(id, labels, PCIE_TX_THROUGHPUT, m, VALUE, setup.maxGap(PCIE_TX_THROUGHPUT)),
              Integrator(id, labels, PROF_PCIE_TX_BYTES, m, VALUE, setup.maxGap(PROF_PCIE_TX_BYTES)))
  }

  function Received(setup: Setup, id: string, labels: Labels): PcieTotal {
    var m := RateTotal(PcieReceive);
    PcieTotal(Integrator(id, labels, PCIE_RX_THROUGHPUT, m, VALUE, setup.maxGap(PCIE_RX_THROUGHPUT)),
              Integrator(id, labels, PROF_PCIE_RX_BYTES, m, VALUE, setup.maxGap(PROF_PCIE_RX_BYTES)))
  }

  /** One of the two totals of a GPU. */
  ghost predicate IsTotal(setup: Setup, t: PcieTotal) {
    t == Transmitted(setup, t.legacy.id, t.legacy.labels) || t == Received(setup, t.legacy.id, t.legacy.labels)
  }

  // ----- One observation -------------------------------------------------------------------

  /** A field of a total is never skipped unless it is replaced. */
  lemma OnlyReplacedIsSkipped(setup: Setup, t: PcieTotal, fields: FieldStates, f: FieldId)
    requires IsTotal(setup, t) && !Replaced(fields, f) && (f == t.legacy.field || f == t.prof.field)
    ensures !Skipped(fields, f)
  {
  }

  lemma TimeFollows(setup: Setup, c: Integrator, st: State, info: GpuInfo, fields: FieldStates, o: Observation,
                    events: seq<Event>)
    requires IsOf(setup, c, info) && (o.fieldId == c.field ==> !Skipped(fields, c.field))
        && Lookup(st.times, c.TimeKey()) == LastTime(events)
    ensures Lookup(ObserveOne(setup, st, info, fields, o).times, c.TimeKey()) == LastTime(events + EventOf(c.field, o))
  {
    assert events + [] == events;
    ObservationKeysInjective(c.id, c.field, StableIdentifier(info), o.fieldId);
  }

  lemma PartAdds(setup: Setup, t: PcieTotal, c: Integrator, o: Observation, dt: Duration, request: bool)
    requires IsTotal(setup, t) && (c == t.legacy || c == t.prof) && o.fieldId == c.field && dt >= 0
    ensures AggregationForField(o.fieldId).Some? && Adds(setup, c.metric, AggregationForField(o.fieldId).value, o, dt,
                                                         request) == Amount(c.weight(o.value), dt)
  {
  }

  lemma OtherFieldsAddNothing(setup: Setup, t: PcieTotal, o: Observation, a: Aggregate, dt: Duration, request: bool)
    requires IsTotal(setup, t) && AggregationForField(o.fieldId) == Some(a) && o.fieldId != t.legacy.field
    requires o.fieldId != t.prof.field
    ensures Adds(setup, t.legacy.metric, a, o, dt, request) == 0.0
  {
  }

  lemma PartIsCounted(setup: Setup, t: PcieTotal, c: Integrator, st: State, info: GpuInfo, fields: FieldStates,
                      o: Observation, events: seq<Event>)
    requires IsTotal(setup, t) && IsOf(setup, t.legacy, info) && (c == t.legacy || c == t.prof)
    requires o.fieldId == c.field && !Replaced(fields, o.fieldId) && Lookup(st.times, c.TimeKey()) == LastTime(events)
    ensures Contribution(setup, t.legacy, st, info, fields, o) == Amount(c.weight(o.value), Closed(c, events, o))
  {
    OnlyReplacedIsSkipped(setup, t, fields, o.fieldId);
    IntervalIsClosed(setup, c, st.times, info, fields, o, events);
    PartAdds(setup, t, c, o, Closed(c, events, o), EndsRequestNow(setup, st, info, o));
  }

  lemma OthersAreNotCounted(setup: Setup, t: PcieTotal, st: State, info: GpuInfo, fields: FieldStates, o: Observation)
    requires IsTotal(setup, t) && o.fieldId != t.legacy.field && o.fieldId != t.prof.field
    ensures Contribution(setup, t.legacy, st, info, fields, o) == 0.0
  {
    if !Skipped(fields, o.fieldId) {
      OtherFieldsAddNothing(setup, t, o, AggregationForField(o.fieldId).value,
                            Interval(setup, st.times, ObservationKey(info, o.fieldId), o),
                            EndsRequestNow(setup, st, info, o));
    }
  }

  lemma SumOfOther(c: Integrator, events: seq<Event>, o: Observation)
    requires o.fieldId != c.field
    ensures events + EventOf(c.field, o) == events
  {
  }

  /** The sum of the two integrals grows by what the observation contributes. */
  lemma TotalGrows(setup: Setup, t: PcieTotal, st: State, info: GpuInfo, fields: FieldStates, o: Observation,
                   legacyEvents: seq<Event>, profEvents: seq<Event>)
    requires IsTotal(setup, t) && IsOf(setup, t.legacy, info) && !Replaced(fields, o.fieldId)
    requires t.Follows(st.times, st.series, legacyEvents, profEvents)
    ensures t.legacy.Sum(legacyEvents + EventOf(t.legacy.field, o)) + t.prof.Sum(profEvents + EventOf(t.prof.field, o))
            == t.legacy.Sum(legacyEvents) + t.prof.Sum(profEvents) + Contribution(setup, t.legacy, st, info, fields, o)
  {
    if o.fieldId == t.legacy.field {
      SumOfOther(t.prof, profEvents, o);
      IntegralOfEvent(t.legacy, legacyEvents, o);
      PartIsCounted(setup, t, t.legacy, st, info, fields, o, legacyEvents);
    } else if o.fieldId == t.prof.field {
      SumOfOther(t.legacy, legacyEvents, o);
      IntegralOfEvent(t.prof, profEvents, o);
      PartIsCounted(setup, t, t.prof, st, info, fields, o, profEvents);
    } else {
      SumOfOther(t.prof, profEvents, o);
      SumOfOther(t.legacy, legacyEvents, o);
      OthersAreNotCounted(setup, t, st, info, fields, o);
    }
  }

  lemma TotalAfterObservation(setup: Setup, t: PcieTotal, st: State, info: GpuInfo, fields: FieldStates,
                              o: Observation, legacyEvents: seq<Event>, profEvents: seq<Event>)
    requires IsTotal(setup, t) && IsOf(setup, t.legacy, info) && !Replaced(fields, o.fieldId)
    requires t.Follows(st.times, st.series, legacyEvents, profEvents)
    ensures var after := ObserveOne(setup, st, info, fields, o);
            t.Follows(after.times, after.series, legacyEvents + EventOf(t.legacy.field, o), profEvents
                + EventOf(t.prof.field, o))
  {
    if o.fieldId == t.legacy.field || o.fieldId == t.prof.field {
      OnlyReplacedIsSkipped(setup, t, fields, o.fieldId);
    }
    TimeFollows(setup, t.legacy, st, info, fields, o, legacyEvents);
    TimeFollows(setup, t.prof, st, info, fields, o, profEvents);
    ContributionIsAdded(setup, t.legacy, st, info, fields, o);
    TotalGrows(setup, t, st, info, fields, o, legacyEvents, profEvents);
  }

  lemma {:induction false} TotalAfterObservations(setup: Setup, t: PcieTotal, st: State, info: GpuInfo,
                                                  fields: FieldStates, observations: seq<Observation>,
                                                  legacyEvents: seq<Event>, profEvents: seq<Event>)
    requires IsTotal(setup, t) && IsOf(setup, t.legacy, info)
    requires t.Follows(st.times, st.series, legacyEvents, profEvents)
    requires HasNoReplaced(fields, observations)
    ensures var after := ObserveAll(setup, st, info, fields, observations);
            t.Follows(after.times, after.series, legacyEvents
                + ObservedEvents(t.legacy.field, observations), profEvents + ObservedEvents(t.prof.field, observations))
  {
    if observations == [] {
      assert legacyEvents + [] == legacyEvents && profEvents + [] == profEvents;
    } else {
      var n := |observations| - 1;
      var init, o := observations[..n], observations[n];
      assert o in observations;
      TotalAfterObservations(setup, t, st, info, fields, init, legacyEvents, profEvents);
      TotalAfterObservation(setup, t, ObserveAll(setup, st, info, fields, init), info, fields, o,
                            legacyEvents + ObservedEvents(t.legacy.field, init), profEvents
                                + ObservedEvents(t.prof.field, init));
      Associative(legacyEvents, ObservedEvents(t.legacy.field, init), EventOf(t.legacy.field, o));
      Associative(profEvents, ObservedEvents(t.prof.field, init), EventOf(t.prof.field, o));
    }
  }

  // ----- One sample ------------------------------------------------------------------------

  /** The sample without the observations that are replaced in it. */
  function Unreplaced(sample: GpuSample): GpuSample {
    sample.(observations := WithoutReplaced(sample.fields, sample.observations))
  }

  function UnreplacedOf(samples: seq<GpuSample>): seq<GpuSample> {
    if samples == [] then [] else UnreplacedOf(samples[..|samples| - 1]) + [Unreplaced(samples[|samples| - 1])]
  }

  ghost predicate HasNoReplaced(fields: FieldStates, observations: seq<Observation>) {
    forall o :: o in observations ==> !Replaced(fields, o.fieldId)
  }

  lemma {:induction false} NoneReplaced(fields: FieldStates, observations: seq<Observation>)
    ensures HasNoReplaced(fields, WithoutReplaced(fields, observations))
  {
    if observations == [] {
    } else {
      NoneReplaced(fields, observations[..|observations| - 1]);
    }
  }

  lemma TotalAfterReset(setup: Setup, t: PcieTotal, times: Times, series: SeriesMap, info: GpuInfo,
                        fields: FieldStates, legacyEvents: seq<Event>, profEvents: seq<Event>)
    requires IsTotal(setup, t) && IsOf(setup, t.legacy, info) && t.Follows(times, series, legacyEvents, profEvents)
    ensures t.Follows(times - CutKeys(info, fields), series, legacyEvents + Reset(fields, t.legacy.field), profEvents
        + Reset(fields, t.prof.field))
  {
    PartAfterReset(t.legacy, times, info, fields, legacyEvents);
    PartAfterReset(t.prof, times, info, fields, profEvents);
  }

  lemma PartAfterReset(c: Integrator, times: Times, info: GpuInfo, fields: FieldStates, events: seq<Event>)
    requires c.id == StableIdentifier(info) && Lookup(times, c.TimeKey()) == LastTime(events)
    ensures Lookup(times - CutKeys(info, fields), c.TimeKey()) == LastTime(events + Reset(fields, c.field))
    ensures c.Sum(events + Reset(fields, c.field)) == c.Sum(events)
  {
    CutKeyMeaning(info, fields, c.id, c.field);
    if c.field in CutFields(fields) {
      IntegralOfCut(events, c.weight, c.maxGap);
    } else {
      assert events + [] == events;
    }
  }

  lemma TotalKept(t: PcieTotal, times: Times, series: SeriesMap, times': Times, series': SeriesMap,
                  legacyEvents: seq<Event>, profEvents: seq<Event>)
    requires t.Follows(times, series, legacyEvents, profEvents)
    requires Lookup(times', t.legacy.TimeKey()) == Lookup(times, t.legacy.TimeKey())
    requires Lookup(times', t.prof.TimeKey()) == Lookup(times, t.prof.TimeKey())
    requires Lookup(series', t.legacy.Line()) == Lookup(series, t.legacy.Line())
    ensures t.Follows(times', series', legacyEvents, profEvents)
  {
  }

  lemma LineIsIntegrated(setup: Setup, t: PcieTotal)
    requires IsTotal(setup, t)
    ensures var m := t.legacy.metric;
            && Integrated(m) && !m.HardwareTotal? && !m.Current? && !FieldStatusMetric(m)
            && !WindowMetric(m) && !CollectMetric(m)
  {
  }

  lemma TotalAfterReading(setup: Setup, t: PcieTotal, st: State, sample: GpuSample, legacyEvents: seq<Event>,
                          profEvents: seq<Event>)
    requires IsTotal(setup, t) && IsOf(setup, t.legacy, sample.info)
    requires t.Follows(st.times, st.series, legacyEvents, profEvents)
    ensures var observed, kept := WithObservations(setup, st, sample), Unreplaced(sample).observations;
            t.Follows(observed.times, observed.series, legacyEvents + ObservedEvents(t.legacy.field, kept), profEvents
                + ObservedEvents(t.prof.field, kept))
  {
    var published := WithStatus(setup, st, sample);
    LineIsIntegrated(setup, t);
    StatusTouches(st.series, setup.LabelsOf(sample.info), sample.fields, t.legacy.Line());
    TotalKept(t, st.times, st.series, published.times, published.series, legacyEvents, profEvents);
    ReplacedRatesFeedNothing(setup, published, sample.info, sample.fields, sample.observations);
    NoneReplaced(sample.fields, sample.observations);
    TotalAfterObservations(setup, t, published, sample.info, sample.fields, Unreplaced(sample).observations,
                           legacyEvents, profEvents);
  }

  /** After its observations a sample only resets. */
  lemma RestOfSample(setup: Setup, t: PcieTotal, st: State, sample: GpuSample)
    requires IsTotal(setup, t)
    ensures var observed, after := WithObservations(setup, st, sample), CollectSample(setup, st, sample);
            after.times == observed.times - CutKeys(sample.info, sample.fields)
                && Lookup(after.series, t.legacy.Line()) == Lookup(observed.series, t.legacy.Line())
  {
    LineIsIntegrated(setup, t);
    ObserveSampleParts(setup, st, sample);
    GaugesTouch(WithObservations(setup, st, sample).series, setup.LabelsOf(sample.info), sample.slots, setup.gauges,
                t.legacy.Line());
    CountersTouch(setup, ObserveSample(setup, st, sample), sample.info, sample.slots, setup.counters, t.legacy.Line());
  }

  lemma TotalAfterRest(setup: Setup, t: PcieTotal, sample: GpuSample, times: Times, series: SeriesMap, times': Times,
                       series': SeriesMap, legacyEvents: seq<Event>, profEvents: seq<Event>)
    requires IsTotal(setup, t) && IsOf(setup, t.legacy, sample.info)
    requires var kept := Unreplaced(sample).observations;
             t.Follows(times, series, legacyEvents + ObservedEvents(t.legacy.field, kept), profEvents
                 + ObservedEvents(t.prof.field, kept))
    requires times' == times - CutKeys(sample.info, sample.fields)
    requires Lookup(series', t.legacy.Line()) == Lookup(series, t.legacy.Line())
    ensures t.Follows(times', series', legacyEvents + SampleEvents(Unreplaced(sample), t.legacy.field), profEvents
        + SampleEvents(Unreplaced(sample), t.prof.field))
  {
    var kept := Unreplaced(sample).observations;
    TotalAfterReset(setup, t, times, series, sample.info, sample.fields,
                    legacyEvents + ObservedEvents(t.legacy.field, kept), profEvents
                        + ObservedEvents(t.prof.field, kept));
    Associative(legacyEvents, ObservedEvents(t.legacy.field, kept), Reset(sample.fields, t.legacy.field));
    Associative(profEvents, ObservedEvents(t.prof.field, kept), Reset(sample.fields, t.prof.field));
  }

  lemma TotalAfterOwnSample(setup: Setup, t: PcieTotal, st: State, sample: GpuSample, legacyEvents: seq<Event>,
                            profEvents: seq<Event>)
    requires IsTotal(setup, t) && IsOf(setup, t.legacy, sample.info)
    requires t.Follows(st.times, st.series, legacyEvents, profEvents)
    ensures var after := CollectSample(setup, st, sample);
            t.Follows(after.times, after.series, legacyEvents
                + SampleEvents(Unreplaced(sample), t.legacy.field), profEvents
                + SampleEvents(Unreplaced(sample), t.prof.field))
  {
    var observed, after := WithObservations(setup, st, sample), CollectSample(setup, st, sample);
    TotalAfterReading(setup, t, st, sample, legacyEvents, profEvents);
    RestOfSample(setup, t, st, sample);
    TotalAfterRest(setup, t, sample, observed.times, observed.series, after.times, after.series, legacyEvents,
                   profEvents);
  }

  lemma TotalAfterOtherSample(setup: Setup, t: PcieTotal, st: State, sample: GpuSample, legacyEvents: seq<Event>,
                              profEvents: seq<Event>)
    requires IsTotal(setup, t) && IsNotOf(setup, t.legacy, sample.info)
    requires t.Follows(st.times, st.series, legacyEvents, profEvents)
    ensures var after := CollectSample(setup, st, sample); t.Follows(after.times, after.series, legacyEvents,
                                                                     profEvents)
  {
    var after := CollectSample(setup, st, sample);
    ObservationsLeaveTimes(setup, WithStatus(setup, st, sample), sample.info, sample.fields, sample.observations,
                           t.legacy.id, t.legacy.field);
    ObservationsLeaveTimes(setup, WithStatus(setup, st, sample), sample.info, sample.fields, sample.observations,
                           t.legacy.id, t.prof.field);
    CutKeyMeaning(sample.info, sample.fields, t.legacy.id, t.legacy.field);
    CutKeyMeaning(sample.info, sample.fields, t.legacy.id, t.prof.field);
    RestOfSample(setup, t, st, sample);
    SampleTouches(setup, st, sample, t.legacy.Line());
    TotalKept(t, st.times, st.series, after.times, after.series, legacyEvents, profEvents);
  }

  // ----- Batches and runs ------------------------------------------------------------------

  /** The total follows the counted observations of these samples. */
  ghost predicate FollowsSamplesOf(t: PcieTotal, st: State, own: seq<GpuSample>) {
    t.Follows(st.times, st.series, EventsOf(UnreplacedOf(own), t.legacy.field),
              EventsOf(UnreplacedOf(own), t.prof.field))
  }

  lemma UnreplacedOneMore(own: seq<GpuSample>, sample: GpuSample, f: FieldId)
    ensures EventsOf(UnreplacedOf(own + [sample]), f) == EventsOf(UnreplacedOf(own), f)
        + SampleEvents(Unreplaced(sample), f)
  {
    assert (own + [sample])[..|own|] == own;
    assert (UnreplacedOf(own) + [Unreplaced(sample)])[..|UnreplacedOf(own)|] == UnreplacedOf(own);
  }

  lemma TotalAfterSample(setup: Setup, t: PcieTotal, st: State, sample: GpuSample, own: seq<GpuSample>)
    requires IsTotal(setup, t) && Named(setup, sample, t.legacy.id, t.legacy.labels) && FollowsSamplesOf(t, st, own)
    ensures FollowsSamplesOf(t, CollectSample(setup, st, sample), own + Mine(t.legacy.id, sample))
  {
    var legacyEvents, profEvents := EventsOf(UnreplacedOf(own), t.legacy.field),
        EventsOf(UnreplacedOf(own), t.prof.field);
    if StableIdentifier(sample.info) == t.legacy.id {
      TotalAfterOwnSample(setup, t, st, sample, legacyEvents, profEvents);
      UnreplacedOneMore(own, sample, t.legacy.field);
      UnreplacedOneMore(own, sample, t.prof.field);
    } else {
      TotalAfterOtherSample(setup, t, st, sample, legacyEvents, profEvents);
      assert own + [] == own;
    }
  }

  lemma {:induction false} TotalAfterSamples(setup: Setup, t: PcieTotal, st: State, samples: seq<GpuSample>,
                                             own: seq<GpuSample>)
    requires IsTotal(setup, t) && FollowsSamplesOf(t, st, own)
    requires forall s :: s in samples ==> Named(setup, s, t.legacy.id, t.legacy.labels)
    ensures FollowsSamplesOf(t, CollectSamples(setup, st, samples), own + SamplesOf(t.legacy.id, samples))
  {
    if samples == [] {
      assert own + [] == own;
    } else {
      var n := |samples| - 1;
      TotalAfterSamples(setup, t, st, samples[..n], own);
      TotalAfterSample(setup, t, CollectSamples(setup, st, samples[..n]), samples[n], own
          + SamplesOf(t.legacy.id, samples[..n]));
      SamplesOfLast(own, t.legacy.id, samples);
    }
  }

  /** The total of a direction for an active GPU; true for what is transmitted. */
  function TotalOf(setup: Setup, id: string, labels: Labels, transmitted: bool): PcieTotal {
    if transmitted then Transmitted(setup, id, labels) else Received(setup, id, labels)
  }

  ghost predicate TotalAgrees(setup: Setup, ops: seq<Op>, id: string, transmitted: bool)
    requires id in Run(setup, ops).active
  {
    FollowsSamplesOf(TotalOf(setup, id, setup.LabelsOf(Run(setup, ops).active[id]), transmitted), Run(setup, ops),
                     OwnSamples(setup, ops, id))
  }

  lemma TotalAfterBegin(setup: Setup, st: State, now: Time, batch: SampleBatch, ids: set<string>, id: string,
                        transmitted: bool, own: seq<GpuSample>)
    requires Tidy(setup, st, ids) && WellFormed(batch, ids) && PairwiseSeparate(ids)
    requires id in ByIdentifier(batch.supported)
    requires if Stays(st, batch.supported, id)
             then FollowsSamplesOf(TotalOf(setup, id, setup.LabelsOf(st.active[id]), transmitted), st, own)
             else own == []
    ensures FollowsSamplesOf(TotalOf(setup, id, setup.LabelsOf(ByIdentifier(batch.supported)[id]), transmitted),
                             Begin(setup, st, now, batch), own)
  {
    var t := TotalOf(setup, id, setup.LabelsOf(ByIdentifier(batch.supported)[id]), transmitted);
    LineIsIntegrated(setup, t);
    BeginIsExact(setup, st, now, batch, ids, id, t.legacy.metric, Decimal(t.legacy.field));
    BeginIsExact(setup, st, now, batch, ids, id, t.legacy.metric, Decimal(t.prof.field));
  }

  lemma TotalAfterBatch(setup: Setup, ops: seq<Op>, ids: set<string>, id: string, transmitted: bool)
    requires Reached(setup, ops, ids, id) && ops != [] && ops[|ops| - 1].CollectBatch?
    requires LastBatchKeeps(setup, ops, id) ==> TotalAgrees(setup, ops[..|ops| - 1], id, transmitted)
    ensures TotalAgrees(setup, ops, id, transmitted)
  {
    var before, op := ops[..|ops| - 1], ops[|ops| - 1];
    var st := Run(setup, before);
    var own := if LastBatchKeeps(setup, ops, id) then OwnSamples(setup, before, id) else [];
    EverythingBelongsToAnActiveGpu(setup, before, ids);
    ActiveAfterCollect(setup, st, op.now, op.batch, ids);
    TotalAfterBegin(setup, st, op.now, op.batch, ids, id, transmitted, own);
    SamplesAreNamed(setup, op.batch, ids, id);
    TotalAfterSamples(setup, TotalOf(setup, id, setup.LabelsOf(ByIdentifier(op.batch.supported)[id]), transmitted),
                      Begin(setup, st, op.now, op.batch), op.batch.samples, own);
  }

  lemma TotalAfterPublication(setup: Setup, ops: seq<Op>, id: string, transmitted: bool)
    requires ops != [] && ops[|ops| - 1].PublishWindows? && id in Run(setup, ops[..|ops| - 1]).active
    requires TotalAgrees(setup, ops[..|ops| - 1], id, transmitted)
    ensures TotalAgrees(setup, ops, id, transmitted)
  {
    var st := Run(setup, ops[..|ops| - 1]);
    var t := TotalOf(setup, id, setup.LabelsOf(st.active[id]), transmitted);
    LineIsIntegrated(setup, t);
    PublishTouches(setup, st.series, ops[|ops| - 1].order, st.windows, t.legacy.Line());
  }

  /**
   In every well-formed run each PCIe byte total of an active GPU is the integral over its legacy rate
   and the one over its profiling rate, added: of the legacy rate only what was observed while the
   profiling one was not available. Across a switch the two may count the same time.
   */
  lemma {:induction false} PcieTotalsAreTwoIntegrals(setup: Setup, ops: seq<Op>, ids: set<string>, id: string,
                                                     transmitted: bool)
    requires Reached(setup, ops, ids, id)
    ensures TotalAgrees(setup, ops, id, transmitted)
  {
    if ops == [] {
    } else {
      var n := |ops| - 1;
      match ops[n]
      case CollectBatch(_, _) =>
        if LastBatchKeeps(setup, ops, id) {
          PcieTotalsAreTwoIntegrals(setup, ops[..n], ids, id, transmitted);
        }
        TotalAfterBatch(setup, ops, ids, id, transmitted);
      case CollectError =>
        PcieTotalsAreTwoIntegrals(setup, ops[..n], ids, id, transmitted);
      case PublishWindows(_) =>
        PcieTotalsAreTwoIntegrals(setup, ops[..n], ids, id, transmitted);
        TotalAfterPublication(setup, ops, id, transmitted);
    }
  }
}
