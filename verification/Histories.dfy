/**
 What is exported for a GPU, from its own samples alone: each integrated counter is an integral
 over the events of one field, each hardware counter the total of its raw values, since the GPU
 last appeared or changed its labels.
 */
module Histories {
  import opened FieldSets
  import opened Clock
  import opened Identity
  import opened Aggregation
  import opened Decoding
  import opened History
  import opened Sampling
  import opened Integration
  import opened Counters
  import opened Exporter
  import opened Steps
  import opened Runs
  import opened Isolation

  // ----- The history of a GPU --------------------------------------------------------------

  function SamplesOf(id: string, samples: seq<GpuSample>): seq<GpuSample> {
    if samples == [] then []
    else SamplesOf(id, samples[..|samples| - 1]) + Mine(id, samples[|samples| - 1])
  }

  function Mine(id: string, sample: GpuSample): seq<GpuSample> {
    if StableIdentifier(sample.info) == id then [sample] else []
  }

  /** The GPU stays as it was when these GPUs are listed. */
  predicate Stays(st: State, current: seq<GpuInfo>, id: string) {
    id in st.active && id in ByIdentifier(current) && SameIdentity(st.active[id], ByIdentifier(current)[id])
  }

  /** The samples of a GPU since it last appeared or changed its labels. */
  function OwnSamples(setup: Setup, ops: seq<Op>, id: string): seq<GpuSample> {
    if ops == [] then []
    else
      var n := |ops| - 1;
      match ops[n]
      case CollectBatch(now, batch) =>
        (if Stays(Run(setup, ops[..n]), batch.supported, id) then OwnSamples(setup, ops[..n], id) else [])
        + SamplesOf(id, batch.samples)
      case CollectError => OwnSamples(setup, ops[..n], id)
      case PublishWindows(_) => OwnSamples(setup, ops[..n], id)
  }

  function EventOf(f: FieldId, o: Observation): seq<Event> {
    if o.fieldId == f && o.timestamp != ZERO_TIME then [At(o.timestamp, o.value)] else []
  }

  function ObservedEvents(f: FieldId, observations: seq<Observation>): seq<Event> {
    if observations == [] then []
    else ObservedEvents(f, observations[..|observations| - 1]) + EventOf(f, observations[|observations| - 1])
  }

  function Reset(fields: FieldStates, f: FieldId): seq<Event> {
    if f in fields && fields[f].supported && !fields[f].available then [Cut] else []
  }

  /** A sample's events of a field: its observations, then the reset when it is watched but unavailable. */
  function SampleEvents(sample: GpuSample, f: FieldId): seq<Event> {
    ObservedEvents(f, sample.observations) + Reset(sample.fields, f)
  }

  function EventsOf(samples: seq<GpuSample>, f: FieldId): seq<Event> {
    if samples == [] then [] else EventsOf(samples[..|samples| - 1], f) + SampleEvents(samples[|samples| - 1], f)
  }

  // ----- Integrated counters ---------------------------------------------------------------

  /** A metric of one GPU that integrates one field with a weight. */
  datatype Integrator = Integrator(id: string, labels: Labels, field: FieldId, metric: Metric, weight: real -> real,
                                   maxGap: Duration) {
    function TimeKey(): string { Key(id, Decimal(field)) }
    function Line(): Series { Series(metric, labels) }
    function Sum(events: seq<Event>): real { Integral(events, weight, maxGap) }

    /** The metric and the stored timestamp of the field are those of these events. */
    ghost predicate Follows(times: Times, series: SeriesMap, events: seq<Event>) {
      Lookup(times, TimeKey()) == LastTime(events) && Get(series, Line()) == Sum(events)
    }

    lemma Append(times: Times, series: SeriesMap, times': Times, series': SeriesMap, events: seq<Event>,
                 more: seq<Event>, x: real)
      requires Follows(times, series, events)
      requires Lookup(times', TimeKey()) == LastTime(events + more)
      requires Get(series', Line()) == Get(series, Line()) + x && Sum(events + more) == Sum(events) + x
      ensures Follows(times', series', events + more)
    {
    }

    lemma Keep(times: Times, series: SeriesMap, times': Times, series': SeriesMap, events: seq<Event>)
      requires Follows(times, series, events)
      requires Lookup(times', TimeKey()) == Lookup(times, TimeKey())
      requires Lookup(series', Line()) == Lookup(series, Line())
      ensures Follows(times', series', events)
    {
    }
  }

  /** The weight with which metric `m` integrates field `f`; PCIe totals, fed by two fields, have none. */
  function WeightOf(setup: Setup, f: FieldId, m: Metric): Option<real -> real> {
    match AggregationForField(f)
    case None => None
    case Some(a) =>
      if m == ObservedSeconds(a) && IsIntegral(a) then Some(ONE)
      else if m == WeightedSeconds(a) && IsIntegral(a) then Some(FractionOf(a))
      else if m == ActiveSeconds && f == GPU_UTIL then Some(ActiveAbove(setup.activeThreshold))
      else if m == EnergyEstimated && f == POWER_USAGE then Some(VALUE)
      else if m == RateTotal(a) && (a.NvlinkTransmit? || a.NvlinkReceive?) then Some(VALUE)
      else None
  }

  /** A metric the exporter integrates, with the exporter's weight and longest gap. */
  ghost predicate Integrates(setup: Setup, c: Integrator) {
    WeightOf(setup, c.field, c.metric) == Some(c.weight) && c.maxGap == setup.maxGap(c.field)
  }

  predicate IsOf(setup: Setup, c: Integrator, info: GpuInfo) {
    c.id == StableIdentifier(info) && c.labels == setup.LabelsOf(info)
  }

  predicate IsNotOf(setup: Setup, c: Integrator, info: GpuInfo) {
    c.id != StableIdentifier(info) && c.labels != setup.LabelsOf(info)
  }

  lemma IntegratorsAreIntegrated(setup: Setup, c: Integrator)
    requires Integrates(setup, c)
    ensures var m := c.metric;
            && Integrated(m) && !m.HardwareTotal? && !m.Current? && !FieldStatusMetric(m)
            && !WindowMetric(m) && !CollectMetric(m)
  {
  }

  /** An observation of the field adds its weight times the interval to the metric. */
  lemma AddsWeighted(setup: Setup, c: Integrator, o: Observation, dt: Duration, request: bool)
    requires Integrates(setup, c) && o.fieldId == c.field && dt >= 0
    ensures Adds(setup, c.metric, AggregationForField(c.field).value, o, dt, request) == Amount(c.weight(o.value), dt)
  {
  }

  /** An observation of another field adds nothing to it. */
  lemma OthersAddNothing(setup: Setup, c: Integrator, a: Aggregate, o: Observation, dt: Duration, request: bool)
    requires Integrates(setup, c) && AggregationForField(o.fieldId) == Some(a) && o.fieldId != c.field
    ensures Adds(setup, c.metric, a, o, dt, request) == 0.0
  {
    if AggregationForField(c.field) == Some(a) && (IsIntegral(a) || a.PowerDraw?) {
      IntegralsHaveOneField(c.field, o.fieldId);
    }
  }

  /** The interval an observation closes, by the events before it. */
  function Closed(c: Integrator, events: seq<Event>, o: Observation): (dt: Duration)
    ensures dt >= 0
  {
    if EventOf(c.field, o) == [] then 0 else IntervalAfter(LastTime(events), o.timestamp, c.maxGap)
  }

  lemma IntegralOfEvent(c: Integrator, events: seq<Event>, o: Observation)
    ensures c.Sum(events + EventOf(c.field, o)) == c.Sum(events) + Amount(c.weight(o.value), Closed(c, events, o))
  {
    if EventOf(c.field, o) == [] {
      assert events + EventOf(c.field, o) == events;
    } else {
      IntegralOfObservation(events, o.timestamp, o.value, c.weight, c.maxGap);
    }
  }

  /** Only the legacy PCIe rates are ever skipped, and they are not integrated here. */
  lemma NeverSkipped(setup: Setup, c: Integrator, fields: FieldStates)
    requires Integrates(setup, c)
    ensures !Skipped(fields, c.field)
  {
  }

  lemma TimesFollow(setup: Setup, c: Integrator, st: State, info: GpuInfo, fields: FieldStates, o: Observation,
                    events: seq<Event>)
    requires IsOf(setup, c, info) && Integrates(setup, c) && Lookup(st.times, c.TimeKey()) == LastTime(events)
    ensures Lookup(ObserveOne(setup, st, info, fields, o).times, c.TimeKey()) == LastTime(events + EventOf(c.field, o))
  {
    assert events + [] == events;
    NeverSkipped(setup, c, fields);
    ObservationKeysInjective(c.id, c.field, StableIdentifier(info), o.fieldId);
  }

  lemma IntervalIsClosed(setup: Setup, c: Integrator, times: Times, info: GpuInfo, fields: FieldStates, o: Observation,
                         events: seq<Event>)
    requires IsOf(setup, c, info) && c.maxGap == setup.maxGap(c.field) && Lookup(times, c.TimeKey()) == LastTime(events)
    requires o.fieldId == c.field && !Skipped(fields, o.fieldId)
    ensures Interval(setup, times, ObservationKey(info, o.fieldId), o) == Closed(c, events, o)
  {
  }

  /** What an observation adds to the metric, by the exporter's stored timestamp. */
  function Contribution(setup: Setup, c: Integrator, st: State, info: GpuInfo, fields: FieldStates,
                        o: Observation): real {
    if Skipped(fields, o.fieldId) then 0.0
    else Adds(setup, c.metric, AggregationForField(o.fieldId).value, o,
              Interval(setup, st.times, ObservationKey(info, o.fieldId), o), EndsRequestNow(setup, st, info, o))
  }

  lemma ContributionIsAdded(setup: Setup, c: Integrator, st: State, info: GpuInfo, fields: FieldStates, o: Observation)
    requires IsOf(setup, c, info)
    ensures Get(ObserveOne(setup, st, info, fields, o).series, c.Line())
        == Get(st.series, c.Line()) + Contribution(setup, c, st, info, fields, o)
  {
    ObserveOneAdds(setup, st, info, fields, o, c.Line());
  }

  lemma ContributionIsWeighted(setup: Setup, c: Integrator, st: State, info: GpuInfo, fields: FieldStates,
                               o: Observation, events: seq<Event>)
    requires IsOf(setup, c, info) && Integrates(setup, c) && Lookup(st.times, c.TimeKey()) == LastTime(events)
    ensures Contribution(setup, c, st, info, fields, o) == Amount(c.weight(o.value), Closed(c, events, o))
  {
    if o.fieldId == c.field {
      OwnContribution(setup, c, st, info, fields, o, events);
    } else {
      OtherContribution(setup, c, st, info, fields, o);
    }
  }

  lemma OwnContribution(setup: Setup, c: Integrator, st: State, info: GpuInfo, fields: FieldStates, o: Observation,
                        events: seq<Event>)
    requires IsOf(setup, c, info) && Integrates(setup, c) && Lookup(st.times, c.TimeKey()) == LastTime(events)
    requires o.fieldId == c.field
    ensures Contribution(setup, c, st, info, fields, o) == Amount(c.weight(o.value), Closed(c, events, o))
  {
    NeverSkipped(setup, c, fields);
    IntervalIsClosed(setup, c, st.times, info, fields, o, events);
    AddsWeighted(setup, c, o, Closed(c, events, o), EndsRequestNow(setup, st, info, o));
  }

  lemma OtherContribution(setup: Setup, c: Integrator, st: State, info: GpuInfo, fields: FieldStates, o: Observation)
    requires Integrates(setup, c) && o.fieldId != c.field
    ensures Contribution(setup, c, st, info, fields, o) == 0.0
  {
    if !Skipped(fields, o.fieldId) {
      OthersAddNothing(setup, c, AggregationForField(o.fieldId).value, o,
                       Interval(setup, st.times, ObservationKey(info, o.fieldId), o),
                       EndsRequestNow(setup, st, info, o));
    }
  }

  lemma FollowsObservation(setup: Setup, c: Integrator, st: State, info: GpuInfo, fields: FieldStates, o: Observation,
                           events: seq<Event>)
    requires IsOf(setup, c, info) && Integrates(setup, c) && c.Follows(st.times, st.series, events)
    ensures var after := ObserveOne(setup, st, info, fields, o);
            c.Follows(after.times, after.series, events + EventOf(c.field, o))
  {
    TimesFollow(setup, c, st, info, fields, o, events);
    ContributionIsAdded(setup, c, st, info, fields, o);
    ContributionIsWeighted(setup, c, st, info, fields, o, events);
    IntegralOfEvent(c, events, o);
    var after := ObserveOne(setup, st, info, fields, o);
    c.Append(st.times, st.series, after.times, after.series, events, EventOf(c.field, o),
             Amount(c.weight(o.value), Closed(c, events, o)));
  }

  lemma {:induction false} FollowsObservations(setup: Setup, c: Integrator, st: State, info: GpuInfo,
                                               fields: FieldStates, observations: seq<Observation>, events: seq<Event>)
    requires IsOf(setup, c, info) && Integrates(setup, c) && c.Follows(st.times, st.series, events)
    ensures var after := ObserveAll(setup, st, info, fields, observations);
            c.Follows(after.times, after.series, events + ObservedEvents(c.field, observations))
  {
    if observations == [] {
      assert events + [] == events;
    } else {
      var n := |observations| - 1;
      FollowsObservations(setup, c, st, info, fields, observations[..n], events);
      var before := events + ObservedEvents(c.field, observations[..n]);
      FollowsObservation(setup, c, ObserveAll(setup, st, info, fields, observations[..n]), info, fields,
                         observations[n], before);
      Associative(events, ObservedEvents(c.field, observations[..n]), EventOf(c.field, observations[n]));
    }
  }

  lemma CutKeyMeaning(info: GpuInfo, fields: FieldStates, id: string, f: FieldId)
    ensures Key(id, Decimal(f)) in CutKeys(info, fields) <==> id == StableIdentifier(info) && f in CutFields(fields)
  {
    forall g ensures Key(id, Decimal(f)) == ObservationKey(info, g) <==> id == StableIdentifier(info) && f == g {
      ObservationKeysInjective(id, f, StableIdentifier(info), g);
    }
  }

  lemma FollowsReset(setup: Setup, c: Integrator, times: Times, series: SeriesMap, info: GpuInfo, fields: FieldStates,
                     events: seq<Event>)
    requires IsOf(setup, c, info) && c.Follows(times, series, events)
    ensures c.Follows(times - CutKeys(info, fields), series, events + Reset(fields, c.field))
  {
    CutKeyMeaning(info, fields, c.id, c.field);
    if c.field in CutFields(fields) {
      IntegralOfCut(events, c.weight, c.maxGap);
    } else {
      assert events + [] == events;
    }
    c.Append(times, series, times - CutKeys(info, fields), series, events, Reset(fields, c.field), 0.0);
  }

  lemma CountersLeave(setup: Setup, c: Integrator, st: State, sample: GpuSample)
    requires Integrates(setup, c)
    ensures var observed, after := ObserveSample(setup, st, sample), CollectSample(setup, st, sample);
            Lookup(after.series, c.Line()) == Lookup(observed.series, c.Line()) && after.times == observed.times
  {
    IntegratorsAreIntegrated(setup, c);
    CountersTouch(setup, ObserveSample(setup, st, sample), sample.info, sample.slots, setup.counters, c.Line());
  }

  lemma FollowsObserving(setup: Setup, c: Integrator, st: State, sample: GpuSample, events: seq<Event>)
    requires IsOf(setup, c, sample.info) && Integrates(setup, c) && c.Follows(st.times, st.series, events)
    ensures var observed := WithObservations(setup, st, sample);
            c.Follows(observed.times, observed.series, events + ObservedEvents(c.field, sample.observations))
  {
    IntegratorsAreIntegrated(setup, c);
    var published := WithStatus(setup, st, sample);
    StatusTouches(st.series, setup.LabelsOf(sample.info), sample.fields, c.Line());
    c.Keep(st.times, st.series, published.times, published.series, events);
    FollowsObservations(setup, c, published, sample.info, sample.fields, sample.observations, events);
  }

  lemma GaugesLeave(setup: Setup, c: Integrator, st: State, sample: GpuSample)
    requires Integrates(setup, c)
    ensures var observed, after := WithObservations(setup, st, sample), CollectSample(setup, st, sample);
            && after.times == observed.times - CutKeys(sample.info, sample.fields)
            && Lookup(after.series, c.Line()) == Lookup(observed.series, c.Line())
  {
    IntegratorsAreIntegrated(setup, c);
    ObserveSampleParts(setup, st, sample);
    GaugesTouch(WithObservations(setup, st, sample).series, setup.LabelsOf(sample.info), sample.slots, setup.gauges,
                c.Line());
    CountersLeave(setup, c, st, sample);
  }

  lemma FollowsRest(setup: Setup, c: Integrator, sample: GpuSample, times: Times, series: SeriesMap, times': Times,
                    series': SeriesMap, events: seq<Event>)
    requires IsOf(setup, c, sample.info)
    requires c.Follows(times, series, events + ObservedEvents(c.field, sample.observations))
    requires times' == times - CutKeys(sample.info, sample.fields)
    requires Lookup(series', c.Line()) == Lookup(series, c.Line())
    ensures c.Follows(times', series', events + SampleEvents(sample, c.field))
  {
    var seen := events + ObservedEvents(c.field, sample.observations);
    FollowsReset(setup, c, times, series, sample.info, sample.fields, seen);
    assert seen + Reset(sample.fields, c.field) == events + SampleEvents(sample, c.field);
  }

  lemma FollowsSample(setup: Setup, c: Integrator, st: State, sample: GpuSample, events: seq<Event>)
    requires IsOf(setup, c, sample.info) && Integrates(setup, c) && c.Follows(st.times, st.series, events)
    ensures var after := CollectSample(setup, st, sample);
            c.Follows(after.times, after.series, events + SampleEvents(sample, c.field))
  {
    var observed, after := WithObservations(setup, st, sample), CollectSample(setup, st, sample);
    FollowsObserving(setup, c, st, sample, events);
    GaugesLeave(setup, c, st, sample);
    FollowsRest(setup, c, sample, observed.times, observed.series, after.times, after.series, events);
  }

  // Samples of other GPUs.

  lemma {:induction false} ObservationsLeaveTimes(setup: Setup, st: State, info: GpuInfo, fields: FieldStates,
                                                  observations: seq<Observation>, id: string, f: FieldId)
    requires id != StableIdentifier(info)
    ensures Lookup(ObserveAll(setup, st, info, fields, observations).times, Key(id, Decimal(f)))
        == Lookup(st.times, Key(id, Decimal(f)))
  {
    if observations == [] {
    } else {
      var n := |observations| - 1;
      ObservationsLeaveTimes(setup, st, info, fields, observations[..n], id, f);
      ObservationKeysInjective(id, f, StableIdentifier(info), observations[n].fieldId);
    }
  }

  lemma OtherSampleLeaves(setup: Setup, c: Integrator, st: State, sample: GpuSample, events: seq<Event>)
    requires IsNotOf(setup, c, sample.info) && Integrates(setup, c) && c.Follows(st.times, st.series, events)
    ensures var after := CollectSample(setup, st, sample);
            c.Follows(after.times, after.series, events)
  {
    var after := CollectSample(setup, st, sample);
    ObservationsLeaveTimes(setup, WithStatus(setup, st, sample), sample.info, sample.fields, sample.observations, c.id,
                           c.field);
    CutKeyMeaning(sample.info, sample.fields, c.id, c.field);
    GaugesLeave(setup, c, st, sample);
    SampleTouches(setup, st, sample, c.Line());
    c.Keep(st.times, st.series, after.times, after.series, events);
  }

  // ----- Hardware counters -----------------------------------------------------------------

  /** The raw value a slot has for a counter. */
  function RawOfSpec(slots: Slots, spec: CounterSpec, suffix: string): seq<real> {
    if spec.suffix == suffix && spec.field in slots then [slots[spec.field]] else []
  }

  /** The raw values a sample has for a counter, in table order. */
  function RawIn(slots: Slots, table: seq<CounterSpec>, suffix: string): seq<real> {
    if table == [] then []
    else
      var n := |table| - 1;
      RawIn(slots, table[..n], suffix) + RawOfSpec(slots, table[n], suffix)
  }

  function RawOf(setup: Setup, samples: seq<GpuSample>, suffix: string): seq<real> {
    if samples == [] then []
    else RawOf(setup, samples[..|samples| - 1], suffix) + RawIn(samples[|samples| - 1].slots, setup.counters, suffix)
  }

  /** A hardware counter of one GPU. */
  datatype Hardware = Hardware(id: string, labels: Labels, suffix: string) {
    function StoredKey(): string { Key(id, suffix) }
    function Line(): Series { Series(HardwareTotal(suffix), labels) }

    /** The stored previous value and the exported total are those of these raw values. */
    ghost predicate Mirrors(stored: map<string, real>, series: SeriesMap, raw: seq<real>) {
      && Lookup(stored, StoredKey()) == Last(None, raw)
      && Lookup(series, Line()) == (if Last(None, raw).None? then None else Some(Total(None, raw)))
    }

    /** Between two states the counter took these raw values, whatever was stored and exported before. */
    ghost predicate Took(before: State, after: State, raw: seq<real>) {
      var previous := Lookup(before.hardware, StoredKey());
      && Lookup(after.hardware, StoredKey()) == Last(previous, raw)
      && Lookup(after.series, Line()) == if Last(None, raw).None? then Lookup(before.series, Line())
                                         else Some(Get(before.series, Line()) + Total(previous, raw))
    }

    lemma TookBoth(first: State, second: State, third: State, raw: seq<real>, more: seq<real>)
      requires Took(first, second, raw) && Took(second, third, more)
      ensures Took(first, third, raw + more)
    {
      var previous := Lookup(first.hardware, StoredKey());
      TotalInParts(previous, raw, more);
      TotalInParts(None, raw, more);
      if Last(None, raw).None? {
        NothingRemembered(previous, raw);
      } else {
        LastStays(Last(None, raw).value, more);
      }
      if Last(None, more).None? { NothingRemembered(Last(previous, raw), more); }
    }

    lemma TookFrom(same: State, before: State, after: State, raw: seq<real>)
      requires Took(before, after, raw) && Lookup(same.hardware, StoredKey()) == Lookup(before.hardware, StoredKey())
      requires Lookup(same.series, Line()) == Lookup(before.series, Line())
      ensures Took(same, after, raw)
    {
    }

    lemma MirrorsTook(before: State, after: State, raw: seq<real>, more: seq<real>)
      requires Mirrors(before.hardware, before.series, raw) && Took(before, after, more)
      ensures Mirrors(after.hardware, after.series, raw + more)
    {
      TotalInParts(None, raw, more);
      if Last(None, raw).None? {
        NothingRemembered(None, raw);
      } else {
        LastStays(Last(None, raw).value, more);
      }
      if Last(None, more).None? { NothingRemembered(Last(None, raw), more); }
    }

    lemma Keep(stored: map<string, real>, series: SeriesMap, stored': map<string, real>, series': SeriesMap,
               raw: seq<real>)
      requires Mirrors(stored, series, raw)
      requires Lookup(stored', StoredKey()) == Lookup(stored, StoredKey())
      requires Lookup(series', Line()) == Lookup(series, Line())
      ensures Mirrors(stored', series', raw)
    {
    }
  }

  lemma {:induction false} NothingRemembered(previous: Option<real>, raw: seq<real>)
    requires Last(None, raw).None?
    ensures Last(previous, raw) == previous && Total(previous, raw) == 0.0
    decreases |raw|
  {
    if raw == [] {
    } else {
      if raw[0] >= 0.0 { LastStays(raw[0], raw[1..]); }
      NothingRemembered(previous, raw[1..]);
    }
  }

  lemma {:induction false} LastStays(value: real, raw: seq<real>)
    ensures Last(Some(value), raw).Some?
    decreases |raw|
  {
    if raw == [] {
    } else {
      LastStays(if raw[0] < 0.0 then value else raw[0], raw[1..]);
    }
  }

  lemma ValueIsTaken(h: Hardware, st: State, value: real)
    ensures h.Took(st, CountHardware(st, h.StoredKey(), value, h.Line()), [value])
  {
    var previous := Lookup(st.hardware, h.StoredKey());
    assert [value][1..] == [];
    assert Last(None, [value]) == Remembered(None, value) && Last(previous, [value]) == Remembered(previous, value);
    assert Total(previous, [value]) == Added(previous, value);
  }

  lemma SpecIsTaken(setup: Setup, h: Hardware, st: State, info: GpuInfo, slots: Slots, spec: CounterSpec)
    requires spec.suffix in CounterSuffixes() && h.suffix in CounterSuffixes()
    requires h.id == StableIdentifier(info) && h.labels == setup.LabelsOf(info)
    ensures h.Took(st, CountSpec(setup, st, info, slots, spec), RawOfSpec(slots, spec, h.suffix))
  {
    HardwareKeysInjective(h.id, h.suffix, StableIdentifier(info), spec.suffix);
    if spec.suffix == h.suffix && spec.field in slots {
      ValueIsTaken(h, st, slots[spec.field]);
    }
  }

  lemma {:induction false} TableIsTaken(setup: Setup, h: Hardware, st: State, info: GpuInfo, slots: Slots,
                                        table: seq<CounterSpec>)
    requires TableKeyed(table) && h.suffix in CounterSuffixes()
    requires h.id == StableIdentifier(info) && h.labels == setup.LabelsOf(info)
    ensures h.Took(st, CountAll(setup, st, info, slots, table), RawIn(slots, table, h.suffix))
  {
    if table == [] {
    } else {
      var n := |table| - 1;
      var before := CountAll(setup, st, info, slots, table[..n]);
      TableIsTaken(setup, h, st, info, slots, table[..n]);
      SpecIsTaken(setup, h, before, info, slots, table[n]);
      h.TookBoth(st, before, CountAll(setup, st, info, slots, table), RawIn(slots, table[..n], h.suffix),
                 RawOfSpec(slots, table[n], h.suffix));
    }
  }

  /** A sample is taken from any state. */
  lemma SampleIsTaken(setup: Setup, h: Hardware, st: State, sample: GpuSample)
    requires TableKeyed(setup.counters) && h.suffix in CounterSuffixes()
    requires h.id == StableIdentifier(sample.info) && h.labels == setup.LabelsOf(sample.info)
    ensures h.Took(st, CollectSample(setup, st, sample), RawIn(sample.slots, setup.counters, h.suffix))
  {
    var observed := ObserveSample(setup, st, sample);
    ObserveSampleTouches(setup, st, sample, h.Line());
    MetricsApart(h.Line().metric);
    TableIsTaken(setup, h, observed, sample.info, sample.slots, setup.counters);
    h.TookFrom(st, observed, CollectSample(setup, st, sample), RawIn(sample.slots, setup.counters, h.suffix));
  }

  lemma ObservingLeavesHardware(setup: Setup, h: Hardware, st: State, sample: GpuSample, raw: seq<real>)
    requires h.Mirrors(st.hardware, st.series, raw)
    ensures var after := ObserveSample(setup, st, sample);
            h.Mirrors(after.hardware, after.series, raw)
  {
    ObserveSampleTouches(setup, st, sample, h.Line());
    MetricsApart(h.Line().metric);
    var after := ObserveSample(setup, st, sample);
    h.Keep(st.hardware, st.series, after.hardware, after.series, raw);
  }

  lemma MirrorsSample(setup: Setup, h: Hardware, st: State, sample: GpuSample, raw: seq<real>)
    requires TableKeyed(setup.counters) && h.suffix in CounterSuffixes()
    requires h.id == StableIdentifier(sample.info) && h.labels == setup.LabelsOf(sample.info)
    requires h.Mirrors(st.hardware, st.series, raw)
    ensures var after := CollectSample(setup, st, sample);
            h.Mirrors(after.hardware, after.series, raw + RawIn(sample.slots, setup.counters, h.suffix))
  {
    SampleIsTaken(setup, h, st, sample);
    h.MirrorsTook(st, CollectSample(setup, st, sample), raw, RawIn(sample.slots, setup.counters, h.suffix));
  }

  lemma {:induction false} OtherTableLeaves(setup: Setup, h: Hardware, st: State, info: GpuInfo, slots: Slots,
                                            table: seq<CounterSpec>)
    requires TableKeyed(table) && h.suffix in CounterSuffixes() && h.id != StableIdentifier(info)
    ensures Lookup(CountAll(setup, st, info, slots, table).hardware, h.StoredKey())
        == Lookup(st.hardware, h.StoredKey())
  {
    if table == [] {
    } else {
      var n := |table| - 1;
      OtherTableLeaves(setup, h, st, info, slots, table[..n]);
      HardwareKeysInjective(h.id, h.suffix, StableIdentifier(info), table[n].suffix);
    }
  }

  lemma OtherSampleLeavesHardware(setup: Setup, h: Hardware, st: State, sample: GpuSample, raw: seq<real>)
    requires TableKeyed(setup.counters) && h.suffix in CounterSuffixes()
    requires h.id != StableIdentifier(sample.info) && h.labels != setup.LabelsOf(sample.info)
    requires h.Mirrors(st.hardware, st.series, raw)
    ensures var after := CollectSample(setup, st, sample);
            h.Mirrors(after.hardware, after.series, raw)
  {
    var observed, after := ObserveSample(setup, st, sample), CollectSample(setup, st, sample);
    ObservingLeavesHardware(setup, h, st, sample, raw);
    OtherTableLeaves(setup, h, observed, sample.info, sample.slots, setup.counters);
    CountersTouch(setup, observed, sample.info, sample.slots, setup.counters, h.Line());
    h.Keep(observed.hardware, observed.series, after.hardware, after.series, raw);
  }

  // ----- Batches and runs ------------------------------------------------------------------

  /** This identifier and these labels name the same samples. */
  predicate Named(setup: Setup, sample: GpuSample, id: string, labels: Labels) {
    StableIdentifier(sample.info) == id <==> setup.LabelsOf(sample.info) == labels
  }

  lemma EventsOfMine(own: seq<GpuSample>, sample: GpuSample, id: string, f: FieldId)
    ensures EventsOf(own + Mine(id, sample), f) == if StableIdentifier(sample.info) == id
        then EventsOf(own, f) + SampleEvents(sample, f) else EventsOf(own, f)
  {
    if StableIdentifier(sample.info) == id { assert (own + [sample])[..|own|] == own; } else { assert own + [] == own; }
  }

  lemma RawOfMine(setup: Setup, own: seq<GpuSample>, sample: GpuSample, id: string, suffix: string)
    ensures RawOf(setup, own + Mine(id, sample), suffix)
            == if StableIdentifier(sample.info) == id then RawOf(setup, own, suffix)
                + RawIn(sample.slots, setup.counters, suffix)
               else RawOf(setup, own, suffix)
  {
    if StableIdentifier(sample.info) == id { assert (own + [sample])[..|own|] == own; } else { assert own + [] == own; }
  }

  lemma FollowsNext(setup: Setup, c: Integrator, st: State, sample: GpuSample, events: seq<Event>)
    requires Integrates(setup, c) && Named(setup, sample, c.id, c.labels) && c.Follows(st.times, st.series, events)
    ensures var after := CollectSample(setup, st, sample);
            c.Follows(after.times, after.series, if StableIdentifier(sample.info) == c.id
                then events + SampleEvents(sample, c.field) else events)
  {
    if StableIdentifier(sample.info) == c.id {
      FollowsSample(setup, c, st, sample, events);
    } else {
      OtherSampleLeaves(setup, c, st, sample, events);
    }
  }

  lemma MirrorsNext(setup: Setup, h: Hardware, st: State, sample: GpuSample, raw: seq<real>)
    requires TableKeyed(setup.counters) && h.suffix in CounterSuffixes()
    requires Named(setup, sample, h.id, h.labels) && h.Mirrors(st.hardware, st.series, raw)
    ensures var after := CollectSample(setup, st, sample);
            h.Mirrors(after.hardware, after.series,
                      if StableIdentifier(sample.info) == h.id then raw + RawIn(sample.slots, setup.counters, h.suffix)
                          else raw)
  {
    if StableIdentifier(sample.info) == h.id {
      MirrorsSample(setup, h, st, sample, raw);
    } else {
      OtherSampleLeavesHardware(setup, h, st, sample, raw);
    }
  }

  lemma SamplesOfLast(own: seq<GpuSample>, id: string, samples: seq<GpuSample>)
    requires samples != []
    ensures own + SamplesOf(id, samples) == (own + SamplesOf(id, samples[..|samples| - 1]))
        + Mine(id, samples[|samples| - 1])
  {
    var n := |samples| - 1;
    Associative(own, SamplesOf(id, samples[..n]), Mine(id, samples[n]));
  }

  lemma {:induction false} FollowsSamples(setup: Setup, c: Integrator, st: State, samples: seq<GpuSample>,
                                          own: seq<GpuSample>)
    requires Integrates(setup, c) && c.Follows(st.times, st.series, EventsOf(own, c.field))
    requires forall s :: s in samples ==> Named(setup, s, c.id, c.labels)
    ensures var after := CollectSamples(setup, st, samples);
            c.Follows(after.times, after.series, EventsOf(own + SamplesOf(c.id, samples), c.field))
  {
    if samples == [] {
      assert own + [] == own;
    } else {
      var n := |samples| - 1;
      FollowsSamples(setup, c, st, samples[..n], own);
      var seen := own + SamplesOf(c.id, samples[..n]);
      FollowsNext(setup, c, CollectSamples(setup, st, samples[..n]), samples[n], EventsOf(seen, c.field));
      EventsOfMine(seen, samples[n], c.id, c.field);
      SamplesOfLast(own, c.id, samples);
    }
  }

  lemma {:induction false} MirrorsSamples(setup: Setup, h: Hardware, st: State, samples: seq<GpuSample>,
                                          own: seq<GpuSample>)
    requires TableKeyed(setup.counters) && h.suffix in CounterSuffixes()
    requires h.Mirrors(st.hardware, st.series, RawOf(setup, own, h.suffix))
    requires forall s :: s in samples ==> Named(setup, s, h.id, h.labels)
    ensures var after := CollectSamples(setup, st, samples);
            h.Mirrors(after.hardware, after.series, RawOf(setup, own + SamplesOf(h.id, samples), h.suffix))
  {
    if samples == [] {
      assert own + [] == own;
    } else {
      var n := |samples| - 1;
      MirrorsSamples(setup, h, st, samples[..n], own);
      var seen := own + SamplesOf(h.id, samples[..n]);
      MirrorsNext(setup, h, CollectSamples(setup, st, samples[..n]), samples[n], RawOf(setup, seen, h.suffix));
      RawOfMine(setup, seen, samples[n], h.id, h.suffix);
      SamplesOfLast(own, h.id, samples);
    }
  }

  /** Nothing is kept under the labels or the identifier of a GPU that is new, or new under its labels. */
  lemma NewGpuStartsEmpty(setup: Setup, st: State, batch: SampleBatch, ids: set<string>, id: string, metric: Metric,
                          suffix: string)
    requires Tidy(setup, st, ids) && WellFormed(batch, ids) && PairwiseSeparate(ids)
    requires id in ByIdentifier(batch.supported) && !Stays(st, batch.supported, id)
    ensures var after := Reconcile(setup, st, batch.supported);
            && Series(metric, setup.LabelsOf(after.active[id])) !in after.series
            && Key(id, suffix) !in after.times && Key(id, suffix) !in after.hardware
  {
    var next := ByIdentifier(batch.supported);
    var gone := Outdated(st.active, next);
    var s, key := Series(metric, setup.LabelsOf(next[id])), Key(id, suffix);
    ByIdentifierMeaning(batch.supported);
    ForgetTouches(setup, st, st.active, gone, s, key);
    if s in st.series {
      var other :| other in st.active && s.labels == setup.LabelsOf(st.active[other]);
      LabelsDetermineIdentifier(next[id], st.active[other], setup.hostname);
      assert other == id && id in gone;
    }
    if key in st.times || key in st.hardware {
      NewKeyIsGone(st.active, ids, id, suffix);
      OwnKeysDropped(id, suffix);
    }
  }

  lemma NewKeyIsGone(active: map<string, GpuInfo>, ids: set<string>, id: string, suffix: string)
    requires ActiveNamed(active, ids) && PairwiseSeparate(ids) && id in ids && KeyOfActive(active, Key(id, suffix))
    ensures id in active
  {
    var other, rest :| other in active && Key(id, suffix) == Key(other, rest);
    OwnKeysDropped(id, suffix);
    DroppedKeyIsOwnOrNotSeparate(id, other, rest);
  }

  /** Health and collection status come between the reconciliation and the samples. */
  lemma BeginKeeps(setup: Setup, st: State, now: Time, batch: SampleBatch, s: Series)
    requires !CollectMetric(s.metric)
    ensures var kept, after := Reconcile(setup, st, batch.supported), Begin(setup, st, now, batch);
            && Lookup(after.series, s) == Lookup(kept.series, s)
            && after.times == kept.times && after.hardware == kept.hardware
                && after.active == ByIdentifier(batch.supported)
  {
    var kept := Reconcile(setup, st, batch.supported).series;
    ErrorsTouch(setup, kept, batch.failures, s);
    SuccessTouches(setup, ErrorsCounted(setup, kept, batch.failures), batch.supported,
                   FailedIdentifiers(batch.failures), s);
  }

  lemma SamplesAreNamed(setup: Setup, batch: SampleBatch, ids: set<string>, id: string)
    requires WellFormed(batch, ids) && id in ByIdentifier(batch.supported)
    ensures StableIdentifier(ByIdentifier(batch.supported)[id]) == id
    ensures forall s :: s in batch.samples ==> Named(setup, s, id, setup.LabelsOf(ByIdentifier(batch.supported)[id]))
  {
    ByIdentifierMeaning(batch.supported);
    var info := ByIdentifier(batch.supported)[id];
    forall s | s in batch.samples ensures Named(setup, s, id, setup.LabelsOf(info)) {
      if setup.LabelsOf(s.info) == setup.LabelsOf(info) { LabelsDetermineIdentifier(s.info, info, setup.hostname); }
    }
  }

  /** What a collection starts from, for one GPU: what was there when the GPU stays, nothing otherwise. */
  lemma BeginIsExact(setup: Setup, st: State, now: Time, batch: SampleBatch, ids: set<string>, id: string,
                     metric: Metric, suffix: string)
    requires Tidy(setup, st, ids) && WellFormed(batch, ids) && PairwiseSeparate(ids)
    requires id in ByIdentifier(batch.supported) && !CollectMetric(metric)
    ensures var after := Begin(setup, st, now, batch);
            var s, key := Series(metric, setup.LabelsOf(ByIdentifier(batch.supported)[id])), Key(id, suffix);
            if Stays(st, batch.supported, id)
            then s == Series(metric, setup.LabelsOf(st.active[id])) && Lookup(after.series, s) == Lookup(st.series, s)
                 && Lookup(after.times, key) == Lookup(st.times, key)
                 && Lookup(after.hardware, key) == Lookup(st.hardware, key)
            else Lookup(after.series, s) == None && Lookup(after.times, key) == None
                 && Lookup(after.hardware, key) == None
  {
    BeginKeeps(setup, st, now, batch, Series(metric, setup.LabelsOf(ByIdentifier(batch.supported)[id])));
    if Stays(st, batch.supported, id) {
      ReconcileIsExact(setup, st, batch, ids, id, metric, suffix);
      SameIdentitySameLabels(setup, st.active[id], ByIdentifier(batch.supported)[id]);
    } else {
      NewGpuStartsEmpty(setup, st, batch, ids, id, metric, suffix);
    }
  }

  function IntegratorOf(setup: Setup, id: string, labels: Labels, f: FieldId, m: Metric): Integrator
    requires WeightOf(setup, f, m).Some?
  {
    Integrator(id, labels, f, m, WeightOf(setup, f, m).value, setup.maxGap(f))
  }

  lemma FollowsBatch(setup: Setup, st: State, now: Time, batch: SampleBatch, ids: set<string>, id: string, f: FieldId,
                     m: Metric, own: seq<GpuSample>)
    requires Tidy(setup, st, ids) && WellFormed(batch, ids) && PairwiseSeparate(ids) && WeightOf(setup, f, m).Some?
    requires id in ByIdentifier(batch.supported)
    requires if Stays(st, batch.supported, id)
             then IntegratorOf(setup, id, setup.LabelsOf(st.active[id]), f, m)
                    .Follows(st.times, st.series, EventsOf(own, f))
             else own == []
    ensures var after := Collect(setup, st, now, batch);
            IntegratorOf(setup, id, setup.LabelsOf(ByIdentifier(batch.supported)[id]), f, m)
              .Follows(after.times, after.series, EventsOf(own + SamplesOf(id, batch.samples), f))
  {
    var c := IntegratorOf(setup, id, setup.LabelsOf(ByIdentifier(batch.supported)[id]), f, m);
    IntegratorsAreIntegrated(setup, c);
    BeginIsExact(setup, st, now, batch, ids, id, m, Decimal(f));
    SamplesAreNamed(setup, batch, ids, id);
    FollowsSamples(setup, c, Begin(setup, st, now, batch), batch.samples, own);
  }

  lemma MirrorsBatch(setup: Setup, st: State, now: Time, batch: SampleBatch, ids: set<string>, id: string,
                     suffix: string, own: seq<GpuSample>)
    requires Tidy(setup, st, ids) && WellFormed(batch, ids) && PairwiseSeparate(ids)
    requires TableKeyed(setup.counters) && suffix in CounterSuffixes() && id in ByIdentifier(batch.supported)
    requires if Stays(st, batch.supported, id)
             then Hardware(id, setup.LabelsOf(st.active[id]), suffix)
                    .Mirrors(st.hardware, st.series, RawOf(setup, own, suffix))
             else own == []
    ensures var after := Collect(setup, st, now, batch);
            Hardware(id, setup.LabelsOf(ByIdentifier(batch.supported)[id]), suffix)
              .Mirrors(after.hardware, after.series, RawOf(setup, own + SamplesOf(id, batch.samples), suffix))
  {
    var h := Hardware(id, setup.LabelsOf(ByIdentifier(batch.supported)[id]), suffix);
    BeginIsExact(setup, st, now, batch, ids, id, HardwareTotal(suffix), suffix);
    SamplesAreNamed(setup, batch, ids, id);
    MirrorsSamples(setup, h, Begin(setup, st, now, batch), batch.samples, own);
  }

  lemma ActiveAfterCollect(setup: Setup, st: State, now: Time, batch: SampleBatch, ids: set<string>)
    requires Tidy(setup, st, ids) && WellFormed(batch, ids)
    ensures Collect(setup, st, now, batch).active == ByIdentifier(batch.supported)
  {
    TidyAfterBegin(setup, st, now, batch, ids);
    TidyAfterSamples(setup, Begin(setup, st, now, batch), batch.samples, ids);
  }

  /** The metric and the stored timestamp of an active GPU are those of its own events. */
  ghost predicate IntegralsAgree(setup: Setup, ops: seq<Op>, id: string, f: FieldId, m: Metric)
    requires id in Run(setup, ops).active && WeightOf(setup, f, m).Some?
  {
    var st := Run(setup, ops);
    IntegratorOf(setup, id, setup.LabelsOf(st.active[id]), f, m).Follows(st.times, st.series,
        EventsOf(OwnSamples(setup, ops, id), f))
  }

  /** The run ends in a batch, and the GPU stays as it was in it. */
  ghost predicate LastBatchKeeps(setup: Setup, ops: seq<Op>, id: string)
    requires ops != [] && ops[|ops| - 1].CollectBatch?
  {
    Stays(Run(setup, ops[..|ops| - 1]), ops[|ops| - 1].batch.supported, id)
  }

  lemma IntegralsAfterBatch(setup: Setup, ops: seq<Op>, ids: set<string>, id: string, f: FieldId, m: Metric)
    requires Reached(setup, ops, ids, id) && WeightOf(setup, f, m).Some? && ops != [] && ops[|ops| - 1].CollectBatch?
    requires LastBatchKeeps(setup, ops, id) ==> IntegralsAgree(setup, ops[..|ops| - 1], id, f, m)
    ensures IntegralsAgree(setup, ops, id, f, m)
  {
    var before, op := ops[..|ops| - 1], ops[|ops| - 1];
    var st := Run(setup, before);
    EverythingBelongsToAnActiveGpu(setup, before, ids);
    ActiveAfterCollect(setup, st, op.now, op.batch, ids);
    FollowsBatch(setup, st, op.now, op.batch, ids, id, f, m, if LastBatchKeeps(setup, ops, id)
        then OwnSamples(setup, before, id) else []);
  }

  lemma IntegralsAfterPublication(setup: Setup, ops: seq<Op>, id: string, f: FieldId, m: Metric)
    requires ops != [] && ops[|ops| - 1].PublishWindows? && id in Run(setup, ops[..|ops| - 1]).active
    requires WeightOf(setup, f, m).Some?
    requires IntegralsAgree(setup, ops[..|ops| - 1], id, f, m)
    ensures IntegralsAgree(setup, ops, id, f, m)
  {
    var st := Run(setup, ops[..|ops| - 1]);
    var c := IntegratorOf(setup, id, setup.LabelsOf(st.active[id]), f, m);
    IntegratorsAreIntegrated(setup, c);
    PublishTouches(setup, st.series, ops[|ops| - 1].order, st.windows, c.Line());
  }

  /**
   In every well-formed run the integrated counters of an active GPU are the integrals over its own
   events, and the stored timestamps are the last ones: no other GPU, no removal and no earlier life
   of the GPU shows in them.
   */
  lemma {:induction false} CountersAreIntegrals(setup: Setup, ops: seq<Op>, ids: set<string>, id: string, f: FieldId,
                                                m: Metric)
    requires Reached(setup, ops, ids, id) && WeightOf(setup, f, m).Some?
    ensures IntegralsAgree(setup, ops, id, f, m)
  {
    if ops == [] {
    } else {
      var n := |ops| - 1;
      match ops[n]
      case CollectBatch(_, _) =>
        if LastBatchKeeps(setup, ops, id) {
          CountersAreIntegrals(setup, ops[..n], ids, id, f, m);
        }
        IntegralsAfterBatch(setup, ops, ids, id, f, m);
      case CollectError =>
        CountersAreIntegrals(setup, ops[..n], ids, id, f, m);
      case PublishWindows(_) =>
        CountersAreIntegrals(setup, ops[..n], ids, id, f, m);
        IntegralsAfterPublication(setup, ops, id, f, m);
    }
  }

  /** The series and the stored value of a hardware counter of an active GPU are those of its own raw values. */
  ghost predicate HardwareAgrees(setup: Setup, ops: seq<Op>, id: string, suffix: string)
    requires id in Run(setup, ops).active
  {
    var st := Run(setup, ops);
    Hardware(id, setup.LabelsOf(st.active[id]), suffix).Mirrors(st.hardware, st.series,
                                                                RawOf(setup, OwnSamples(setup, ops, id), suffix))
  }

  lemma HardwareAfterBatch(setup: Setup, ops: seq<Op>, ids: set<string>, id: string, suffix: string)
    requires Reached(setup, ops, ids, id) && TableKeyed(setup.counters) && IsCounter(suffix) && ops != []
    requires ops[|ops| - 1].CollectBatch?
    requires LastBatchKeeps(setup, ops, id) ==> HardwareAgrees(setup, ops[..|ops| - 1], id, suffix)
    ensures HardwareAgrees(setup, ops, id, suffix)
  {
    var before, op := ops[..|ops| - 1], ops[|ops| - 1];
    var st := Run(setup, before);
    EverythingBelongsToAnActiveGpu(setup, before, ids);
    ActiveAfterCollect(setup, st, op.now, op.batch, ids);
    MirrorsBatch(setup, st, op.now, op.batch, ids, id, suffix, if LastBatchKeeps(setup, ops, id)
        then OwnSamples(setup, before, id) else []);
  }

  lemma HardwareAfterPublication(setup: Setup, ops: seq<Op>, id: string, suffix: string)
    requires ops != [] && ops[|ops| - 1].PublishWindows? && id in Run(setup, ops[..|ops| - 1]).active
    requires HardwareAgrees(setup, ops[..|ops| - 1], id, suffix)
    ensures HardwareAgrees(setup, ops, id, suffix)
  {
    var st := Run(setup, ops[..|ops| - 1]);
    PublishTouches(setup, st.series, ops[|ops| - 1].order, st.windows,
                   Series(HardwareTotal(suffix), setup.LabelsOf(st.active[id])));
  }

  /**
   In every well-formed run the stored previous value of a hardware counter is the last raw value
   of the GPU, and the exported series is their total; both exist or neither does.
   */
  lemma {:induction false} HardwareCountersAreTotals(setup: Setup, ops: seq<Op>, ids: set<string>, id: string,
                                                     suffix: string)
    requires Reached(setup, ops, ids, id) && TableKeyed(setup.counters) && IsCounter(suffix)
    ensures HardwareAgrees(setup, ops, id, suffix)
  {
    if ops == [] {
    } else {
      var n := |ops| - 1;
      match ops[n]
      case CollectBatch(_, _) =>
        if LastBatchKeeps(setup, ops, id) {
          HardwareCountersAreTotals(setup, ops[..n], ids, id, suffix);
        }
        HardwareAfterBatch(setup, ops, ids, id, suffix);
      case CollectError =>
        HardwareCountersAreTotals(setup, ops[..n], ids, id, suffix);
      case PublishWindows(_) =>
        HardwareCountersAreTotals(setup, ops[..n], ids, id, suffix);
        HardwareAfterPublication(setup, ops, id, suffix);
    }
  }
}
