/**
 The exporter: what one collection and one window publication do to the stored state and to the
 exported series (exporter.go, metrics.go), as functions on `State`. The classes that perform the
 steps are in module Service.
 */
module Exporter {
  import opened FieldSets
  import opened Clock
  import opened Identity
  import opened Aggregation
  import opened Decoding
  import opened History
  import opened Sampling
  import opened Tracker
  import opened Integration
  import opened Counters

  // ----- Hardware counters -----------------------------------------------------------------

  /** A slot that feeds a hardware counter, with the suffix of its key. */
  datatype CounterSpec = CounterSpec(field: FieldId, suffix: string)

  /** The slots observeReliabilityCounters reads. */
  function CounterTable(): seq<CounterSpec> {
    [CounterSpec(TOTAL_ENERGY, "energy"), CounterSpec(PCIE_REPLAY_COUNTER, "pcie_replay"),
     CounterSpec(ECC_SBE_VOL_TOTAL, "ecc:volatile:sbe"), CounterSpec(ECC_DBE_VOL_TOTAL, "ecc:volatile:dbe"),
     CounterSpec(ECC_SBE_AGG_TOTAL, "ecc:aggregate:sbe"), CounterSpec(ECC_DBE_AGG_TOTAL, "ecc:aggregate:dbe"),
     CounterSpec(RETIRED_SBE, "retired_pages:sbe"), CounterSpec(RETIRED_DBE, "retired_pages:dbe"),
     CounterSpec(CORRECTABLE_REMAPPED_ROWS, "remapped_rows:correctable"),
     CounterSpec(UNCORRECTABLE_REMAPPED_ROWS, "remapped_rows:uncorrectable"),
     CounterSpec(POWER_VIOLATION, "clock_violation:power"), CounterSpec(THERMAL_VIOLATION, "clock_violation:thermal"),
     CounterSpec(SYNC_BOOST_VIOLATION, "clock_violation:sync_boost"),
     CounterSpec(BOARD_LIMIT_VIOLATION, "clock_violation:board_limit"),
     CounterSpec(LOW_UTIL_VIOLATION, "clock_violation:low_utilization"),
     CounterSpec(RELIABILITY_VIOLATION, "clock_violation:reliability"),
     CounterSpec(APP_CLOCKS_VIOLATION, "clock_violation:application_clocks"),
     CounterSpec(BASE_CLOCKS_VIOLATION, "clock_violation:base_clocks")]
  }

  predicate IsCounter(suffix: string) { suffix in CounterSuffixes() }

  /** The counters of a table have distinguishable keys. */
  ghost predicate TableKeyed(table: seq<CounterSpec>) {
    forall i :: 0 <= i < |table| ==> table[i].suffix in CounterSuffixes()
  }

  lemma CounterTableIsKeyed()
    ensures TableKeyed(CounterTable())
  {
    var table := CounterTable();
    forall i | 0 <= i < |table| ensures table[i].suffix in CounterSuffixes() {
      if i < 6 {
        EventsInTable(i);
      } else if i < 10 {
        PagesInTable(i);
      } else {
        ViolationsInTable(i);
      }
    }
  }

  lemma EventsInTable(i: nat)
    requires i < 6
    ensures CounterTable()[i].suffix == EventSuffixes()[i]
  {
  }

  lemma PagesInTable(i: nat)
    requires 6 <= i < 10
    ensures CounterTable()[i].suffix == PageSuffixes()[i - 6]
  {
  }

  lemma ViolationsInTable(i: nat)
    requires 10 <= i < |CounterTable()|
    ensures CounterTable()[i].suffix == ViolationSuffixes()[i - 10]
  {
  }

  // ----- Configuration and series ----------------------------------------------------------

  datatype Config = Config(
    scrapeInterval: Duration,
    profilingInterval: Duration,
    operationalInterval: Duration,
    reliabilityInterval: Duration,
    activeThreshold: real,
    minRequestTime: Duration)
  {
    /** Ten intervals of the group the field is read with. */
    function MaxObservationGap(f: FieldId): (gap: Duration)
      ensures gap > 0
    {
      10 * (if f in ProfFields() || f in LegacyRateFields() then DurationOrDefault(profilingInterval,
          DEFAULT_PROFILING_INTERVAL)
            else if f in OperationalFields() then DurationOrDefault(operationalInterval, DEFAULT_OPERATIONAL_INTERVAL)
            else if f in ReliabilityFields() then DurationOrDefault(reliabilityInterval, DEFAULT_RELIABILITY_INTERVAL)
            else DurationOrDefault(scrapeInterval, DEFAULT_SCRAPE_INTERVAL))
    }

    /** A collection older than this no longer makes the exporter ready: five intervals, at least five seconds. */
    function MaxAge(): Duration {
      var age := 5 * DurationOrDefault(scrapeInterval, DEFAULT_SCRAPE_INTERVAL);
      if age < 5 * SECOND then 5 * SECOND else age
    }
  }

  /** What a configuration amounts to for the steps below. */
  datatype Setup = Setup(
    hostname: string,
    activeThreshold: real,
    minRequestTime: Duration,
    maxGap: FieldId -> Duration,
    maxAge: Duration,
    counters: seq<CounterSpec>,
    gauges: seq<FieldId>)
  {
    function Rule(): ActivityRule { ActivityRule(activeThreshold, minRequestTime) }

    function LabelsOf(info: GpuInfo): Labels { LabelsFor(info, hostname) }
  }

  function SetupFor(config: Config, hostname: string): Setup {
    Setup(hostname, config.activeThreshold, config.minRequestTime, (f: FieldId) => config.MaxObservationGap(f),
          config.MaxAge(), CounterTable(), GaugeFields())
  }

  /** A metric family together with its labels other than those of the GPU. */
  datatype Metric =
    | RequestCount | ActivityWindows | ActiveSeconds | EnergyEstimated
    | WeightedSeconds(aggregate: Aggregate) | ObservedSeconds(aggregate: Aggregate) | RateTotal(aggregate: Aggregate)
    | WindowMax(aggregate: Aggregate) | WindowAvg(aggregate: Aggregate)
    | HardwareTotal(counter: string)
    | Current(field: FieldId)
    | FieldSupported(field: FieldId) | FieldAvailable(field: FieldId) | FieldLastSuccess(field: FieldId)
    | CollectSuccess | CollectionErrors(reason: string)

  datatype Series = Series(metric: Metric, labels: Labels)

  type SeriesMap = map<Series, real>

  function Lookup<K, V>(m: map<K, V>, key: K): Option<V> { if key in m then Some(m[key]) else None }

  /** The value of a counter, a series that does not exist counting as zero. */
  function Get(series: SeriesMap, s: Series): real { if s in series then series[s] else 0.0 }

  function Plus(series: SeriesMap, s: Series, x: real): SeriesMap { series[s := Get(series, s) + x] }

  function BoolReal(b: bool): real { if b then 1.0 else 0.0 }

  // ----- One observation -------------------------------------------------------------------

  type Times = map<string, Time>

  /**
   Observations that feed nothing: unaggregated fields, and legacy PCIe rates while the profiling
   ones are available.
   */
  predicate Skipped(fields: FieldStates, f: FieldId) {
    || AggregationForField(f).None?
    || (IsLegacyPcie(f) && StatusOf(fields, DcpPcieField(f)).available)
  }

  function Interval(setup: Setup, times: Times, key: string, o: Observation): Duration {
    if o.timestamp == ZERO_TIME then 0
    else IntervalAfter(Lookup(times, key), o.timestamp, setup.maxGap(o.fieldId))
  }

  function StoredTimes(times: Times, key: string, now: Time): Times {
    if now == ZERO_TIME then times else times[key := now]
  }

  function PlusWhen(condition: bool, series: SeriesMap, s: Series, x: real): SeriesMap {
    if condition then Plus(series, s, x) else series
  }

  function CountedActivity(setup: Setup, series: SeriesMap, labels: Labels, o: Observation, dt: Duration,
                           request: bool): SeriesMap {
    var s0 := PlusWhen(request, series, Series(RequestCount, labels), 1.0);
    var s1 := PlusWhen(request, s0, Series(ActivityWindows, labels), 1.0);
    PlusWhen(o.fieldId == GPU_UTIL && dt > 0 && o.value > setup.activeThreshold, s1, Series(ActiveSeconds, labels),
             Seconds(dt))
  }

  /** What a rate held for an interval adds up to. */
  function Amount(rate: real, dt: Duration): real { rate * Seconds(dt) }

  function CountedIntegrals(series: SeriesMap, labels: Labels, a: Aggregate, o: Observation, dt: Duration): SeriesMap {
    var s0 := PlusWhen(IsIntegral(a) && dt > 0, series, Series(WeightedSeconds(a), labels),
                       Amount(Fraction(a, o.value), dt));
    PlusWhen(IsIntegral(a) && dt > 0, s0, Series(ObservedSeconds(a), labels), Seconds(dt))
  }

  function CountedRates(series: SeriesMap, labels: Labels, a: Aggregate, o: Observation, dt: Duration): SeriesMap {
    var s0 := PlusWhen(IsRate(a) && dt > 0, series, Series(RateTotal(a), labels), Amount(o.value, dt));
    PlusWhen(o.fieldId == POWER_USAGE && dt > 0, s0, Series(EnergyEstimated, labels), Amount(o.value, dt))
  }

  /** The counters after one observation of aggregate `a` that closes an interval of `dt`. */
  function Counted(setup: Setup, series: SeriesMap, labels: Labels, a: Aggregate, o: Observation, dt: Duration,
                   request: bool): SeriesMap {
    CountedRates(CountedIntegrals(CountedActivity(setup, series, labels, o, dt, request), labels, a, o, dt), labels, a,
                 o, dt)
  }

  // ----- State and steps -------------------------------------------------------------------

  datatype Health = Health(
    lastSuccess: Time, lastGpuCount: nat,
    up: bool, complete: bool, discovered: nat, collected: nat, failed: nat, errors: nat)

  datatype State = State(
    series: SeriesMap,
    hardware: map<string, real>,
    times: Times,
    active: map<string, GpuInfo>,
    windows: Windows,
    activity: map<string, GpuActivity>,
    health: Health)

  const INITIAL := State(map[], map[], map[], map[], map[], map[], Health(ZERO_TIME, 0, false, false, 0, 0, 0, 0))

  /** The turn of the loop of processObservations for one observation. */
  function ObserveOne(setup: Setup, st: State, info: GpuInfo, fields: FieldStates, o: Observation): State {
    if Skipped(fields, o.fieldId) then st
    else
      var a := AggregationForField(o.fieldId).value;
      var id := StableIdentifier(info);
      var key := ObservationKey(info, o.fieldId);
      var dt := Interval(setup, st.times, key, o);
      var was := if id in st.activity then st.activity[id] else INACTIVE;
      var reading := UtilReading(o.value, o.timestamp);
      var isUtil := o.fieldId == GPU_UTIL;
      st.(windows := Recorded(st.windows, WindowObservation(WindowKey(id, a), o.value)),
          times := StoredTimes(st.times, key, o.timestamp),
          activity := if isUtil then st.activity[id := setup.Rule().Next(was, reading)] else st.activity,
          series := Counted(setup, st.series, setup.LabelsOf(info), a, o, dt, isUtil
              && setup.Rule().EndsRequest(was, reading)))
  }

  function ObserveAll(setup: Setup, st: State, info: GpuInfo, fields: FieldStates,
                      observations: seq<Observation>): State {
    if observations == [] then st
    else
      var n := |observations| - 1;
      ObserveOne(setup, ObserveAll(setup, st, info, fields, observations[..n]), info, fields, observations[n])
  }

  /** Fields that are watched but have no valid value lose their stored timestamp. */
  function CutFields(fields: FieldStates): set<FieldId> {
    set f | f in fields && fields[f].supported && !fields[f].available
  }

  function CutKeys(info: GpuInfo, fields: FieldStates): set<string> {
    set f | f in CutFields(fields) :: ObservationKey(info, f)
  }

  /** What a field status series shows; the last success only once there is one. */
  function ShownStatus(m: Metric, status: FieldStatus): Option<real> {
    match m
    case FieldSupported(_) => Some(BoolReal(status.supported))
    case FieldAvailable(_) => Some(BoolReal(status.available))
    case FieldLastSuccess(_) => if status.lastSuccess == ZERO_TIME then None
        else Some(UnixSeconds(status.lastSuccess) as real)
    case _ => None
  }

  predicate FieldStatusMetric(m: Metric) { m.FieldSupported? || m.FieldAvailable? || m.FieldLastSuccess? }

  /** What the status of these fields sets a series to, if it sets it. */
  function StatusValue(labels: Labels, fields: FieldStates, s: Series): Option<real> {
    if s.labels != labels || !FieldStatusMetric(s.metric) || s.metric.field !in fields then None
    else ShownStatus(s.metric, fields[s.metric.field])
  }

  function StatusKeys(labels: Labels, fields: FieldStates): set<Series> {
    (set f | f in fields :: Series(FieldSupported(f), labels))
        + (set f | f in fields :: Series(FieldAvailable(f), labels))
    + (set f | f in fields :: Series(FieldLastSuccess(f), labels))
  }

  function StatusSeries(labels: Labels, fields: FieldStates): SeriesMap {
    map s | s in StatusKeys(labels, fields) && StatusValue(labels, fields, s).Some? ::
      StatusValue(labels, fields, s).value
  }

  /** The slots shown as they are; the other slots feed counters. */
  function GaugeFields(): seq<FieldId> {
    [FB_FREE, FB_USED, FB_TOTAL, FB_RESERVED, BAR1_FREE, BAR1_USED, BAR1_TOTAL,
     GPU_UTIL, GPU_TEMP, MEMORY_TEMP, POWER_USAGE, POWER_USAGE_INSTANT, MEM_COPY_UTIL, ENC_UTIL, DEC_UTIL,
     FB_USED_PERCENT, POWER_MGMT_LIMIT, ENFORCED_POWER_LIMIT, SM_CLOCK, MEM_CLOCK, PSTATE, FAN_SPEED,
     PCIE_LINK_GEN, PCIE_LINK_WIDTH, PCIE_MAX_LINK_GEN, PCIE_MAX_LINK_WIDTH, XID_ERRORS,
     RETIRED_PENDING, ROW_REMAP_FAILURE, ROW_REMAP_PENDING,
     GPU_MAX_OP_TEMP, MEM_MAX_OP_TEMP, CLOCK_THROTTLE_REASONS] + ProfFields()
  }

  /** The value of a gauge; the profiling PCIe rates fall back on the legacy ones. */
  function GaugeValue(slots: Slots, f: FieldId): Option<real> {
    if f in slots then Some(slots[f])
    else if f == PROF_PCIE_TX_BYTES then Lookup(slots, PCIE_TX_THROUGHPUT)
    else if f == PROF_PCIE_RX_BYTES then Lookup(slots, PCIE_RX_THROUGHPUT)
    else None
  }

  function GaugesFrom(labels: Labels, slots: Slots, fields: seq<FieldId>): SeriesMap {
    map f | f in fields && GaugeValue(slots, f).Some? :: Series(Current(f), labels) := GaugeValue(slots, f).value
  }

  /** observeHardwareCounter. */
  function CountHardware(st: State, key: string, value: real, s: Series): State {
    if value < 0.0 then st
    else st.(hardware := st.hardware[key := value],
                 series := Plus(st.series, s, Delta(Lookup(st.hardware, key), value)))
  }

  function CountSpec(setup: Setup, st: State, info: GpuInfo, slots: Slots, spec: CounterSpec): State {
    if spec.field !in slots then st
    else CountHardware(st, HardwareCounterKey(info, spec.suffix), slots[spec.field],
                       Series(HardwareTotal(spec.suffix), setup.LabelsOf(info)))
  }

  function CountAll(setup: Setup, st: State, info: GpuInfo, slots: Slots, table: seq<CounterSpec>): State {
    if table == [] then st
    else
      var n := |table| - 1;
      CountSpec(setup, CountAll(setup, st, info, slots, table[..n]), info, slots, table[n])
  }

  function WithStatus(setup: Setup, st: State, sample: GpuSample): State {
    st.(series := st.series + StatusSeries(setup.LabelsOf(sample.info), sample.fields))
  }

  function WithObservations(setup: Setup, st: State, sample: GpuSample): State {
    ObserveAll(setup, WithStatus(setup, st, sample), sample.info, sample.fields, sample.observations)
  }

  /** collectSample up to the gauges: field status, observations, resets, current values. */
  function ObserveSample(setup: Setup, st: State, sample: GpuSample): State {
    var observed := WithObservations(setup, st, sample);
    observed.(times := observed.times - CutKeys(sample.info, sample.fields),
              series := observed.series + GaugesFrom(setup.LabelsOf(sample.info), sample.slots, setup.gauges))
  }

  function CollectSample(setup: Setup, st: State, sample: GpuSample): State {
    CountAll(setup, ObserveSample(setup, st, sample), sample.info, sample.slots, setup.counters)
  }

  function CollectSamples(setup: Setup, st: State, samples: seq<GpuSample>): State {
    if samples == [] then st
    else CollectSample(setup, CollectSamples(setup, st, samples[..|samples| - 1]), samples[|samples| - 1])
  }

  /** The GPUs of a batch by identifier; of two with one identifier the later one counts. */
  function ByIdentifier(current: seq<GpuInfo>): map<string, GpuInfo> {
    if current == [] then map[]
    else ByIdentifier(current[..|current| - 1])[StableIdentifier(current[|current| - 1]) := current[|current| - 1]]
  }

  /** Known GPUs that are gone or carry other labels now. */
  function Outdated(active: map<string, GpuInfo>, next: map<string, GpuInfo>): set<string> {
    set id | id in active && !(id in next && SameIdentity(active[id], next[id]))
  }

  /** Everything about these GPUs is deleted: their series by labels, their stored state by key prefix. */
  function Forget(setup: Setup, st: State, infos: map<string, GpuInfo>, ids: set<string>): State
    requires ids <= infos.Keys
  {
    st.(series :=
          map s | s in st.series && (forall id :: id in ids ==> s.labels != setup.LabelsOf(infos[id])) :: st.series[s],
        hardware := map key | key in st.hardware && (forall id :: id in ids ==> !Dropped(id, key)) :: st.hardware[key],
        times := map key | key in st.times && (forall id :: id in ids ==> !Dropped(id, key)) :: st.times[key])
  }

  function Reconcile(setup: Setup, st: State, current: seq<GpuInfo>): State {
    var next := ByIdentifier(current);
    Forget(setup, st, st.active, Outdated(st.active, next)).(active := next)
  }

  function FailedIdentifiers(failures: seq<Failure>): set<string> {
    set f | f in failures :: StableIdentifier(f.info)
  }

  predicate Complete(batch: SampleBatch) {
    |batch.supported| > 0 && |batch.samples| == |batch.supported| && |FailedIdentifiers(batch.failures)| == 0
  }

  function Marked(health: Health, now: Time, batch: SampleBatch): Health {
    Health(if Complete(batch) then now else health.lastSuccess,
           if Complete(batch) then |batch.supported| else 0,
           true, Complete(batch), |batch.supported|, |batch.samples|, |FailedIdentifiers(batch.failures)|,
           if Complete(batch) then health.errors else health.errors + 1)
  }

  function MarkedFailed(health: Health): Health {
    Health(health.lastSuccess, 0, false, false, 0, 0, 0, health.errors + 1)
  }

  function ErrorsCounted(setup: Setup, series: SeriesMap, failures: seq<Failure>): SeriesMap {
    if failures == [] then series
    else
      var f := failures[|failures| - 1];
      Plus(ErrorsCounted(setup, series, failures[..|failures| - 1]),
           Series(CollectionErrors(f.reason), setup.LabelsOf(f.info)), 1.0)
  }

  function SuccessSet(setup: Setup, series: SeriesMap, supported: seq<GpuInfo>, failed: set<string>): SeriesMap {
    if supported == [] then series
    else
      var info := supported[|supported| - 1];
      SuccessSet(setup, series, supported[..|supported| - 1], failed)
      [Series(CollectSuccess, setup.LabelsOf(info)) := BoolReal(StableIdentifier(info) !in failed)]
  }

  function PublishStatus(setup: Setup, st: State, batch: SampleBatch): State {
    st.(series := SuccessSet(setup, ErrorsCounted(setup, st.series, batch.failures), batch.supported,
                             FailedIdentifiers(batch.failures)))
  }

  /** collect after a batch was read: reconcile first, then health and status, then the samples. */
  function Begin(setup: Setup, st: State, now: Time, batch: SampleBatch): State {
    var reconciled := Reconcile(setup, st, batch.supported);
    PublishStatus(setup, reconciled.(health := Marked(st.health, now, batch)), batch)
  }

  function Collect(setup: Setup, st: State, now: Time, batch: SampleBatch): State {
    CollectSamples(setup, Begin(setup, st, now, batch), batch.samples)
  }

  predicate Ready(setup: Setup, health: Health, now: Time) {
    health.lastGpuCount > 0 && health.lastSuccess != ZERO_TIME && now - health.lastSuccess <= setup.maxAge
  }

  // ----- Publishing a window ---------------------------------------------------------------

  /** The two gauges of one aggregate of one GPU: set from the snapshot, or deleted when it has nothing. */
  function PublishOne(series: SeriesMap, labels: Labels, id: string, snapshot: Windows, a: Aggregate): SeriesMap {
    var key := WindowKey(id, a);
    if key !in snapshot || snapshot[key].count == 0
    then series - {Series(WindowMax(a), labels), Series(WindowAvg(a), labels)}
    else series[Series(WindowMax(a), labels) := snapshot[key].max][Series(WindowAvg(a), labels) := snapshot[key].Avg()]
  }

  /** The gauges of one GPU for a set of aggregates; their order does not matter. */
  function PublishGpu(series: SeriesMap, labels: Labels, id: string, snapshot: Windows,
                      aggregates: set<Aggregate>): SeriesMap {
    map s | s in series.Keys + (set a | a in aggregates :: Series(WindowMax(a), labels))
        + (set a | a in aggregates :: Series(WindowAvg(a), labels)) &&
            PublishedValue(series, labels, id, snapshot, aggregates, s).Some?
        :: PublishedValue(series, labels, id, snapshot, aggregates, s).value
  }

  function PublishedValue(series: SeriesMap, labels: Labels, id: string, snapshot: Windows, aggregates: set<Aggregate>,
                          s: Series): Option<real> {
    if s.labels == labels && (s.metric.WindowMax? || s.metric.WindowAvg?) && s.metric.aggregate in aggregates then
      var key := WindowKey(id, s.metric.aggregate);
      if key !in snapshot || snapshot[key].count == 0 then None
      else Some(if s.metric.WindowMax? then snapshot[key].max else snapshot[key].Avg())
    else Lookup(series, s)
  }

  /** The keys of WindowMetrics. */
  function AllAggregates(): set<Aggregate> {
    {Utilization, MemoryCopyUtil, MemoryUsedPercent, PowerDraw, Temperature,
     ProfGraphics, ProfSm, ProfSmOccupancy, ProfDram, ProfTensor, ProfFp64, ProfFp32, ProfFp16, ProfInt,
     ProfTensorHmma, ProfTensorImma, ProfTensorDfma, PcieTransmit, PcieReceive, NvlinkTransmit, NvlinkReceive}
  }

  /** PublishWindow, going through the active GPUs in the order the map happens to give them. */
  function PublishGpus(setup: Setup, series: SeriesMap, order: seq<GpuInfo>, snapshot: Windows): SeriesMap {
    if order == [] then series
    else
      var info := order[|order| - 1];
      PublishGpu(PublishGpus(setup, series, order[..|order| - 1], snapshot), setup.LabelsOf(info),
                 StableIdentifier(info), snapshot, AllAggregates())
  }

  function Publish(setup: Setup, st: State, order: seq<GpuInfo>): State {
    st.(series := PublishGpus(setup, st.series, order, st.windows), windows := map[])
  }
}
