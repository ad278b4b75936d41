/**
 The metrics by name: which field each of them is about, stated without the tables the exporter goes
 by.
 */
module NamedMetrics {
  import opened FieldSets
  import opened Clock
  import opened Identity
  import opened Aggregation
  import opened Decoding
  import opened History
  import opened Sampling
  import opened Tracker
  import opened Integration
  import opened Exporter
  import opened Steps
  import opened Runs
  import opened Isolation
  import opened Histories
  import opened Guarantees
  import opened Publication
  import opened SampleSlots

  // ----- Hardware counters by name ---------------------------------------------------------

  /** Length and three characters; enough to tell the counter suffixes apart. */
  function Mark(s: string): (nat, char, char, char)
    requires |s| >= 3
  {
    (|s|, s[0], s[|s| - 3], s[|s| - 1])
  }

  function Marks(): seq<(nat, char, char, char)> {
    [(6, 'e', 'r', 'y'), (11, 'p', 'l', 'y'), (16, 'e', 's', 'e'), (16, 'e', 'd', 'e'),
     (17, 'e', 's', 'e'), (17, 'e', 'd', 'e'), (17, 'r', 's', 'e'), (17, 'r', 'd', 'e'),
     (25, 'r', 'b', 'e'), (27, 'r', 'b', 'e'), (21, 'c', 'w', 'r'), (23, 'c', 'm', 'l'),
     (26, 'c', 'o', 't'), (27, 'c', 'm', 't'), (31, 'c', 'i', 'n'), (27, 'c', 'i', 'y'),
     (34, 'c', 'c', 's'), (27, 'c', 'c', 's')]
  }

  lemma EventMark(i: nat)
    requires i < 6
    ensures |EventSuffixes()[i]| >= 3 && Mark(EventSuffixes()[i]) == Marks()[i]
  {
  }

  lemma PageMark(i: nat)
    requires i < 4
    ensures |PageSuffixes()[i]| >= 3 && Mark(PageSuffixes()[i]) == Marks()[6 + i]
  {
  }

  lemma ViolationMark(i: nat)
    requires i < 8
    ensures |ViolationSuffixes()[i]| >= 3 && Mark(ViolationSuffixes()[i]) == Marks()[10 + i]
  {
  }

  lemma MarksDiffer(i: nat, k: nat)
    requires i < k < |Marks()|
    ensures Marks()[i] != Marks()[k]
  {
  }

  lemma SuffixMark(i: nat)
    requires i < |CounterSuffixes()|
    ensures i < |Marks()| && |CounterSuffixes()[i]| >= 3 && Mark(CounterSuffixes()[i]) == Marks()[i]
  {
    if i < 6 {
      EventMark(i);
      assert CounterSuffixes()[i] == PlainSuffixes()[i] == EventSuffixes()[i];
    } else if i < 10 {
      PageMark(i - 6);
      assert CounterSuffixes()[i] == PlainSuffixes()[i] == PageSuffixes()[i - 6];
    } else {
      ViolationMark(i - 10);
      assert CounterSuffixes()[i] == ViolationSuffixes()[i - 10];
    }
  }

  lemma SuffixesDiffer(i: nat, k: nat)
    requires i < k < |CounterSuffixes()|
    ensures CounterSuffixes()[i] != CounterSuffixes()[k]
  {
    SuffixMark(i);
    SuffixMark(k);
    MarksDiffer(i, k);
  }

  lemma TableInOrder(i: nat)
    requires i < |CounterTable()|
    ensures CounterTable()[i].suffix == CounterSuffixes()[i]
  {
    if i < 6 {
      EventsInTable(i);
    } else if i < 10 {
      PagesInTable(i);
    } else {
      ViolationsInTable(i);
    }
  }

  /** The counter of this suffix takes its raw values from the slot of this field. */
  ghost predicate Totals(suffix: string, f: FieldId) {
    forall slots :: RawIn(slots, CounterTable(), suffix) == ValueIn(slots, f)
  }

  lemma {:induction false} OnlyOneReads(slots: Slots, table: seq<CounterSpec>, k: nat, suffix: string)
    requires forall i :: 0 <= i < |table| && i != k ==> table[i].suffix != suffix
    requires k < |table| ==> table[k].suffix == suffix
    ensures RawIn(slots, table, suffix) == if k < |table| then ValueIn(slots, table[k].field) else []
  {
    if table == [] {
    } else {
      OnlyOneReads(slots, table[..|table| - 1], k, suffix);
    }
  }

  lemma TotalsAt(k: nat)
    requires k < |CounterTable()|
    ensures Totals(CounterTable()[k].suffix, CounterTable()[k].field)
  {
    var table := CounterTable();
    var suffix := table[k].suffix;
    forall i | 0 <= i < |table| && i != k ensures table[i].suffix != suffix {
      TableInOrder(i);
      TableInOrder(k);
      if i < k { SuffixesDiffer(i, k); } else { SuffixesDiffer(k, i); }
    }
    forall slots ensures RawIn(slots, table, suffix) == ValueIn(slots, table[k].field) {
      OnlyOneReads(slots, table, k, suffix);
    }
  }

  lemma EventTotals()
    ensures Totals("energy", TOTAL_ENERGY) && Totals("pcie_replay", PCIE_REPLAY_COUNTER)
    ensures Totals("ecc:volatile:sbe", ECC_SBE_VOL_TOTAL) && Totals("ecc:volatile:dbe", ECC_DBE_VOL_TOTAL)
    ensures Totals("ecc:aggregate:sbe", ECC_SBE_AGG_TOTAL) && Totals("ecc:aggregate:dbe", ECC_DBE_AGG_TOTAL)
  {
    TotalsAt(0);
    TotalsAt(1);
    TotalsAt(2);
    TotalsAt(3);
    TotalsAt(4);
    TotalsAt(5);
  }

  lemma PageTotals()
    ensures Totals("retired_pages:sbe", RETIRED_SBE) && Totals("retired_pages:dbe", RETIRED_DBE)
    ensures Totals("remapped_rows:correctable", CORRECTABLE_REMAPPED_ROWS)
    ensures Totals("remapped_rows:uncorrectable", UNCORRECTABLE_REMAPPED_ROWS)
  {
    TotalsAt(6);
    TotalsAt(7);
    TotalsAt(8);
    TotalsAt(9);
  }

  lemma ViolationTotals()
    ensures Totals("clock_violation:power", POWER_VIOLATION) && Totals("clock_violation:thermal", THERMAL_VIOLATION)
    ensures Totals("clock_violation:sync_boost", SYNC_BOOST_VIOLATION)
    ensures Totals("clock_violation:board_limit", BOARD_LIMIT_VIOLATION)
    ensures Totals("clock_violation:low_utilization", LOW_UTIL_VIOLATION)
    ensures Totals("clock_violation:reliability", RELIABILITY_VIOLATION)
    ensures Totals("clock_violation:application_clocks", APP_CLOCKS_VIOLATION)
    ensures Totals("clock_violation:base_clocks", BASE_CLOCKS_VIOLATION)
  {
    TotalsAt(10);
    TotalsAt(11);
    TotalsAt(12);
    TotalsAt(13);
    TotalsAt(14);
    TotalsAt(15);
    TotalsAt(16);
    TotalsAt(17);
  }

  // ----- Gauges by name --------------------------------------------------------------------

  /** The fields that feed hardware counters. */
  predicate IsTotalled(f: FieldId) {
    || f == TOTAL_ENERGY || f == PCIE_REPLAY_COUNTER || f == ECC_SBE_VOL_TOTAL || f == ECC_DBE_VOL_TOTAL
    || f == ECC_SBE_AGG_TOTAL || f == ECC_DBE_AGG_TOTAL || f == RETIRED_SBE || f == RETIRED_DBE
    || f == CORRECTABLE_REMAPPED_ROWS || f == UNCORRECTABLE_REMAPPED_ROWS || IsViolation(f)
  }

  lemma MemoryOrActivityShown(f: FieldId)
    requires IsMemory(f) || (IsPercentage(f) && f != FAN_SPEED) || f == GPU_TEMP || f == MEMORY_TEMP || f == POWER_USAGE
      || f == POWER_USAGE_INSTANT || f == FB_USED_PERCENT
    ensures f in GaugeFields()
  {
    var s := GaugeFields();
    assert s[0] == FB_FREE && s[1] == FB_USED && s[2] == FB_TOTAL && s[3] == FB_RESERVED && s[4] == BAR1_FREE;
    assert s[5] == BAR1_USED && s[6] == BAR1_TOTAL && s[7] == GPU_UTIL && s[8] == GPU_TEMP && s[9] == MEMORY_TEMP;
    assert s[10] == POWER_USAGE && s[11] == POWER_USAGE_INSTANT && s[12] == MEM_COPY_UTIL && s[13] == ENC_UTIL;
    assert s[14] == DEC_UTIL && s[15] == FB_USED_PERCENT;
  }

  lemma LimitOrStateShown(f: FieldId)
    requires f == POWER_MGMT_LIMIT || f == ENFORCED_POWER_LIMIT || IsClock(f) || f == PSTATE || f == FAN_SPEED
      || PCIE_MAX_LINK_GEN <= f <= PCIE_LINK_WIDTH || f == XID_ERRORS || f == RETIRED_PENDING
      || f == ROW_REMAP_FAILURE || f == ROW_REMAP_PENDING || f == GPU_MAX_OP_TEMP || f == MEM_MAX_OP_TEMP
      || f == CLOCK_THROTTLE_REASONS
    ensures f in GaugeFields()
  {
    var s := GaugeFields();
    assert s[16] == POWER_MGMT_LIMIT && s[17] == ENFORCED_POWER_LIMIT && s[18] == SM_CLOCK && s[19] == MEM_CLOCK;
    assert s[20] == PSTATE && s[21] == FAN_SPEED && s[22] == PCIE_LINK_GEN && s[23] == PCIE_LINK_WIDTH;
    assert s[24] == PCIE_MAX_LINK_GEN && s[25] == PCIE_MAX_LINK_WIDTH && s[26] == XID_ERRORS;
    assert s[27] == RETIRED_PENDING && s[28] == ROW_REMAP_FAILURE && s[29] == ROW_REMAP_PENDING;
    assert s[30] == GPU_MAX_OP_TEMP && s[31] == MEM_MAX_OP_TEMP && s[32] == CLOCK_THROTTLE_REASONS;
  }

  lemma ProfilingShown(f: FieldId)
    requires f in ProfFields()
    ensures f in GaugeFields()
  {
  }

  /** Every slot has a gauge, but for those that feed hardware counters and the legacy PCIe rates. */
  lemma EverySlotIsShown(f: FieldId)
    requires HasSlot(f) && !IsTotalled(f) && !IsPcieRate(f)
    ensures f in GaugeFields()
  {
    if f >= 1001 {
      ProfilingListed(f);
      ProfilingShown(f);
    } else if IsMemory(f) || (IsPercentage(f) && f != FAN_SPEED) || f == GPU_TEMP || f == MEMORY_TEMP
           || f == POWER_USAGE || f == POWER_USAGE_INSTANT || f == FB_USED_PERCENT {
      MemoryOrActivityShown(f);
    } else {
      LimitOrStateShown(f);
    }
  }

  function FirstOf(a: Option<real>, b: Option<real>): Option<real> { if a.Some? then a else b }

  /** The gauge of a field after a sample, from its gauge before. */
  ghost predicate GaugeMoves(setup: Setup, st: State, sample: GpuSample, f: FieldId, shown: Option<real>) {
    var s := Series(Current(f), setup.LabelsOf(sample.info));
    Lookup(CollectSample(setup, st, sample).series, s) == FirstOf(shown, Lookup(st.series, s))
  }

  /** A gauge shows the slot of its field, or goes on showing what it did. */
  lemma GaugeOfField(setup: Setup, st: State, sample: GpuSample, f: FieldId)
    requires setup.gauges == GaugeFields() && HasSlot(f) && !IsTotalled(f) && !IsPcieRate(f)
    requires f != PROF_PCIE_TX_BYTES && f != PROF_PCIE_RX_BYTES
    ensures GaugeMoves(setup, st, sample, f, Slot(sample.slots, f))
  {
    EverySlotIsShown(f);
    GaugesShowTheSlots(setup, st, sample, f);
  }

  lemma PcieGauge(setup: Setup, st: State, sample: GpuSample, f: FieldId)
    requires setup.gauges == GaugeFields() && (f == PROF_PCIE_TX_BYTES || f == PROF_PCIE_RX_BYTES)
    ensures GaugeMoves(setup, st, sample, f, GaugeValue(sample.slots, f))
  {
    EverySlotIsShown(f);
    GaugesShowTheSlots(setup, st, sample, f);
  }

  /** The PCIe gauges show the profiling rate, without one the legacy rate of the same direction. */
  lemma PcieGauges(setup: Setup, st: State, sample: GpuSample)
    requires setup.gauges == GaugeFields()
    ensures GaugeMoves(setup, st, sample, PROF_PCIE_TX_BYTES,
                       FirstOf(Slot(sample.slots, PROF_PCIE_TX_BYTES), Slot(sample.slots, PCIE_TX_THROUGHPUT)))
    ensures GaugeMoves(setup, st, sample, PROF_PCIE_RX_BYTES,
                       FirstOf(Slot(sample.slots, PROF_PCIE_RX_BYTES), Slot(sample.slots, PCIE_RX_THROUGHPUT)))
  {
    PcieGauge(setup, st, sample, PROF_PCIE_TX_BYTES);
    PcieGauge(setup, st, sample, PROF_PCIE_RX_BYTES);
    PcieFallback(sample.slots);
  }

  lemma PcieFallback(slots: Slots)
    ensures GaugeValue(slots, PROF_PCIE_TX_BYTES)
         == FirstOf(Slot(slots, PROF_PCIE_TX_BYTES), Slot(slots, PCIE_TX_THROUGHPUT))
    ensures GaugeValue(slots, PROF_PCIE_RX_BYTES)
         == FirstOf(Slot(slots, PROF_PCIE_RX_BYTES), Slot(slots, PCIE_RX_THROUGHPUT))
  {
  }

  // ----- Field status by name --------------------------------------------------------------

  lemma StatusIsSetFirst(setup: Setup, st: State, sample: GpuSample, s: Series)
    requires FieldStatusMetric(s.metric)
    ensures Lookup(CollectSample(setup, st, sample).series, s) == Lookup(WithStatus(setup, st, sample).series, s)
  {
    var observed := WithObservations(setup, st, sample);
    ObservationsTouch(setup, WithStatus(setup, st, sample), sample.info, sample.fields, sample.observations, s);
    ObserveSampleParts(setup, st, sample);
    GaugesTouch(observed.series, setup.LabelsOf(sample.info), sample.slots, setup.gauges, s);
    AfterTheGauges(setup, st, sample, s);
  }

  lemma StatusIsShown(series: SeriesMap, labels: Labels, fields: FieldStates, f: FieldId)
    requires f in fields
    ensures var after, status := series + StatusSeries(labels, fields), fields[f];
            && Lookup(after, Series(FieldSupported(f), labels)) == Some(if status.supported then 1.0 else 0.0)
            && Lookup(after, Series(FieldAvailable(f), labels)) == Some(if status.available then 1.0 else 0.0)
            && Lookup(after, Series(FieldLastSuccess(f), labels))
                == if status.lastSuccess == ZERO_TIME then Lookup(series, Series(FieldLastSuccess(f), labels))
                   else Some(UnixSeconds(status.lastSuccess) as real)
  {
    StatusAt(series, labels, fields, Series(FieldSupported(f), labels));
    StatusAt(series, labels, fields, Series(FieldAvailable(f), labels));
    StatusAt(series, labels, fields, Series(FieldLastSuccess(f), labels));
  }

  lemma StatusAt(series: SeriesMap, labels: Labels, fields: FieldStates, s: Series)
    ensures Lookup(series + StatusSeries(labels, fields), s)
        == FirstOf(StatusValue(labels, fields, s), Lookup(series, s))
  {
  }

  /**
   After a sample the status series of every field say whether it is supported and available, and the
   Unix second of its last success, once it had one.
   */
  lemma StatusAsSampled(setup: Setup, st: State, sample: GpuSample, f: FieldId, ts: int)
    requires f in sample.fields
    ensures var labels, status := setup.LabelsOf(sample.info), sample.fields[f];
            var after := CollectSample(setup, st, sample).series;
            && Lookup(after, Series(FieldSupported(f), labels)) == Some(if status.supported then 1.0 else 0.0)
            && Lookup(after, Series(FieldAvailable(f), labels)) == Some(if status.available then 1.0 else 0.0)
            && (status.lastSuccess == ZERO_TIME ==>
                  Lookup(after, Series(FieldLastSuccess(f), labels))
                  == Lookup(st.series, Series(FieldLastSuccess(f), labels)))
            && (status.lastSuccess == UnixMicro(ts) != ZERO_TIME ==>
                  Lookup(after, Series(FieldLastSuccess(f), labels)) == Some((ts / 1_000_000) as real))
  {
    var labels := setup.LabelsOf(sample.info);
    StatusIsSetFirst(setup, st, sample, Series(FieldSupported(f), labels));
    StatusIsSetFirst(setup, st, sample, Series(FieldAvailable(f), labels));
    StatusIsSetFirst(setup, st, sample, Series(FieldLastSuccess(f), labels));
    StatusIsShown(st.series, labels, sample.fields, f);
    MicrosecondsAreKept(ts, ts);
  }

  // ----- Integrals by name -----------------------------------------------------------------

  predicate FromPcie(a: Aggregate) { a.PcieTransmit? || a.PcieReceive? }

  /** The field an aggregate is about; the PCIe rates have two. */
  function FieldOf(a: Aggregate): FieldId
    requires !FromPcie(a)
  {
    match a
    case Utilization => GPU_UTIL
    case MemoryCopyUtil => MEM_COPY_UTIL
    case MemoryUsedPercent => FB_USED_PERCENT
    case PowerDraw => POWER_USAGE
    case Temperature => GPU_TEMP
    case ProfGraphics => PROF_GR_ENGINE_ACTIVE
    case ProfSm => PROF_SM_ACTIVE
    case ProfSmOccupancy => PROF_SM_OCCUPANCY
    case ProfDram => PROF_DRAM_ACTIVE
    case ProfTensor => PROF_PIPE_TENSOR_ACTIVE
    case ProfFp64 => PROF_PIPE_FP64_ACTIVE
    case ProfFp32 => PROF_PIPE_FP32_ACTIVE
    case ProfFp16 => PROF_PIPE_FP16_ACTIVE
    case ProfInt => PROF_PIPE_INT_ACTIVE
    case ProfTensorHmma => PROF_PIPE_TENSOR_HMMA_ACTIVE
    case ProfTensorImma => PROF_PIPE_TENSOR_IMMA_ACTIVE
    case ProfTensorDfma => PROF_PIPE_TENSOR_DFMA_ACTIVE
    case NvlinkTransmit => PROF_NVLINK_TX_BYTES
    case NvlinkReceive => PROF_NVLINK_RX_BYTES
  }

  /** An observation feeds an aggregate: of its field, or of the PCIe rates the one that counts. */
  predicate Feeds(fields: FieldStates, f: FieldId, a: Aggregate) {
    match a
    case PcieTransmit => f == PROF_PCIE_TX_BYTES
                         || (f == PCIE_TX_THROUGHPUT && !StatusOf(fields, PROF_PCIE_TX_BYTES).available)
    case PcieReceive => f == PROF_PCIE_RX_BYTES
                        || (f == PCIE_RX_THROUGHPUT && !StatusOf(fields, PROF_PCIE_RX_BYTES).available)
    case _ => f == FieldOf(a)
  }

  lemma FedExactly(fields: FieldStates, f: FieldId, a: Aggregate)
    ensures !Skipped(fields, f) && AggregationForField(f) == Some(a) <==> Feeds(fields, f, a)
  {
  }

  /** Aggregates whose seconds are counted: utilization and the profiling shares. */
  predicate IsTimed(a: Aggregate) {
    !FromPcie(a) && (a.Utilization? || IsRatio(FieldOf(a)))
  }

  /** A value of the aggregate that means all of the time. */
  function FullScale(a: Aggregate): real { if a.Utilization? then 100.0 else 1.0 }

  /** The counter is the integral of a weight over the counted time of a field. */
  ghost predicate IsIntegralOf(setup: Setup, ops: seq<Op>, id: string, m: Metric, f: FieldId, weight: real -> real)
    requires id in Run(setup, ops).active
  {
    CounterValue(setup, ops, id, m) == Integral(Events(setup, ops, id, f), weight, setup.maxGap(f))
  }

  lemma ByItsWeight(setup: Setup, ops: seq<Op>, ids: set<string>, id: string, m: Metric, f: FieldId,
                    weight: real -> real)
    requires Reached(setup, ops, ids, id) && WeightOf(setup, f, m) == Some(weight)
    ensures IsIntegralOf(setup, ops, id, m, f, weight)
  {
    ReadingIsIntegral(setup, ops, ids, id, f, m);
  }

  lemma TimedByField(a: Aggregate)
    requires IsTimed(a)
    ensures AggregationForField(FieldOf(a)) == Some(a) && IsIntegral(a)
  {
    FedExactly(map[], FieldOf(a), a);
  }

  lemma TimedWeights(setup: Setup, a: Aggregate)
    requires IsTimed(a)
    ensures WeightOf(setup, FieldOf(a), ObservedSeconds(a)) == Some(ONE)
    ensures WeightOf(setup, FieldOf(a), WeightedSeconds(a)) == Some(FractionOf(a))
  {
    TimedByField(a);
  }

  /** The values that contribute are within what the aggregate can be. */
  ghost predicate WithinScale(events: seq<Event>, a: Aggregate, maxGap: Duration) {
    ContributesBetween(events, VALUE, 0.0, FullScale(a), maxGap)
  }

  lemma FractionOfScale(a: Aggregate, value: real)
    requires 0.0 <= value <= FullScale(a)
    ensures FullScale(a) * Fraction(a, value) == value
  {
    FractionsMeasure(value);
  }

  lemma {:induction false} FractionIntegral(events: seq<Event>, a: Aggregate, maxGap: Duration)
    requires WithinScale(events, a, maxGap)
    ensures FullScale(a) * Integral(events, FractionOf(a), maxGap) == Integral(events, VALUE, maxGap)
  {
    if events == [] {
    } else {
      var n := |events| - 1;
      ContributesBefore(events, VALUE, 0.0, FullScale(a), maxGap);
      FractionIntegral(events[..n], a, maxGap);
      FractionTerm(events, n, a, maxGap);
    }
  }

  lemma FractionTerm(events: seq<Event>, n: nat, a: Aggregate, maxGap: Duration)
    requires n < |events| && WithinScale(events, a, maxGap)
    ensures FullScale(a) * Term(events, n, FractionOf(a), maxGap) == Term(events, n, VALUE, maxGap)
  {
    if Contributes(events, n, maxGap) {
      var value, seconds := events[n].value, Seconds(Gap(events, n, maxGap));
      assert 0.0 <= VALUE(value) <= FullScale(a);
      FractionOfScale(a, value);
      assert FullScale(a) * (Fraction(a, value) * seconds) == (FullScale(a) * Fraction(a, value)) * seconds;
    }
  }

  /** The counters of an aggregate, by its field: the time observed, and the time its fractions weigh. */
  lemma TimedCounters(setup: Setup, ops: seq<Op>, ids: set<string>, id: string, a: Aggregate)
    requires Reached(setup, ops, ids, id) && IsTimed(a)
    ensures var events, gap := Events(setup, ops, id, FieldOf(a)), setup.maxGap(FieldOf(a));
            && CounterValue(setup, ops, id, ObservedSeconds(a)) == Integral(events, ONE, gap)
            && CounterValue(setup, ops, id, WeightedSeconds(a)) == Integral(events, FractionOf(a), gap)
  {
    TimedWeights(setup, a);
    ByItsWeight(setup, ops, ids, id, ObservedSeconds(a), FieldOf(a), ONE);
    ByItsWeight(setup, ops, ids, id, WeightedSeconds(a), FieldOf(a), FractionOf(a));
  }

  /**
   Weighted seconds measure the values themselves: times full scale they are the integral of the
   values over the counted time, as long as those that contribute are within the scale.
   */
  lemma WeightedMeasuresValues(setup: Setup, ops: seq<Op>, ids: set<string>, id: string, a: Aggregate)
    requires Reached(setup, ops, ids, id) && IsTimed(a)
    requires WithinScale(Events(setup, ops, id, FieldOf(a)), a, setup.maxGap(FieldOf(a)))
    ensures FullScale(a) * CounterValue(setup, ops, id, WeightedSeconds(a))
         == Integral(Events(setup, ops, id, FieldOf(a)), VALUE, setup.maxGap(FieldOf(a)))
  {
    TimedCounters(setup, ops, ids, id, a);
    FractionIntegral(Events(setup, ops, id, FieldOf(a)), a, setup.maxGap(FieldOf(a)));
  }

  /** So with contributing values between two bounds they lie between the bounds times the observed time. */
  lemma WeightedBetweenValues(setup: Setup, ops: seq<Op>, ids: set<string>, id: string, a: Aggregate, low: real,
                              high: real)
    requires Reached(setup, ops, ids, id) && IsTimed(a) && 0.0 <= low <= high <= FullScale(a)
    requires ContributesBetween(Events(setup, ops, id, FieldOf(a)), VALUE, low, high, setup.maxGap(FieldOf(a)))
    ensures Bounded(low, FullScale(a) * CounterValue(setup, ops, id, WeightedSeconds(a)), high,
                    CounterValue(setup, ops, id, ObservedSeconds(a)))
  {
    var events, gap := Events(setup, ops, id, FieldOf(a)), setup.maxGap(FieldOf(a));
    TimedCounters(setup, ops, ids, id, a);
    WeightedMeasuresValues(setup, ops, ids, id, a);
    IntegralBetween(events, VALUE, low, high, gap);
  }

  lemma LinkWeight(setup: Setup, a: Aggregate)
    requires a.NvlinkTransmit? || a.NvlinkReceive?
    ensures WeightOf(setup, FieldOf(a), RateTotal(a)) == Some(VALUE)
  {
    FedExactly(map[], FieldOf(a), a);
  }

  /** Active seconds count the time observed above the threshold. */
  lemma ActiveByUtilization(setup: Setup, ops: seq<Op>, ids: set<string>, id: string)
    requires Reached(setup, ops, ids, id)
    ensures IsIntegralOf(setup, ops, id, ActiveSeconds, GPU_UTIL, ActiveAbove(setup.activeThreshold))
  {
    ByItsWeight(setup, ops, ids, id, ActiveSeconds, GPU_UTIL, ActiveAbove(setup.activeThreshold));
  }

  lemma EnergyByPower(setup: Setup, ops: seq<Op>, ids: set<string>, id: string)
    requires Reached(setup, ops, ids, id)
    ensures IsIntegralOf(setup, ops, id, EnergyEstimated, POWER_USAGE, VALUE)
  {
    ByItsWeight(setup, ops, ids, id, EnergyEstimated, POWER_USAGE, VALUE);
  }

  lemma LinkTotalByRate(setup: Setup, ops: seq<Op>, ids: set<string>, id: string, a: Aggregate)
    requires Reached(setup, ops, ids, id) && (a.NvlinkTransmit? || a.NvlinkReceive?)
    ensures IsIntegralOf(setup, ops, id, RateTotal(a), FieldOf(a), VALUE)
  {
    LinkWeight(setup, a);
    ByItsWeight(setup, ops, ids, id, RateTotal(a), FieldOf(a), VALUE);
  }

  // ----- The triangle in per cent ----------------------------------------------------------

  ghost predicate PercentTriangle(threshold: real, active: real, weighted: real, observed: real) {
    && 0.0 <= active <= observed
    && threshold * active <= 100.0 * weighted <= 100.0 * active + threshold * (observed - active)
  }

  lemma InPercent(f: real, threshold: real, active: real, weighted: real, observed: real)
    requires Triangle(f, active, weighted, observed) && 100.0 * f == threshold
    ensures PercentTriangle(threshold, active, weighted, observed)
  {
    assert threshold * active == 100.0 * (f * active);
    assert threshold * (observed - active) == 100.0 * (f * (observed - active));
  }

  /**
   In every reachable state, with a threshold between 0 and 100 per cent: of the observed seconds the
   active ones weigh at least the threshold, and the others at most.
   */
  lemma TriangleInPercent(setup: Setup, ops: seq<Op>, labels: Labels)
    requires 0.0 <= setup.activeThreshold <= 100.0
    ensures var series := Run(setup, ops).series;
            PercentTriangle(setup.activeThreshold,
                            Get(series, Series(ActiveSeconds, labels)),
                            Get(series, Series(WeightedSeconds(Utilization), labels)),
                            Get(series, Series(ObservedSeconds(Utilization), labels)))
  {
    TriangleInEveryRun(setup, ops, labels);
    FractionsMeasure(setup.activeThreshold);
    var series := Run(setup, ops).series;
    InPercent(PercentFraction(setup.activeThreshold), setup.activeThreshold,
              Get(series, Series(ActiveSeconds, labels)),
              Get(series, Series(WeightedSeconds(Utilization), labels)),
              Get(series, Series(ObservedSeconds(Utilization), labels)));
  }

  // ----- Windows by name -------------------------------------------------------------------

  /** The values of the observations that feed an aggregate. */
  function FedBy(fields: FieldStates, observations: seq<Observation>, a: Aggregate): seq<real> {
    if observations == [] then []
    else
      var n := |observations| - 1;
      FedBy(fields, observations[..n], a)
      + if Feeds(fields, observations[n].fieldId, a) then [observations[n].value] else []
  }

  function FedBySamples(samples: seq<GpuSample>, id: string, a: Aggregate): seq<real> {
    if samples == [] then []
    else
      var n := |samples| - 1;
      FedBySamples(samples[..n], id, a)
      + if StableIdentifier(samples[n].info) == id then FedBy(samples[n].fields, samples[n].observations, a) else []
  }

  /** The values of an aggregate of a GPU since the last publication, from the samples themselves. */
  function OpenValues(ops: seq<Op>, id: string, a: Aggregate): seq<real> {
    if ops == [] then []
    else
      match ops[|ops| - 1]
      case CollectBatch(_, batch) => OpenValues(ops[..|ops| - 1], id, a) + FedBySamples(batch.samples, id, a)
      case CollectError => OpenValues(ops[..|ops| - 1], id, a)
      case PublishWindows(_) => []
  }

  lemma EntryIsFed(id: string, fields: FieldStates, o: Observation, key: WindowKey)
    ensures ValuesFor(WindowEntry(id, fields, o), key)
         == if key.gpuIndex == id && Feeds(fields, o.fieldId, key.metric) then [o.value] else []
  {
    FedExactly(fields, o.fieldId, key.metric);
    var entry := WindowEntry(id, fields, o);
    assert entry != [] ==> entry[..0] == [];
  }

  lemma {:induction false} EntriesAreFed(id: string, fields: FieldStates, observations: seq<Observation>,
                                         key: WindowKey)
    ensures ValuesFor(WindowEntries(id, fields, observations), key)
         == if key.gpuIndex == id then FedBy(fields, observations, key.metric) else []
  {
    if observations == [] {
    } else {
      var n := |observations| - 1;
      EntriesAreFed(id, fields, observations[..n], key);
      EntryIsFed(id, fields, observations[n], key);
      ValuesInParts(WindowEntries(id, fields, observations[..n]), WindowEntry(id, fields, observations[n]), key);
    }
  }

  lemma {:induction false} SamplesAreFed(samples: seq<GpuSample>, key: WindowKey)
    ensures ValuesFor(EntriesOf(samples), key) == FedBySamples(samples, key.gpuIndex, key.metric)
  {
    if samples == [] {
    } else {
      var n := |samples| - 1;
      SamplesAreFed(samples[..n], key);
      EntriesAreFed(StableIdentifier(samples[n].info), samples[n].fields, samples[n].observations, key);
      ValuesInParts(EntriesOf(samples[..n]), SampleEntries(samples[n]), key);
    }
  }

  lemma {:induction false} OpenWindowIsFed(ops: seq<Op>, key: WindowKey)
    ensures ValuesFor(OpenWindow(ops), key) == OpenValues(ops, key.gpuIndex, key.metric)
  {
    if ops == [] {
    } else {
      var n := |ops| - 1;
      OpenWindowIsFed(ops[..n], key);
      if ops[n].CollectBatch? {
        SamplesAreFed(ops[n].batch.samples, key);
        ValuesInParts(OpenWindow(ops[..n]), EntriesOf(ops[n].batch.samples), key);
      }
    }
  }

  /**
   A publication shows of an aggregate of an active GPU the maximum and the mean of the observed values
   of its field since the publication before; of a PCIe rate those of the profiling field, and of the
   legacy field while there was none.
   */
  lemma PublicationShowsFields(setup: Setup, ops: seq<Op>, ids: set<string>, id: string, m: Metric)
    requires ops != [] && ops[|ops| - 1].PublishWindows? && WellFormedRun(setup, ops, ids) && WindowMetric(m)
    requires id in Run(setup, ops).active
    ensures var st := Run(setup, ops);
            ShowsWindow(Lookup(st.series, Series(m, setup.LabelsOf(st.active[id]))), m,
                        OpenValues(ops[..|ops| - 1], id, m.aggregate))
  {
    PublicationShowsTheOpenWindow(setup, ops, ids, id, m);
    OpenWindowIsFed(ops[..|ops| - 1], WindowKey(id, m.aggregate));
  }
}
