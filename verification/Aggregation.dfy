/** Which fields feed the windows and the integrals, and how (exporter.go, metrics.go). */
module Aggregation {
  import opened FieldSets
  import opened Identity

  datatype Aggregate =
    | Utilization | MemoryCopyUtil | MemoryUsedPercent | PowerDraw | Temperature
    | ProfGraphics | ProfSm | ProfSmOccupancy | ProfDram | ProfTensor | ProfFp64 | ProfFp32 | ProfFp16 | ProfInt
    | ProfTensorHmma | ProfTensorImma | ProfTensorDfma
    | PcieTransmit | PcieReceive | NvlinkTransmit | NvlinkReceive

  function AggregationForField(field: FieldId): Option<Aggregate> {
    if field == GPU_UTIL then Some(Utilization)
    else if field == MEM_COPY_UTIL then Some(MemoryCopyUtil)
    else if field == FB_USED_PERCENT then Some(MemoryUsedPercent)
    else if field == POWER_USAGE then Some(PowerDraw)
    else if field == GPU_TEMP then Some(Temperature)
    else if field == PROF_GR_ENGINE_ACTIVE then Some(ProfGraphics)
    else if field == PROF_SM_ACTIVE then Some(ProfSm)
    else if field == PROF_SM_OCCUPANCY then Some(ProfSmOccupancy)
    else if field == PROF_DRAM_ACTIVE then Some(ProfDram)
    else if field == PROF_PIPE_TENSOR_ACTIVE then Some(ProfTensor)
    else if field == PROF_PIPE_FP64_ACTIVE then Some(ProfFp64)
    else if field == PROF_PIPE_FP32_ACTIVE then Some(ProfFp32)
    else if field == PROF_PIPE_FP16_ACTIVE then Some(ProfFp16)
    else if field == PROF_PIPE_INT_ACTIVE then Some(ProfInt)
    else if field == PROF_PIPE_TENSOR_HMMA_ACTIVE then Some(ProfTensorHmma)
    else if field == PROF_PIPE_TENSOR_IMMA_ACTIVE then Some(ProfTensorImma)
    else if field == PROF_PIPE_TENSOR_DFMA_ACTIVE then Some(ProfTensorDfma)
    else if field == PCIE_TX_THROUGHPUT || field == PROF_PCIE_TX_BYTES then Some(PcieTransmit)
    else if field == PCIE_RX_THROUGHPUT || field == PROF_PCIE_RX_BYTES then Some(PcieReceive)
    else if field == PROF_NVLINK_TX_BYTES then Some(NvlinkTransmit)
    else if field == PROF_NVLINK_RX_BYTES then Some(NvlinkReceive)
    else None
  }

  /** The keys of RateTotals. */
  predicate IsRate(a: Aggregate) { a.PcieTransmit? || a.PcieReceive? || a.NvlinkTransmit? || a.NvlinkReceive? }

  predicate IsProfRatio(a: Aggregate) {
    || a.ProfGraphics? || a.ProfSm? || a.ProfSmOccupancy? || a.ProfDram? || a.ProfTensor? || a.ProfFp64? || a.ProfFp32?
    || a.ProfFp16? || a.ProfInt? || a.ProfTensorHmma? || a.ProfTensorImma? || a.ProfTensorDfma?
  }

  /** The keys of Integrals; only utilization is a percentage there. */
  predicate IsIntegral(a: Aggregate) { a.Utilization? || IsProfRatio(a) }

  function PercentFraction(value: real): (f: real)
    ensures 0.0 <= f <= 1.0
  {
    if value <= 0.0 then 0.0 else if value >= 100.0 then 1.0 else value / 100.0
  }

  function RatioFraction(value: real): (f: real)
    ensures 0.0 <= f <= 1.0
  {
    if value < 0.0 || value > 1.0 then 0.0 else value
  }

  function Fraction(a: Aggregate, value: real): (f: real)
    ensures 0.0 <= f <= 1.0
  {
    if a.Utilization? then PercentFraction(value) else RatioFraction(value)
  }

  lemma PercentFractionMonotone(low: real, high: real)
    requires low <= high
    ensures PercentFraction(low) <= PercentFraction(high)
  {
  }

  /** A percentage is a hundred times its fraction, a ratio is its fraction; outside their ranges they are cut off. */
  lemma FractionsMeasure(value: real)
    ensures 0.0 <= value <= 100.0 ==> 100.0 * PercentFraction(value) == value
    ensures value < 0.0 ==> PercentFraction(value) == 0.0
    ensures value > 100.0 ==> PercentFraction(value) == 1.0
    ensures 0.0 <= value <= 1.0 ==> RatioFraction(value) == value
    ensures value < 0.0 || value > 1.0 ==> RatioFraction(value) == 0.0
  {
  }

  /** Every integral is fed by one field only, so its counters have one clock. */
  lemma IntegralsHaveOneField(f: FieldId, g: FieldId)
    requires AggregationForField(f).Some? && AggregationForField(f) == AggregationForField(g)
    requires IsIntegral(AggregationForField(f).value) || AggregationForField(f).value.PowerDraw?
    ensures f == g
  {
  }

  predicate IsLegacyPcie(field: FieldId) { field == PCIE_TX_THROUGHPUT || field == PCIE_RX_THROUGHPUT }

  /** The profiling field that replaces a legacy PCIe field. */
  function DcpPcieField(legacy: FieldId): FieldId {
    if legacy == PCIE_RX_THROUGHPUT then PROF_PCIE_RX_BYTES else PROF_PCIE_TX_BYTES
  }
}
