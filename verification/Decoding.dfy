/**
 From one raw DCGM value to a number, or to nothing (applyFieldValue and its converters,
 dcgm_client.go). Blank and not-a-number bit patterns are a missing payload here.
 */
module Decoding {
  import opened FieldSets
  import opened Identity
  import opened Aggregation

  datatype Payload =
    | Int64(int64: Option<int>)
    | Double(double: Option<real>)
    | OtherType

  datatype RawValue = RawValue(entityId: nat, fieldId: FieldId, statusOk: bool, ts: int, payload: Payload)

  /** The converter a field goes through. */
  datatype Kind =
    | IntPercent | NumberPercent | PowerDrawWatts | PowerLimitWatts | NonNegativeNumber | MilliJoules
    | IntTemperature | AnyInt | NumberTemperature | Mebibytes | RatioToPercent | BitMask | Megahertz
    | KibPerSecond | Nanoseconds | Ratio01

  /** None for a field the sample has no slot for. */
  function KindOf(f: FieldId): Option<Kind> {
    if f in {GPU_UTIL, MEM_COPY_UTIL} then Some(IntPercent)
    else if f in {ENC_UTIL, DEC_UTIL, FAN_SPEED} then Some(NumberPercent)
    else if f == POWER_USAGE then Some(PowerDrawWatts)
    else if f == POWER_MGMT_LIMIT then Some(PowerLimitWatts)
    else if f == TOTAL_ENERGY then Some(MilliJoules)
    else if f == GPU_TEMP then Some(IntTemperature)
    else if f == GPU_MAX_OP_TEMP then Some(AnyInt)
    else if f in {MEMORY_TEMP, MEM_MAX_OP_TEMP} then Some(NumberTemperature)
    else if f in {FB_FREE, FB_USED, FB_TOTAL, FB_RESERVED, BAR1_FREE, BAR1_USED, BAR1_TOTAL} then Some(Mebibytes)
    else if f == FB_USED_PERCENT then Some(RatioToPercent)
    else if f == CLOCK_THROTTLE_REASONS then Some(BitMask)
    else if f in {SM_CLOCK, MEM_CLOCK} then Some(Megahertz)
    else if IsLegacyPcie(f) then Some(KibPerSecond)
    else if POWER_VIOLATION <= f <= BASE_CLOCKS_VIOLATION then Some(Nanoseconds)
    else if f in PlainNumbers() then Some(NonNegativeNumber)
    else if f in ProfFields() then Some(Ratio01)
    else None
  }

  /** Fields that are kept as they are when they are not negative. */
  function PlainNumbers(): set<FieldId> {
    {POWER_USAGE_INSTANT, ENFORCED_POWER_LIMIT, PSTATE, PCIE_REPLAY_COUNTER,
     PCIE_LINK_GEN, PCIE_LINK_WIDTH, PCIE_MAX_LINK_GEN, PCIE_MAX_LINK_WIDTH, XID_ERRORS,
     ECC_SBE_VOL_TOTAL, ECC_DBE_VOL_TOTAL, ECC_SBE_AGG_TOTAL, ECC_DBE_AGG_TOTAL,
     RETIRED_SBE, RETIRED_DBE, RETIRED_PENDING, CORRECTABLE_REMAPPED_ROWS, UNCORRECTABLE_REMAPPED_ROWS,
     ROW_REMAP_FAILURE, ROW_REMAP_PENDING,
     PROF_PCIE_TX_BYTES, PROF_PCIE_RX_BYTES, PROF_NVLINK_TX_BYTES, PROF_NVLINK_RX_BYTES}
  }

  function Int64Field(raw: RawValue): Option<int> {
    if raw.statusOk && raw.payload.Int64? then raw.payload.int64 else None
  }

  function Float64Field(raw: RawValue): Option<real> {
    if raw.statusOk && raw.payload.Double? then raw.payload.double else None
  }

  function NumberField(raw: RawValue): Option<real> {
    if Int64Field(raw).Some? then Some(Int64Field(raw).value as real) else Float64Field(raw)
  }

  /** The value when it lies in low..high, nothing otherwise. */
  function Between(value: Option<real>, low: real, high: real): Option<real> {
    if value.Some? && low <= value.value <= high then value else None
  }

  function IntBetween(value: Option<int>, low: int, high: int): Option<real> {
    if value.Some? && low <= value.value <= high then Some(value.value as real) else None
  }

  function AtLeastZero(value: Option<real>): Option<real> {
    if value.Some? && value.value >= 0.0 then value else None
  }

  function Scaled(value: Option<real>, factor: real): Option<real> {
    if value.Some? then Some(value.value * factor) else None
  }

  function IntAsReal(value: Option<int>): Option<real> {
    if value.Some? then Some(value.value as real) else None
  }

  function Convert(kind: Kind, raw: RawValue): Option<real> {
    match kind
    case IntPercent => IntBetween(Int64Field(raw), 0, 100)
    case NumberPercent => Between(NumberField(raw), 0.0, 100.0)
    case PowerDrawWatts => Between(Float64Field(raw), 0.0, 1000000.0)
    case PowerLimitWatts =>
      if Float64Field(raw).Some? then
        (if 0.0 < Float64Field(raw).value <= 1000000.0 then Float64Field(raw) else None)
      else if Int64Field(raw).Some? && Int64Field(raw).value < 1000000 then IntAsReal(Int64Field(raw))
      else None
    case NonNegativeNumber => AtLeastZero(NumberField(raw))
    case MilliJoules => Scaled(AtLeastZero(NumberField(raw)), 0.001)
    case IntTemperature => IntBetween(Int64Field(raw), 0, 150)
    case AnyInt => IntAsReal(Int64Field(raw))
    case NumberTemperature => Between(NumberField(raw), 0.0, 150.0)
    case Mebibytes => Scaled(AtLeastZero(IntAsReal(Int64Field(raw))), 1048576.0)
    case RatioToPercent => Scaled(Between(Float64Field(raw), 0.0, 1.0), 100.0)
    case BitMask => AtLeastZero(IntAsReal(Int64Field(raw)))
    case Megahertz => Scaled(AtLeastZero(NumberField(raw)), 1000000.0)
    case KibPerSecond => Scaled(AtLeastZero(NumberField(raw)), 1024.0)
    case Nanoseconds => Scaled(AtLeastZero(NumberField(raw)), 0.000000001)
    case Ratio01 => Between(Float64Field(raw), 0.0, 1.0)
  }

  /** What applyFieldValue returns for a raw value: its number, or nothing. */
  function Decode(raw: RawValue): Option<real> {
    if raw.statusOk && KindOf(raw.fieldId).Some? then Convert(KindOf(raw.fieldId).value, raw) else None
  }

  /** The range every decoded value of a field lies in. */
  predicate InRange(f: FieldId, value: real) {
    match KindOf(f)
    case None => false
    case Some(kind) =>
      match kind
      case IntPercent | NumberPercent | RatioToPercent => 0.0 <= value <= 100.0
      case Ratio01 => 0.0 <= value <= 1.0
      case PowerDrawWatts => 0.0 <= value <= 1000000.0
      case IntTemperature | NumberTemperature => 0.0 <= value <= 150.0
      case PowerLimitWatts => value <= 1000000.0
      case AnyInt => true
      case _ => value >= 0.0
  }

  /** Nothing out of range comes out of a converter; for the power limit that is an upper bound only. */
  lemma DecodedInRange(raw: RawValue)
    requires Decode(raw).Some?
    ensures InRange(raw.fieldId, Decode(raw).value)
  {
  }

  /** A decoded power limit is positive and at most a megawatt exactly when it is not an integer below one. */
  lemma PowerLimitInRangeExactly(raw: RawValue)
    requires raw.fieldId == POWER_MGMT_LIMIT && Decode(raw).Some?
    ensures 0.0 < Decode(raw).value <= 1000000.0 <==> !(raw.payload.Int64? && raw.payload.int64.value <= 0)
  {
  }

  /** An integer power limit is not checked from below: a negative one is published. */
  lemma NegativePowerLimitIsDecoded()
    ensures Decode(RawValue(0, POWER_MGMT_LIMIT, true, 0, Int64(Some(-1)))) == Some(-1.0)
  {
  }

  // ----- What a raw value says -------------------------------------------------------------

  predicate IsMemory(f: FieldId) {
    f == FB_FREE || f == FB_USED || f == FB_TOTAL || f == FB_RESERVED || f == BAR1_FREE || f == BAR1_USED
    || f == BAR1_TOTAL
  }

  predicate IsViolation(f: FieldId) {
    || f == POWER_VIOLATION || f == THERMAL_VIOLATION || f == SYNC_BOOST_VIOLATION || f == BOARD_LIMIT_VIOLATION
    || f == LOW_UTIL_VIOLATION || f == RELIABILITY_VIOLATION || f == APP_CLOCKS_VIOLATION || f == BASE_CLOCKS_VIOLATION
  }

  /** The profiling fields that are shares of time or of capacity. */
  predicate IsRatio(f: FieldId) {
    || f == PROF_GR_ENGINE_ACTIVE || f == PROF_SM_ACTIVE || f == PROF_SM_OCCUPANCY || f == PROF_DRAM_ACTIVE
    || f == PROF_PIPE_TENSOR_ACTIVE || f == PROF_PIPE_FP64_ACTIVE || f == PROF_PIPE_FP32_ACTIVE
    || f == PROF_PIPE_FP16_ACTIVE || f == PROF_PIPE_INT_ACTIVE || f == PROF_PIPE_TENSOR_HMMA_ACTIVE
    || f == PROF_PIPE_TENSOR_IMMA_ACTIVE || f == PROF_PIPE_TENSOR_DFMA_ACTIVE
  }

  predicate IsPercentage(f: FieldId) {
    f == GPU_UTIL || f == MEM_COPY_UTIL || f == ENC_UTIL || f == DEC_UTIL || f == FAN_SPEED
  }

  predicate IsTemperature(f: FieldId) { f == GPU_TEMP || f == MEMORY_TEMP || f == MEM_MAX_OP_TEMP }

  predicate IsClock(f: FieldId) { f == SM_CLOCK || f == MEM_CLOCK }

  predicate IsPcieRate(f: FieldId) { f == PCIE_TX_THROUGHPUT || f == PCIE_RX_THROUGHPUT }

  /** Reported as whole numbers; anything else is not a value of theirs. */
  predicate IsWhole(f: FieldId) {
    || f == GPU_UTIL || f == MEM_COPY_UTIL || f == GPU_TEMP || f == GPU_MAX_OP_TEMP || f == CLOCK_THROTTLE_REASONS
    || IsMemory(f)
  }

  /** Reported as fractions. */
  predicate IsFraction(f: FieldId) { IsRatio(f) || f == POWER_USAGE || f == FB_USED_PERCENT }

  /** The other fields the sample has a slot for; they are any numbers that are not negative. */
  predicate IsCountOrRate(f: FieldId) {
    || f == POWER_USAGE_INSTANT || f == ENFORCED_POWER_LIMIT || f == TOTAL_ENERGY || f == PSTATE
    || f == PCIE_REPLAY_COUNTER || f == PCIE_LINK_GEN || f == PCIE_LINK_WIDTH || f == PCIE_MAX_LINK_GEN
    || f == PCIE_MAX_LINK_WIDTH || f == XID_ERRORS || f == ECC_SBE_VOL_TOTAL || f == ECC_DBE_VOL_TOTAL
    || f == ECC_SBE_AGG_TOTAL || f == ECC_DBE_AGG_TOTAL || f == RETIRED_SBE || f == RETIRED_DBE
    || f == RETIRED_PENDING || f == CORRECTABLE_REMAPPED_ROWS || f == UNCORRECTABLE_REMAPPED_ROWS
    || f == ROW_REMAP_FAILURE || f == ROW_REMAP_PENDING || f == PROF_PCIE_TX_BYTES || f == PROF_PCIE_RX_BYTES
    || f == PROF_NVLINK_TX_BYTES || f == PROF_NVLINK_RX_BYTES
    || IsClock(f) || IsPcieRate(f) || IsViolation(f)
  }

  predicate HasSlot(f: FieldId) {
    IsWhole(f) || IsFraction(f) || IsPercentage(f) || IsTemperature(f) || IsCountOrRate(f) || f == POWER_MGMT_LIMIT
  }

  /** The number a payload holds, whatever its type. */
  function NumberIn(payload: Payload): Option<real> {
    match payload
    case Int64(n) => if n.Some? then Some(n.value as real) else None
    case Double(x) => x
    case OtherType => None
  }

  /** The types a field accepts. */
  predicate AcceptsType(f: FieldId, payload: Payload) {
    (IsWhole(f) ==> payload.Int64?) && (IsFraction(f) ==> payload.Double?)
  }

  /** The numbers a field accepts, in the unit DCGM reports them in. */
  predicate AcceptsNumber(f: FieldId, number: real) {
    if IsPercentage(f) then 0.0 <= number <= 100.0
    else if IsTemperature(f) then 0.0 <= number <= 150.0
    else if IsRatio(f) || f == FB_USED_PERCENT then 0.0 <= number <= 1.0
    else if f == POWER_USAGE then 0.0 <= number <= 1000000.0
    else f == GPU_MAX_OP_TEMP || number >= 0.0
  }

  /** A power limit in watts is positive and at most a megawatt; a whole one is below a megawatt. */
  predicate AcceptsLimit(payload: Payload) {
    match payload
    case Int64(n) => n.Some? && n.value < 1000000
    case Double(x) => x.Some? && 0.0 < x.value <= 1000000.0
    case OtherType => false
  }

  predicate Accepts(f: FieldId, payload: Payload) {
    if f == POWER_MGMT_LIMIT then AcceptsLimit(payload)
    else AcceptsType(f, payload) && NumberIn(payload).Some? && AcceptsNumber(f, NumberIn(payload).value)
  }

  /** What one of DCGM's units of a field is in the exported unit. */
  function UnitOf(f: FieldId): real {
    if f == TOTAL_ENERGY then 1.0 / 1000.0
    else if IsMemory(f) then 1024.0 * 1024.0
    else if IsPcieRate(f) then 1024.0
    else if IsClock(f) then 1000.0 * 1000.0
    else if IsViolation(f) then 1.0 / 1000000000.0
    else if f == FB_USED_PERCENT then 100.0
    else 1.0
  }

  lemma KindsOfWhole(f: FieldId)
    requires IsWhole(f)
    ensures KindOf(f) == if f == GPU_UTIL || f == MEM_COPY_UTIL then Some(IntPercent)
                         else if f == GPU_TEMP then Some(IntTemperature)
                         else if f == GPU_MAX_OP_TEMP then Some(AnyInt)
                         else if f == CLOCK_THROTTLE_REASONS then Some(BitMask)
                         else Some(Mebibytes)
  {
  }

  lemma KindsOfProfiling(f: FieldId)
    requires f >= 1001
    ensures IsRatio(f) ==> KindOf(f) == Some(Ratio01)
    ensures KindOf(f).Some? <==> IsRatio(f) || IsCountOrRate(f)
    ensures IsCountOrRate(f) ==> KindOf(f) == Some(NonNegativeNumber)
  {
    if KindOf(f).Some? {
      assert f in PlainNumbers() || f in ProfFields();
    }
    if IsRatio(f) {
      RatiosAreProfiling(f);
    }
  }

  lemma RatiosAreProfiling(f: FieldId)
    requires IsRatio(f)
    ensures f in ProfFields()
  {
    var p := ProfFields();
    assert p[0] == PROF_GR_ENGINE_ACTIVE && p[1] == PROF_SM_ACTIVE && p[2] == PROF_SM_OCCUPANCY;
    assert p[3] == PROF_DRAM_ACTIVE && p[4] == PROF_PIPE_TENSOR_ACTIVE && p[9] == PROF_PIPE_FP64_ACTIVE;
    assert p[10] == PROF_PIPE_FP32_ACTIVE && p[11] == PROF_PIPE_FP16_ACTIVE && p[12] == PROF_PIPE_INT_ACTIVE;
    assert p[13] == PROF_PIPE_TENSOR_HMMA_ACTIVE && p[14] == PROF_PIPE_TENSOR_IMMA_ACTIVE;
    assert p[15] == PROF_PIPE_TENSOR_DFMA_ACTIVE;
  }

  lemma KindsOfOthers(f: FieldId)
    requires f < 1001 && !IsWhole(f)
    ensures KindOf(f).Some? <==> HasSlot(f)
    ensures IsPercentage(f) ==> KindOf(f) == Some(NumberPercent)
    ensures IsTemperature(f) ==> KindOf(f) == Some(NumberTemperature)
    ensures f == POWER_USAGE ==> KindOf(f) == Some(PowerDrawWatts)
    ensures f == FB_USED_PERCENT ==> KindOf(f) == Some(RatioToPercent)
    ensures f == POWER_MGMT_LIMIT ==> KindOf(f) == Some(PowerLimitWatts)
    ensures IsCountOrRate(f) ==>
              KindOf(f) == if f == TOTAL_ENERGY then Some(MilliJoules)
                           else if IsClock(f) then Some(Megahertz)
                           else if IsPcieRate(f) then Some(KibPerSecond)
                           else if IsViolation(f) then Some(Nanoseconds)
                           else Some(NonNegativeNumber)
  {
    if f in ProfFields() {
      IdsTellLists(f);
    }
  }

  lemma KindIffSlot(f: FieldId)
    ensures KindOf(f).Some? <==> HasSlot(f)
  {
    if IsWhole(f) {
      KindsOfWhole(f);
    } else if f >= 1001 {
      KindsOfProfiling(f);
    } else {
      KindsOfOthers(f);
    }
  }

  /** What is left of the field when its kind is known. */
  ghost predicate ReadAs(raw: RawValue, decoded: Option<real>) {
    && (decoded.Some? <==> raw.statusOk && HasSlot(raw.fieldId) && Accepts(raw.fieldId, raw.payload))
    && (decoded.Some? ==> decoded.value == NumberIn(raw.payload).value * UnitOf(raw.fieldId))
  }

  lemma DecodedByKind(raw: RawValue)
    ensures Decode(raw) == if raw.statusOk && KindOf(raw.fieldId).Some? then Convert(KindOf(raw.fieldId).value, raw)
                           else None
  {
  }

  lemma WholeRead(raw: RawValue, kind: Kind)
    requires IsWhole(raw.fieldId) && raw.statusOk
    requires kind == if raw.fieldId == GPU_UTIL || raw.fieldId == MEM_COPY_UTIL then IntPercent
                     else if raw.fieldId == GPU_TEMP then IntTemperature
                     else if raw.fieldId == GPU_MAX_OP_TEMP then AnyInt
                     else if raw.fieldId == CLOCK_THROTTLE_REASONS then BitMask
                     else Mebibytes
    ensures ReadAs(raw, Convert(kind, raw))
  {
  }

  lemma ProfilingRead(raw: RawValue, kind: Kind)
    requires raw.fieldId >= 1001 && raw.statusOk && (IsRatio(raw.fieldId) || IsCountOrRate(raw.fieldId))
    requires kind == if IsRatio(raw.fieldId) then Ratio01 else NonNegativeNumber
    ensures ReadAs(raw, Convert(kind, raw))
  {
  }

  lemma OtherRead(raw: RawValue, kind: Kind)
    requires raw.fieldId < 1001 && !IsWhole(raw.fieldId) && raw.statusOk && HasSlot(raw.fieldId)
    requires kind == if IsPercentage(raw.fieldId) then NumberPercent
                     else if IsTemperature(raw.fieldId) then NumberTemperature
                     else if raw.fieldId == POWER_USAGE then PowerDrawWatts
                     else if raw.fieldId == FB_USED_PERCENT then RatioToPercent
                     else if raw.fieldId == POWER_MGMT_LIMIT then PowerLimitWatts
                     else if raw.fieldId == TOTAL_ENERGY then MilliJoules
                     else if IsClock(raw.fieldId) then Megahertz
                     else if IsPcieRate(raw.fieldId) then KibPerSecond
                     else if IsViolation(raw.fieldId) then Nanoseconds
                     else NonNegativeNumber
    ensures ReadAs(raw, Convert(kind, raw))
  {
  }

  /**
   A value decodes exactly when its status is OK, the sample has a slot for its field, and its payload
   is of a type and in the bounds the field accepts. It decodes to the number reported, in the
   exported unit.
   */
  lemma DecodedExactly(raw: RawValue)
    ensures Decode(raw).Some? <==> raw.statusOk && HasSlot(raw.fieldId) && Accepts(raw.fieldId, raw.payload)
    ensures Decode(raw).Some? ==> Decode(raw).value == NumberIn(raw.payload).value * UnitOf(raw.fieldId)
  {
    var f, kind := raw.fieldId, KindOf(raw.fieldId);
    DecodedByKind(raw);
    if IsWhole(f) {
      KindsOfWhole(f);
      if raw.statusOk { WholeRead(raw, kind.value); }
    } else if f >= 1001 {
      KindsOfProfiling(f);
      if raw.statusOk && kind.Some? { ProfilingRead(raw, kind.value); }
    } else {
      KindsOfOthers(f);
      if raw.statusOk && kind.Some? { OtherRead(raw, kind.value); }
    }
  }

  // ----- The client watches what it can decode ---------------------------------------------

  lemma ListedHaveSlots(f: FieldId)
    ensures f in FastRequiredFields() || f in FastOptionalFields() ==> HasSlot(f)
    ensures f in OperationalFields() || f in LegacyRateFields() ==> HasSlot(f)
    ensures f in ReliabilityFields() || f in ProfFields() ==> HasSlot(f)
  {
  }

  lemma OperationalListed(f: FieldId)
    requires IsMemory(f) || IsClock(f) || IsTemperature(f) || f == GPU_MAX_OP_TEMP || f == CLOCK_THROTTLE_REASONS
      || f == PSTATE || f == FAN_SPEED || f == TOTAL_ENERGY || f == POWER_USAGE_INSTANT || f == POWER_MGMT_LIMIT
      || f == ENFORCED_POWER_LIMIT || PCIE_MAX_LINK_GEN <= f <= PCIE_LINK_WIDTH
    ensures f in OperationalFields()
  {
    var s := OperationalFields();
    assert s[0] == SM_CLOCK && s[1] == MEM_CLOCK && s[2] == GPU_TEMP && s[3] == GPU_MAX_OP_TEMP;
    assert s[4] == MEMORY_TEMP && s[5] == MEM_MAX_OP_TEMP && s[6] == FB_FREE && s[7] == FB_USED;
    assert s[8] == FB_TOTAL && s[9] == FB_RESERVED && s[10] == PSTATE && s[11] == FAN_SPEED;
    assert s[12] == BAR1_FREE && s[13] == BAR1_USED && s[14] == BAR1_TOTAL && s[15] == TOTAL_ENERGY;
    assert s[16] == POWER_USAGE_INSTANT && s[17] == POWER_MGMT_LIMIT && s[18] == ENFORCED_POWER_LIMIT;
    assert s[19] == PCIE_LINK_GEN && s[20] == PCIE_LINK_WIDTH && s[21] == PCIE_MAX_LINK_GEN;
    assert s[22] == PCIE_MAX_LINK_WIDTH && s[23] == CLOCK_THROTTLE_REASONS;
  }

  lemma ReliabilityListed(f: FieldId)
    requires IsViolation(f) || f == PCIE_REPLAY_COUNTER || f == XID_ERRORS
      || ECC_SBE_VOL_TOTAL <= f <= ECC_DBE_AGG_TOTAL || RETIRED_SBE <= f <= ROW_REMAP_PENDING
    ensures f in ReliabilityFields()
  {
    var s := ReliabilityFields();
    assert s[0] == PCIE_REPLAY_COUNTER && s[1] == POWER_VIOLATION && s[2] == THERMAL_VIOLATION;
    assert s[3] == SYNC_BOOST_VIOLATION && s[4] == BOARD_LIMIT_VIOLATION && s[5] == LOW_UTIL_VIOLATION;
    assert s[6] == RELIABILITY_VIOLATION && s[7] == APP_CLOCKS_VIOLATION && s[8] == BASE_CLOCKS_VIOLATION;
    assert s[9] == XID_ERRORS && s[10] == ECC_SBE_VOL_TOTAL && s[11] == ECC_DBE_VOL_TOTAL;
    assert s[12] == ECC_SBE_AGG_TOTAL && s[13] == ECC_DBE_AGG_TOTAL && s[14] == RETIRED_SBE;
    assert s[15] == RETIRED_DBE && s[16] == RETIRED_PENDING && s[17] == CORRECTABLE_REMAPPED_ROWS;
    assert s[18] == UNCORRECTABLE_REMAPPED_ROWS && s[19] == ROW_REMAP_FAILURE && s[20] == ROW_REMAP_PENDING;
  }

  lemma FastOrRateListed(f: FieldId)
    requires f == GPU_UTIL || f == MEM_COPY_UTIL || f == POWER_USAGE || f == FB_USED_PERCENT || f == ENC_UTIL
      || f == DEC_UTIL || IsPcieRate(f)
    ensures f in FastRequiredFields() || f in FastOptionalFields() || f in LegacyRateFields()
  {
    var r, s, t := FastRequiredFields(), FastOptionalFields(), LegacyRateFields();
    assert r[0] == GPU_UTIL && s[0] == MEM_COPY_UTIL && s[1] == POWER_USAGE && s[2] == FB_USED_PERCENT;
    assert s[3] == ENC_UTIL && s[4] == DEC_UTIL && t[0] == PCIE_TX_THROUGHPUT && t[1] == PCIE_RX_THROUGHPUT;
  }

  lemma ProfilingListed(f: FieldId)
    requires f >= 1001 && HasSlot(f)
    ensures f in ProfFields()
  {
    var s := ProfFields();
    assert s[5] == PROF_PCIE_TX_BYTES && s[6] == PROF_PCIE_RX_BYTES;
    assert s[7] == PROF_NVLINK_TX_BYTES && s[8] == PROF_NVLINK_RX_BYTES;
    if IsRatio(f) { RatiosAreProfiling(f); }
  }

  predicate Listed(lists: FieldLists, f: FieldId) {
    || f in lists.fastRequired || f in lists.fastOptional || f in lists.operational || f in lists.legacyRates
    || f in lists.reliability || f in lists.prof
  }

  lemma MonitoredMeaning(lists: FieldLists, f: FieldId)
    ensures f in lists.Monitored() <==> Listed(lists, f)
  {
  }

  lemma EverySlotIsListed(f: FieldId)
    requires HasSlot(f)
    ensures Listed(StandardLists(), f)
  {
    if f >= 1001 {
      ProfilingListed(f);
    } else if IsViolation(f) || f == PCIE_REPLAY_COUNTER || f == XID_ERRORS || ECC_SBE_VOL_TOTAL <= f {
      ReliabilityListed(f);
    } else if f == GPU_UTIL || f == MEM_COPY_UTIL || f == POWER_USAGE || f == FB_USED_PERCENT || f == ENC_UTIL
           || f == DEC_UTIL || IsPcieRate(f) {
      FastOrRateListed(f);
    } else {
      OperationalListed(f);
    }
  }

  /** The client monitors exactly the fields a sample has a slot for. */
  lemma MonitoredAreDecodable(f: FieldId)
    ensures f in StandardLists().Monitored() <==> HasSlot(f)
  {
    MonitoredMeaning(StandardLists(), f);
    if HasSlot(f) {
      EverySlotIsListed(f);
    } else {
      ListedHaveSlots(f);
    }
  }

  // ----- Slots -----------------------------------------------------------------------------

  /** The slots of a sample: a field without an entry is a nil pointer. */
  type Slots = map<FieldId, real>

  /** applyFieldValue's effect on the sample: only a value with an OK status and a slot touches anything. */
  function Applied(slots: Slots, raw: RawValue): Slots {
    if !raw.statusOk || KindOf(raw.fieldId).None? then slots
    else
      match Decode(raw)
      case Some(v) => slots[raw.fieldId := v]
      case None => slots - {raw.fieldId}
  }
}
