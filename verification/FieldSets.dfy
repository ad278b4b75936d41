/**
 The DCGM fields the exporter asks for, and the list operations used when the
 watcher groups are put together (dcgm_client.go).
 */
module FieldSets {

  /**
   A DCGM field number (dcgm.Short). The proofs use that the named numbers differ, and that those of
   the profiling fields lie above all others.
   */
  type FieldId = nat

  const BAR1_TOTAL: FieldId := 92
  const BAR1_USED: FieldId := 93
  const BAR1_FREE: FieldId := 94
  const SM_CLOCK: FieldId := 100
  const MEM_CLOCK: FieldId := 101
  const CLOCK_THROTTLE_REASONS: FieldId := 112
  const MEMORY_TEMP: FieldId := 140
  const GPU_TEMP: FieldId := 150
  const MEM_MAX_OP_TEMP: FieldId := 151
  const GPU_MAX_OP_TEMP: FieldId := 152
  const POWER_USAGE: FieldId := 155
  const TOTAL_ENERGY: FieldId := 156
  const POWER_USAGE_INSTANT: FieldId := 157
  const POWER_MGMT_LIMIT: FieldId := 160
  const ENFORCED_POWER_LIMIT: FieldId := 164
  const PSTATE: FieldId := 190
  const FAN_SPEED: FieldId := 191
  const PCIE_TX_THROUGHPUT: FieldId := 200
  const PCIE_RX_THROUGHPUT: FieldId := 201
  const PCIE_REPLAY_COUNTER: FieldId := 202
  const GPU_UTIL: FieldId := 203
  const MEM_COPY_UTIL: FieldId := 204
  const ENC_UTIL: FieldId := 206
  const DEC_UTIL: FieldId := 207
  const XID_ERRORS: FieldId := 230
  const PCIE_MAX_LINK_GEN: FieldId := 235
  const PCIE_MAX_LINK_WIDTH: FieldId := 236
  const PCIE_LINK_GEN: FieldId := 237
  const PCIE_LINK_WIDTH: FieldId := 238
  const POWER_VIOLATION: FieldId := 240
  const THERMAL_VIOLATION: FieldId := 241
  const SYNC_BOOST_VIOLATION: FieldId := 242
  const BOARD_LIMIT_VIOLATION: FieldId := 243
  const LOW_UTIL_VIOLATION: FieldId := 244
  const RELIABILITY_VIOLATION: FieldId := 245
  const APP_CLOCKS_VIOLATION: FieldId := 246
  const BASE_CLOCKS_VIOLATION: FieldId := 247
  const FB_TOTAL: FieldId := 250
  const FB_FREE: FieldId := 251
  const FB_USED: FieldId := 252
  const FB_RESERVED: FieldId := 253
  const FB_USED_PERCENT: FieldId := 254
  const ECC_SBE_VOL_TOTAL: FieldId := 310
  const ECC_DBE_VOL_TOTAL: FieldId := 311
  const ECC_SBE_AGG_TOTAL: FieldId := 312
  const ECC_DBE_AGG_TOTAL: FieldId := 313
  const RETIRED_SBE: FieldId := 390
  const RETIRED_DBE: FieldId := 391
  const RETIRED_PENDING: FieldId := 392
  const UNCORRECTABLE_REMAPPED_ROWS: FieldId := 393
  const CORRECTABLE_REMAPPED_ROWS: FieldId := 394
  const ROW_REMAP_FAILURE: FieldId := 395
  const ROW_REMAP_PENDING: FieldId := 396
  const PROF_GR_ENGINE_ACTIVE: FieldId := 1001
  const PROF_SM_ACTIVE: FieldId := 1002
  const PROF_SM_OCCUPANCY: FieldId := 1003
  const PROF_PIPE_TENSOR_ACTIVE: FieldId := 1004
  const PROF_DRAM_ACTIVE: FieldId := 1005
  const PROF_PIPE_FP64_ACTIVE: FieldId := 1006
  const PROF_PIPE_FP32_ACTIVE: FieldId := 1007
  const PROF_PIPE_FP16_ACTIVE: FieldId := 1008
  const PROF_PCIE_TX_BYTES: FieldId := 1009
  const PROF_PCIE_RX_BYTES: FieldId := 1010
  const PROF_NVLINK_TX_BYTES: FieldId := 1011
  const PROF_NVLINK_RX_BYTES: FieldId := 1012
  const PROF_PIPE_TENSOR_IMMA_ACTIVE: FieldId := 1013
  const PROF_PIPE_TENSOR_HMMA_ACTIVE: FieldId := 1014
  const PROF_PIPE_TENSOR_DFMA_ACTIVE: FieldId := 1015
  const PROF_PIPE_INT_ACTIVE: FieldId := 1016

  function FastRequiredFields(): seq<FieldId> { [GPU_UTIL] }

  function FastOptionalFields(): seq<FieldId> {
    [MEM_COPY_UTIL, POWER_USAGE, FB_USED_PERCENT, ENC_UTIL, DEC_UTIL]
  }

  function OperationalFields(): seq<FieldId> {
    [SM_CLOCK, MEM_CLOCK, GPU_TEMP, GPU_MAX_OP_TEMP, MEMORY_TEMP, MEM_MAX_OP_TEMP,
     FB_FREE, FB_USED, FB_TOTAL, FB_RESERVED, PSTATE, FAN_SPEED, BAR1_FREE, BAR1_USED, BAR1_TOTAL,
     TOTAL_ENERGY, POWER_USAGE_INSTANT, POWER_MGMT_LIMIT, ENFORCED_POWER_LIMIT,
     PCIE_LINK_GEN, PCIE_LINK_WIDTH, PCIE_MAX_LINK_GEN, PCIE_MAX_LINK_WIDTH, CLOCK_THROTTLE_REASONS]
  }

  function LegacyRateFields(): seq<FieldId> { [PCIE_TX_THROUGHPUT, PCIE_RX_THROUGHPUT] }

  function ReliabilityFields(): seq<FieldId> {
    [PCIE_REPLAY_COUNTER,
     POWER_VIOLATION, THERMAL_VIOLATION, SYNC_BOOST_VIOLATION, BOARD_LIMIT_VIOLATION, LOW_UTIL_VIOLATION,
     RELIABILITY_VIOLATION, APP_CLOCKS_VIOLATION, BASE_CLOCKS_VIOLATION, XID_ERRORS,
     ECC_SBE_VOL_TOTAL, ECC_DBE_VOL_TOTAL, ECC_SBE_AGG_TOTAL, ECC_DBE_AGG_TOTAL,
     RETIRED_SBE, RETIRED_DBE, RETIRED_PENDING, CORRECTABLE_REMAPPED_ROWS, UNCORRECTABLE_REMAPPED_ROWS,
     ROW_REMAP_FAILURE, ROW_REMAP_PENDING]
  }

  function ProfFields(): seq<FieldId> {
    [PROF_GR_ENGINE_ACTIVE, PROF_SM_ACTIVE, PROF_SM_OCCUPANCY, PROF_DRAM_ACTIVE, PROF_PIPE_TENSOR_ACTIVE,
     PROF_PCIE_TX_BYTES, PROF_PCIE_RX_BYTES, PROF_NVLINK_TX_BYTES, PROF_NVLINK_RX_BYTES,
     PROF_PIPE_FP64_ACTIVE, PROF_PIPE_FP32_ACTIVE, PROF_PIPE_FP16_ACTIVE, PROF_PIPE_INT_ACTIVE,
     PROF_PIPE_TENSOR_HMMA_ACTIVE, PROF_PIPE_TENSOR_IMMA_ACTIVE, PROF_PIPE_TENSOR_DFMA_ACTIVE]
  }

  /** The lists the client negotiates over. */
  datatype FieldLists = FieldLists(
    fastRequired: seq<FieldId>,
    fastOptional: seq<FieldId>,
    operational: seq<FieldId>,
    legacyRates: seq<FieldId>,
    reliability: seq<FieldId>,
    prof: seq<FieldId>)
  {
    function Monitored(): set<FieldId> {
      Elements(fastRequired) + Elements(fastOptional) + Elements(operational) + Elements(legacyRates)
          + Elements(reliability) + Elements(prof)
    }
  }

  function StandardLists(): FieldLists {
    FieldLists(FastRequiredFields(), FastOptionalFields(), OperationalFields(), LegacyRateFields(),
               ReliabilityFields(), ProfFields())
  }

  /** A list is its last element behind the others. */
  lemma LastBehind<T>(s: seq<T>)
    requires s != []
    ensures s == s[..|s| - 1] + [s[|s| - 1]]
    ensures forall x :: x in s <==> x in s[..|s| - 1] || x == s[|s| - 1]
  {
    var init := s[..|s| - 1];
    assert s == init + [s[|s| - 1]];
  }

  lemma Associative<T>(a: seq<T>, b: seq<T>, c: seq<T>)
    ensures (a + b) + c == a + (b + c)
  {
  }

  ghost predicate Distinct<T>(s: seq<T>) {
    forall i, j :: 0 <= i < j < |s| ==> s[i] != s[j]
  }

  function Elements<T(==)>(s: seq<T>): set<T> { set x | x in s }

  /** `s` with elements left out, order kept. */
  ghost predicate IsSubsequence<T>(s: seq<T>, of: seq<T>) {
    s == [] || (of != [] && ((s[0] == of[0] && IsSubsequence(s[1..], of[1..])) || IsSubsequence(s, of[1..])))
  }

  lemma {:induction false} SubsequenceRefl<T>(s: seq<T>)
    ensures IsSubsequence(s, s)
  {
    if s == [] {
    } else {
      SubsequenceRefl(s[1..]);
    }
  }

  lemma {:induction false} SubsequenceConcat<T>(a: seq<T>, c: seq<T>, b: seq<T>, d: seq<T>)
    requires IsSubsequence(a, c) && IsSubsequence(b, d)
    ensures IsSubsequence(a + b, c + d)
    decreases |c|
  {
    if c == [] {
      assert a + b == b && c + d == d;
    } else {
      assert (c + d)[1..] == c[1..] + d;
      if a == [] {
        SubsequenceConcat(a, c[1..], b, d);
        assert a + b == b;
      } else if a[0] == c[0] && IsSubsequence(a[1..], c[1..]) {
        SubsequenceConcat(a[1..], c[1..], b, d);
        assert (a + b)[1..] == a[1..] + b;
      } else {
        SubsequenceConcat(a, c[1..], b, d);
      }
    }
  }

  /** What appendFields returns: `fields` followed by the new elements of `extra`, each once. */
  function Appended(fields: seq<FieldId>, extra: seq<FieldId>): seq<FieldId>
    decreases |extra|
  {
    if extra == [] then fields
    else Appended(if extra[0] in fields then fields else fields + [extra[0]], extra[1..])
  }

  /** appendFields: the list scan for each added field, then the append. */
  method AppendFields(fields: seq<FieldId>, extra: seq<FieldId>) returns (result: seq<FieldId>)
    ensures result == Appended(fields, extra)
  {
    result := fields;
    for i := 0 to |extra|
      invariant Appended(result, extra[i..]) == Appended(fields, extra)
    {
      var found := false;
      for j := 0 to |result|
        invariant found <==> extra[i] in result[..j]
      {
        if result[j] == extra[i] {
          found := true;
          break;
        }
      }
      assert extra[i..][1..] == extra[i + 1..];
      if !found {
        result := result + [extra[i]];
      }
    }
  }

  lemma {:induction false} AppendedBasics(fields: seq<FieldId>, extra: seq<FieldId>)
    ensures fields <= Appended(fields, extra)
    ensures Elements(Appended(fields, extra)) == Elements(fields) + Elements(extra)
    ensures Distinct(fields) ==> Distinct(Appended(fields, extra))
    decreases |extra|
  {
    if extra == [] {
    } else {
      var next := if extra[0] in fields then fields else fields + [extra[0]];
      AppendedBasics(next, extra[1..]);
      assert Elements(next) == Elements(fields) + {extra[0]};
      assert extra == [extra[0]] + extra[1..];
    }
  }

  lemma AppendedOne(fields: seq<FieldId>, f: FieldId)
    ensures Appended(fields, [f]) == if f in fields then fields else fields + [f]
  {
    assert [f][1..] == [];
  }

  /** Appending in two parts is appending the concatenation. */
  lemma {:induction false} AppendedInParts(fields: seq<FieldId>, a: seq<FieldId>, b: seq<FieldId>)
    ensures Appended(Appended(fields, a), b) == Appended(fields, a + b)
    decreases |a|
  {
    if a == [] {
      assert a + b == b;
    } else {
      assert (a + b)[1..] == a[1..] + b;
      AppendedInParts(if a[0] in fields then fields else fields + [a[0]], a[1..], b);
    }
  }

  /** One more list, without repetition. */
  method AppendList(fields: seq<FieldId>, extra: seq<FieldId>) returns (result: seq<FieldId>)
    requires Distinct(fields)
    ensures Distinct(result) && fields <= result && Elements(result) == Elements(fields) + Elements(extra)
  {
    result := AppendFields(fields, extra);
    AppendedBasics(fields, extra);
  }

  /** monitoredFields: every list once. */
  method MonitoredFields(lists: FieldLists) returns (fields: seq<FieldId>)
    ensures Distinct(fields) && Elements(fields) == lists.Monitored()
  {
    fields := AppendList([], lists.fastRequired);
    fields := AppendList(fields, lists.fastOptional);
    fields := AppendList(fields, lists.operational);
    fields := AppendList(fields, lists.legacyRates);
    fields := AppendList(fields, lists.reliability);
    fields := AppendList(fields, lists.prof);
  }

  /** The requested fields a profiling metric group offers, in the requested order. */
  function RequestedIn(requested: seq<FieldId>, group: seq<FieldId>): (fields: seq<FieldId>)
    ensures forall f :: f in fields <==> f in requested && f in group
    ensures IsSubsequence(fields, requested)
  {
    if requested == [] then []
    else
      var rest := RequestedIn(requested[1..], group);
      if requested[0] in group then
        assert ([requested[0]] + rest)[1..] == rest;
        [requested[0]] + rest
      else rest
  }

  lemma {:induction false} RequestedInSnoc(requested: seq<FieldId>, f: FieldId, group: seq<FieldId>)
    ensures RequestedIn(requested + [f], group) == RequestedIn(requested, group) + (if f in group then [f] else [])
  {
    if requested == [] {
      assert requested + [f] == [f];
    } else {
      assert (requested + [f])[1..] == requested[1..] + [f];
      RequestedInSnoc(requested[1..], f, group);
    }
  }

  method RequestedFieldsInGroup(requested: seq<FieldId>, group: seq<FieldId>) returns (fields: seq<FieldId>)
    ensures fields == RequestedIn(requested, group)
  {
    var supported: set<FieldId> := {};
    for i := 0 to |group|
      invariant supported == Elements(group[..i])
    {
      assert group[..i + 1] == group[..i] + [group[i]];
      supported := supported + {group[i]};
    }
    assert group[..|group|] == group;
    assert forall f :: f in supported <==> f in group;
    fields := [];
    for i := 0 to |requested|
      invariant fields == RequestedIn(requested[..i], group)
    {
      RequestedInSnoc(requested[..i], requested[i], group);
      assert requested[..i + 1] == requested[..i] + [requested[i]];
      if requested[i] in supported {
        fields := fields + [requested[i]];
      }
    }
    assert requested[..|requested|] == requested;
  }

  /** The requested fields of the first group that offers the most of them. */
  function BestOffer(requested: seq<FieldId>, groups: seq<seq<FieldId>>): seq<FieldId> {
    if groups == [] then []
    else
      var best, last := BestOffer(requested, groups[..|groups| - 1]), RequestedIn(requested, groups[|groups| - 1]);
      if |last| > |best| then last else best
  }

  /**
   selectBestProfilingFields: the requested fields of the first group that offers the most of
   them. No group offers more, every earlier group offers strictly fewer, and the result is empty
   exactly when no group offers any.
   */
  method SelectBestProfilingFields(requested: seq<FieldId>, groups: seq<seq<FieldId>>) returns (best: seq<FieldId>)
    ensures best == BestOffer(requested, groups)
    ensures forall i :: 0 <= i < |groups| ==> |RequestedIn(requested, groups[i])| <= |best|
    ensures best == [] ||
            exists i :: 0 <= i < |groups| && best == RequestedIn(requested, groups[i]) &&
                        forall j :: 0 <= j < i ==> |RequestedIn(requested, groups[j])| < |best|
  {
    best := [];
    for i := 0 to |groups|
      invariant best == BestOffer(requested, groups[..i])
      invariant forall j :: 0 <= j < i ==> |RequestedIn(requested, groups[j])| <= |best|
      invariant best == [] ||
                exists j :: 0 <= j < i && best == RequestedIn(requested, groups[j]) &&
                            forall k :: 0 <= k < j ==> |RequestedIn(requested, groups[k])| < |best|
    {
      assert groups[..i + 1][..i] == groups[..i];
      var fields := RequestedFieldsInGroup(requested, groups[i]);
      if |fields| > |best| {
        best := fields;
      }
    }
    assert groups[..|groups|] == groups;
  }

  // ----- The lists by field number ---------------------------------------------------------

  lemma ProfilingIds(f: FieldId)
    requires f in ProfFields()
    ensures f >= 1001
  {
  }

  lemma FastIds(f: FieldId)
    requires f in FastRequiredFields() || f in FastOptionalFields()
    ensures f == POWER_USAGE || GPU_UTIL <= f <= DEC_UTIL || f == FB_USED_PERCENT
  {
  }

  lemma OperationalIds(f: FieldId)
    requires f in OperationalFields()
    ensures f != POWER_USAGE && (f <= FAN_SPEED || PCIE_MAX_LINK_GEN <= f <= PCIE_LINK_WIDTH
        || FB_TOTAL <= f <= FB_RESERVED)
  {
  }

  lemma RateIds(f: FieldId)
    requires f in LegacyRateFields()
    ensures FAN_SPEED < f < PCIE_REPLAY_COUNTER
  {
  }

  lemma ReliabilityIds(f: FieldId)
    requires f in ReliabilityFields()
    ensures f == PCIE_REPLAY_COUNTER || f == XID_ERRORS || POWER_VIOLATION <= f <= BASE_CLOCKS_VIOLATION
        || 310 <= f < 1001
  {
  }

  /** The lists a field can be in, by its number. */
  lemma IdsTellLists(f: FieldId)
    ensures f in FastRequiredFields() || f in FastOptionalFields() ==>
              f == POWER_USAGE || GPU_UTIL <= f <= DEC_UTIL || f == FB_USED_PERCENT
    ensures f in ProfFields() ==> f >= 1001
    ensures f in LegacyRateFields() ==> FAN_SPEED < f < PCIE_REPLAY_COUNTER
    ensures f in OperationalFields() ==>
              f != POWER_USAGE && (f <= FAN_SPEED || PCIE_MAX_LINK_GEN <= f <= PCIE_LINK_WIDTH
                  || FB_TOTAL <= f <= FB_RESERVED)
    ensures f in ReliabilityFields() ==>
              f == PCIE_REPLAY_COUNTER || f == XID_ERRORS || POWER_VIOLATION <= f <= BASE_CLOCKS_VIOLATION
                  || 310 <= f < 1001
  {
    if f in FastRequiredFields() || f in FastOptionalFields() { FastIds(f); }
    if f in ProfFields() { ProfilingIds(f); }
    if f in LegacyRateFields() { RateIds(f); }
    if f in OperationalFields() { OperationalIds(f); }
    if f in ReliabilityFields() { ReliabilityIds(f); }
  }
}
