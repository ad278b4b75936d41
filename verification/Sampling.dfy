/**
 What one collection of the client comes to, without its objects: which groups a new watcher gets,
 what the polls of a watcher add to a sample, and what becomes of the whole batch (dcgm_client.go).
 */
module Sampling {
  import opened FieldSets
  import opened Identity
  import opened Clock
  import opened Decoding
  import opened History
  import Negotiation

  const DEFAULT_SCRAPE_INTERVAL: Duration := 100 * MILLISECOND
  const DEFAULT_PROFILING_INTERVAL: Duration := 500 * MILLISECOND
  const DEFAULT_OPERATIONAL_INTERVAL: Duration := SECOND
  const DEFAULT_RELIABILITY_INTERVAL: Duration := 10 * SECOND

  /** How an attempt to watch a field list goes: through, or up to the library call that fails. */
  datatype Verdict = Accepted | NoFieldGroup | NoGroup | NotAdded | NotWatched

  // ----- Batches ---------------------------------------------------------------------------

  datatype GpuSample = GpuSample(info: GpuInfo, slots: Slots, fields: FieldStates, observations: seq<Observation>)

  datatype Failure = Failure(info: GpuInfo, reason: string)

  datatype SampleBatch = SampleBatch(samples: seq<GpuSample>, supported: seq<GpuInfo>, failures: seq<Failure>)

  function SampledInfos(samples: seq<GpuSample>): seq<GpuInfo> {
    if samples == [] then [] else SampledInfos(samples[..|samples| - 1]) + [samples[|samples| - 1].info]
  }

  function FailedInfos(failures: seq<Failure>): seq<GpuInfo> {
    if failures == [] then [] else FailedInfos(failures[..|failures| - 1]) + [failures[|failures| - 1].info]
  }

  /** GetDeviceInfo's answer, with the NVML index when that field could be read. */
  datatype DeviceReply = DeviceReply(
    model: string, brand: string, uuid: string, busId: string, fbTotalMib: nat, power: nat, nvmlIndex: Option<int>)

  /**
   What the host says during one collection: the listed GPUs, and for the GPU at each position of
   the list its identity, its profiling metric groups and the replies to its group polls.
   */
  datatype Host = Host(
    devices: Option<seq<nat>>,
    device: nat -> Option<DeviceReply>,
    metricGroups: nat -> Option<seq<seq<FieldId>>>,
    history: (nat, nat) -> PollReply)

  /** gpuInfo. */
  function InfoFrom(gpuId: nat, reply: DeviceReply): GpuInfo {
    GpuInfo(
      gpuId,
      if reply.nvmlIndex.Some? then SignedDecimal(reply.nvmlIndex.value) else Decimal(gpuId),
      if !Blank(reply.model) then ValidString(reply.model) else FirstNonEmpty(reply.brand, "unknown"),
      FirstNonEmpty(reply.uuid, "unknown"),
      FirstNonEmpty(reply.busId, "unknown"),
      reply.fbTotalMib as real * 1048576.0,
      if reply.power > 0 then Some(reply.power as real) else None)
  }

  /** The identity that is exported, by what the device reports. */
  lemma IdentityAsReported(gpuId: nat, reply: DeviceReply)
    ensures var info, index := InfoFrom(gpuId, reply),
                if reply.nvmlIndex.Some? then SignedDecimal(reply.nvmlIndex.value) else Decimal(gpuId);
            && info.id == gpuId && info.index == index
            && StableIdentifier(info) == (if Known(reply.uuid) then ValidString(reply.uuid)
                                          else if Known(reply.busId) then ValidString(reply.busId) else index)
            && info.memoryTotalBytes == reply.fbTotalMib as real * (1024.0 * 1024.0)
            && info.powerLimitWatts == (if reply.power > 0 then Some(reply.power as real) else None)
    ensures IsClean(InfoFrom(gpuId, reply))
    ensures forall hostname ::
              var labels := LabelsFor(InfoFrom(gpuId, reply), hostname);
              && labels.gpuUuid == (if Blank(reply.uuid) then "unknown" else ValidString(reply.uuid))
              && labels.pciBusId == (if Blank(reply.busId) then "unknown" else ValidString(reply.busId))
              && labels.gpuName == (if !Blank(reply.model) then ValidString(reply.model)
                                    else if !Blank(reply.brand) then ValidString(reply.brand) else "unknown")
  {
    var info := InfoFrom(gpuId, reply);
    UnknownIsValid();
    ValidStaysValid(reply.uuid);
    ValidStaysValid(reply.busId);
    ValidStaysValid(reply.model);
    ValidStaysValid(reply.brand);
    NumbersAreNotBlank(gpuId);
    if reply.nvmlIndex.Some? { NumbersAreNotBlank(reply.nvmlIndex.value); }
    NumberIsValid(if reply.nvmlIndex.Some? then reply.nvmlIndex.value else gpuId);
    IdentifierByPrecedence(info);
  }

  lemma NumberIsValid(n: int)
    ensures ValidString(SignedDecimal(n)) == SignedDecimal(n)
  {
    var s := SignedDecimal(n);
    assert !IsSpace(s[0]) && !IsSpace(s[|s| - 1]) && s[0] != '<';
  }

  /** The identity of a GPU that could not be queried. */
  function UnknownInfo(gpuId: nat): GpuInfo {
    GpuInfo(gpuId, Decimal(gpuId), "unknown", "unknown", "unknown", 0.0, None)
  }

  lemma UnknownInfoIsClean(gpuId: nat)
    ensures IsClean(UnknownInfo(gpuId)) && UnknownInfo(gpuId).index == Decimal(gpuId)
  {
    UnknownIsValid();
    NumbersAreNotBlank(gpuId);
    NumberIsValid(gpuId);
  }

  /** The sample before anything is read: what the identity already tells. */
  function EmptySample(info: GpuInfo): GpuSample {
    var limit: Slots := if info.powerLimitWatts.Some? then map[POWER_MGMT_LIMIT := info.powerLimitWatts.value]
        else map[];
    GpuSample(info, if info.memoryTotalBytes > 0.0 then limit[FB_TOTAL := info.memoryTotalBytes] else limit, map[], [])
  }

  /** Free memory is computed when only the total and the used amount are known. */
  function WithFreeMemory(slots: Slots): Slots {
    if FB_FREE !in slots && FB_TOTAL in slots && FB_USED in slots then
      var free := slots[FB_TOTAL] - slots[FB_USED];
      slots[FB_FREE := if free > 0.0 then free else 0.0]
    else slots
  }

  /** The listed GPUs, in order, each with an index. */
  ghost predicate InOrder(supported: seq<GpuInfo>, gpuIds: seq<nat>) {
    && |supported| == |gpuIds|
    && forall i :: 0 <= i < |gpuIds| ==> supported[i].id == gpuIds[i] && !Blank(supported[i].index)
  }

  /** Every listed GPU is sampled or reported as failed, and no other. */
  ghost predicate Covered(batch: SampleBatch) {
    && IsSubsequence(SampledInfos(batch.samples), batch.supported)
    && (forall info :: info in FailedInfos(batch.failures) ==> info in batch.supported)
    && (forall info :: info in batch.supported ==>
          info in SampledInfos(batch.samples) || info in FailedInfos(batch.failures))
    && (batch.failures == [] ==> SampledInfos(batch.samples) == batch.supported)
  }

  /** The batch of the GPUs looked at so far, every observation in the range of its field. */
  ghost predicate Accounts(batch: SampleBatch, gpuIds: seq<nat>) {
    && InOrder(batch.supported, gpuIds)
    && Covered(batch)
    && forall s :: s in batch.samples ==> AllInRange(s.observations)
  }

  lemma {:induction false} FailedInfosInParts(a: seq<Failure>, b: seq<Failure>)
    ensures FailedInfos(a + b) == FailedInfos(a) + FailedInfos(b)
  {
    if b == [] {
      assert a + b == a;
    } else {
      assert (a + b)[..|a + b| - 1] == a + b[..|b| - 1];
      FailedInfosInParts(a, b[..|b| - 1]);
    }
  }

  lemma {:induction false} FailedInfosOfOne(failures: seq<Failure>, info: GpuInfo)
    requires forall i :: 0 <= i < |failures| ==> failures[i].info == info
    ensures forall other :: other in FailedInfos(failures) <==> failures != [] && other == info
  {
    if failures == [] {
    } else {
      FailedInfosOfOne(failures[..|failures| - 1], info);
    }
  }

  ghost predicate AllOf(failures: seq<Failure>, info: GpuInfo) {
    forall i :: 0 <= i < |failures| ==> failures[i].info == info
  }

  function Grown(batch: SampleBatch, info: GpuInfo, failed: seq<Failure>, sampled: seq<GpuSample>): SampleBatch {
    SampleBatch(batch.samples + sampled, batch.supported + [info], batch.failures + failed)
  }

  lemma SampledOneMore(samples: seq<GpuSample>, sampled: seq<GpuSample>, supported: seq<GpuInfo>, info: GpuInfo)
    requires sampled == [] || (|sampled| == 1 && sampled[0].info == info)
    ensures SampledInfos(samples + sampled) == SampledInfos(samples) + if sampled == [] then [] else [info]
    ensures IsSubsequence(SampledInfos(samples), supported) ==>
              IsSubsequence(SampledInfos(samples + sampled), supported + [info])
  {
    var infos := SampledInfos(samples);
    if sampled == [] {
      assert samples + sampled == samples && infos + [] == infos;
      if IsSubsequence(infos, supported) { SubsequenceConcat(infos, supported, [], [info]); }
    } else {
      assert (samples + sampled)[..|samples|] == samples;
      SubsequenceRefl([info]);
      if IsSubsequence(infos, supported) { SubsequenceConcat(infos, supported, [info], [info]); }
    }
  }

  /** A turn that lists a GPU and either samples it or adds a failure of it keeps the books in order. */
  lemma AccountsOneMore(batch: SampleBatch, gpuIds: seq<nat>, gpuId: nat, info: GpuInfo, failed: seq<Failure>,
                        sampled: seq<GpuSample>)
    requires Accounts(batch, gpuIds) && info.id == gpuId && !Blank(info.index)
    requires AllOf(failed, info)
    requires if sampled == [] then failed != []
             else |sampled| == 1 && sampled[0].info == info && AllInRange(sampled[0].observations)
    ensures Accounts(Grown(batch, info, failed, sampled), gpuIds + [gpuId])
  {
    InOrderOneMore(batch.supported, gpuIds, info, gpuId);
    CoveredOneMore(batch, info, failed, sampled);
    MeasuredOneMore(batch.samples, sampled);
  }

  lemma MeasuredOneMore(samples: seq<GpuSample>, sampled: seq<GpuSample>)
    requires forall s :: s in samples ==> AllInRange(s.observations)
    requires sampled == [] || (|sampled| == 1 && AllInRange(sampled[0].observations))
    ensures forall s :: s in samples + sampled ==> AllInRange(s.observations)
  {
  }

  lemma InOrderOneMore(supported: seq<GpuInfo>, gpuIds: seq<nat>, info: GpuInfo, gpuId: nat)
    requires InOrder(supported, gpuIds) && info.id == gpuId && !Blank(info.index)
    ensures InOrder(supported + [info], gpuIds + [gpuId])
  {
  }

  lemma CoveredOneMore(batch: SampleBatch, info: GpuInfo, failed: seq<Failure>, sampled: seq<GpuSample>)
    requires Covered(batch) && AllOf(failed, info)
    requires if sampled == [] then failed != [] else |sampled| == 1 && sampled[0].info == info
    ensures Covered(Grown(batch, info, failed, sampled))
  {
    FailedOneMore(batch.failures, failed, info);
    SampledOneMore(batch.samples, sampled, batch.supported, info);
    assert forall other :: other in batch.supported + [info] <==> other in batch.supported || other == info;
    assert forall other :: other in SampledInfos(batch.samples + sampled) <==>
                             other in SampledInfos(batch.samples) || (sampled != [] && other == info);
  }

  lemma FailedOneMore(failures: seq<Failure>, failed: seq<Failure>, info: GpuInfo)
    requires AllOf(failed, info)
    ensures forall other :: other in FailedInfos(failures + failed)
              <==> other in FailedInfos(failures) || (failed != [] && other == info)
  {
    FailedInfosInParts(failures, failed);
    FailedInfosOfOne(failed, info);
  }

  function FailuresOf(info: GpuInfo, kinds: seq<string>): seq<Failure> {
    seq(|kinds|, i requires 0 <= i < |kinds| => Failure(info, kinds[i]))
  }

  /** The required fields come first in what a negotiation returns. */
  lemma NegotiatedFrom(oracle: Negotiation.Oracle, attempt: nat, required: seq<FieldId>, candidates: seq<FieldId>)
    ensures var fields := Negotiation.Watchable(oracle, attempt, required, candidates).fields;
            Appended([], required) <= fields
  {
    AppendedBasics([], required);
    Negotiation.BisectIsSound(oracle, attempt, Appended([], required), candidates);
  }

  // ----- Which groups a new watcher gets ---------------------------------------------------

  type Verdicts = (nat, nat, seq<FieldId>, Duration) -> Verdict

  datatype Intervals = Intervals(fast: Duration, profiling: Duration, operational: Duration, reliability: Duration)

  function OracleOf(verdict: Verdicts, gpuId: nat, interval: Duration): Negotiation.Oracle {
    (attempt: nat, fields: seq<FieldId>) => verdict(attempt, gpuId, fields, interval).Accepted?
  }

  datatype GroupSpec = GroupSpec(kind: string, fields: seq<FieldId>, interval: Duration)

  /** Groups subscribed to so far, and the number of the next attempt. */
  datatype Plan = Plan(specs: seq<GroupSpec>, attempts: nat)

  /** createWatcher: an empty list is refused without asking, any other is tried once. */
  function Subscribe(verdict: Verdicts, gpuId: nat, plan: Plan, spec: GroupSpec): Plan {
    if spec.fields == [] then plan
    else Plan(if OracleOf(verdict, gpuId, spec.interval)(plan.attempts, spec.fields) then plan.specs + [spec]
        else plan.specs,
              plan.attempts + 1)
  }

  function NegotiateGroup(verdict: Verdicts, gpuId: nat, plan: Plan, kind: string, required: seq<FieldId>,
                          candidates: seq<FieldId>, interval: Duration): Plan {
    var found := Negotiation.Watchable(OracleOf(verdict, gpuId, interval), plan.attempts, required, candidates);
    Subscribe(verdict, gpuId, plan.(attempts := found.next), GroupSpec(kind, found.fields, interval))
  }

  /** What the client asks: the verdicts of the engine, for the lists and at the intervals of the client. */
  datatype Engine = Engine(verdict: Verdicts, intervals: Intervals, lists: FieldLists)

  function PlanOptional(engine: Engine, gpuId: nat, metricGroups: Option<seq<seq<FieldId>>>, plan: Plan): Plan {
    var (verdict, intervals, lists) := (engine.verdict, engine.intervals, engine.lists);
    var operational := NegotiateGroup(verdict, gpuId, plan, "operational", [], lists.operational,
                                      intervals.operational);
    var legacy := NegotiateGroup(verdict, gpuId, operational, "profiling", [], lists.legacyRates, intervals.profiling);
    var reliability := NegotiateGroup(verdict, gpuId, legacy, "reliability", [], lists.reliability,
                                      intervals.reliability);
    PlanProfiling(engine, gpuId, metricGroups, reliability)
  }

  function PlanProfiling(engine: Engine, gpuId: nat, metricGroups: Option<seq<seq<FieldId>>>, plan: Plan): Plan {
    if metricGroups.None? then plan
    else Subscribe(engine.verdict, gpuId, plan, GroupSpec("profiling",
                                                          BestOffer(engine.lists.prof, metricGroups.value),
                                                          engine.intervals.profiling))
  }

  function PlanFast(engine: Engine, gpuId: nat, attempts: nat): Plan {
    NegotiateGroup(engine.verdict, gpuId, Plan([], attempts), "fast", engine.lists.fastRequired,
                   engine.lists.fastOptional, engine.intervals.fast)
  }

  /** ensureWatcher: without the fast group there is no watcher, and nothing else is tried. */
  function PlanWatcher(engine: Engine, gpuId: nat, metricGroups: Option<seq<seq<FieldId>>>, attempts: nat): Plan {
    var fast := PlanFast(engine, gpuId, attempts);
    if fast.specs == [] then fast else PlanOptional(engine, gpuId, metricGroups, fast)
  }

  /** A steady engine: at this interval the answer depends on the field list alone. */
  ghost predicate Steady(verdict: Verdicts, gpuId: nat, interval: Duration, accepts: Negotiation.Acceptance) {
    forall attempt: nat, fields :: verdict(attempt, gpuId, fields, interval).Accepted? <==> accepts(fields)
  }

  /**
   The group an engine with this acceptance gives for a negotiation: the greedy choice, if it is
   acceptable and not empty.
   */
  function GreedyGroup(accepts: Negotiation.Acceptance, kind: string, required: seq<FieldId>, candidates: seq<FieldId>,
                       interval: Duration): seq<GroupSpec> {
    var fields := Negotiation.Greedy(accepts, Appended([], required), candidates);
    if fields != [] && accepts(fields) then [GroupSpec(kind, fields, interval)] else []
  }

  lemma SteadyNegotiation(verdict: Verdicts, gpuId: nat, accepts: Negotiation.Acceptance, plan: Plan, kind: string,
                          required: seq<FieldId>, candidates: seq<FieldId>, interval: Duration)
    requires Steady(verdict, gpuId, interval, accepts) && Negotiation.PrefixClosed(accepts)
    ensures NegotiateGroup(verdict, gpuId, plan, kind, required, candidates, interval).specs
            == plan.specs + GreedyGroup(accepts, kind, required, candidates, interval)
  {
    var oracle := OracleOf(verdict, gpuId, interval);
    SteadyBisection(oracle, accepts, plan.attempts, Appended([], required), candidates);
    AppendedBasics([], required);
    Negotiation.BisectEqualsGreedy(accepts, plan.attempts, Appended([], required), candidates);
    var fields := Negotiation.Watchable(oracle, plan.attempts, required, candidates).fields;
    assert plan.specs + [] == plan.specs;
    assert oracle(Negotiation.Watchable(oracle, plan.attempts, required, candidates).next, fields) == accepts(fields);
  }

  lemma {:induction false} SteadyBisection(oracle: Negotiation.Oracle, accepts: Negotiation.Acceptance, attempt: nat,
                                           fields: seq<FieldId>, batch: seq<FieldId>)
    requires forall n: nat, list :: oracle(n, list) <==> accepts(list)
    ensures Negotiation.Bisect(oracle, attempt, fields, batch)
        == Negotiation.Bisect(Negotiation.Always(accepts), attempt, fields, batch)
    decreases |batch|
  {
    if |batch| > 1 && !accepts(Appended(fields, batch)) {
      var middle := |batch| / 2;
      SteadyBisection(oracle, accepts, attempt + 1, fields, batch[..middle]);
      var left := Negotiation.Bisect(oracle, attempt + 1, fields, batch[..middle]);
      SteadyBisection(oracle, accepts, left.next, left.fields, batch[middle..]);
    }
  }

  /**
   With a steady engine whose acceptance is closed under prefixes a new watcher has exactly the
   greedy groups, in their order: none without an acceptable fast group; each optional group if any
   of its candidates can be had; no accepted group is lost between negotiation and subscription.
   */
  lemma SteadyWatcherIsGreedy(engine: Engine, gpuId: nat, metricGroups: Option<seq<seq<FieldId>>>, attempts: nat,
                              accepts: Duration -> Negotiation.Acceptance)
    requires forall interval :: Steady(engine.verdict, gpuId, interval, accepts(interval))
               && Negotiation.PrefixClosed(accepts(interval))
    ensures PlanWatcher(engine, gpuId, metricGroups, attempts).specs == GreedyWatcher(engine, metricGroups, accepts)
  {
    SteadyFast(engine, gpuId, attempts, accepts(engine.intervals.fast));
    var fast := PlanFast(engine, gpuId, attempts);
    if fast.specs != [] { SteadyOptional(engine, gpuId, metricGroups, fast, accepts); }
  }

  lemma SteadyFast(engine: Engine, gpuId: nat, attempts: nat, accepts: Negotiation.Acceptance)
    requires Steady(engine.verdict, gpuId, engine.intervals.fast, accepts) && Negotiation.PrefixClosed(accepts)
    ensures PlanFast(engine, gpuId, attempts).specs == GreedyFast(engine, accepts)
  {
    SteadyNegotiation(engine.verdict, gpuId, accepts, Plan([], attempts), "fast", engine.lists.fastRequired,
                      engine.lists.fastOptional, engine.intervals.fast);
  }

  function GreedyFast(engine: Engine, accepts: Negotiation.Acceptance): seq<GroupSpec> {
    GreedyGroup(accepts, "fast", engine.lists.fastRequired, engine.lists.fastOptional, engine.intervals.fast)
  }

  function GreedyWatcher(engine: Engine, metricGroups: Option<seq<seq<FieldId>>>,
                         accepts: Duration -> Negotiation.Acceptance): seq<GroupSpec> {
    var fast := GreedyFast(engine, accepts(engine.intervals.fast));
    if fast == [] then [] else fast + GreedyOptional(engine, metricGroups, accepts)
  }

  function GreedyOptional(engine: Engine, metricGroups: Option<seq<seq<FieldId>>>,
                          accepts: Duration -> Negotiation.Acceptance): seq<GroupSpec> {
    var (intervals, lists) := (engine.intervals, engine.lists);
    GreedyGroup(accepts(intervals.operational), "operational", [], lists.operational, intervals.operational)
    + GreedyGroup(accepts(intervals.profiling), "profiling", [], lists.legacyRates, intervals.profiling)
    + GreedyGroup(accepts(intervals.reliability), "reliability", [], lists.reliability, intervals.reliability)
    + ProfilingGroup(engine, metricGroups, accepts(intervals.profiling))
  }

  /** The profiling fields are taken or left as a whole. */
  function ProfilingGroup(engine: Engine, metricGroups: Option<seq<seq<FieldId>>>,
                          accepts: Negotiation.Acceptance): seq<GroupSpec> {
    if metricGroups.None? then []
    else
      var best := BestOffer(engine.lists.prof, metricGroups.value);
      if best != [] && accepts(best) then [GroupSpec("profiling", best, engine.intervals.profiling)] else []
  }

  lemma SteadyOptional(engine: Engine, gpuId: nat, metricGroups: Option<seq<seq<FieldId>>>, plan: Plan,
                       accepts: Duration -> Negotiation.Acceptance)
    requires forall interval :: Steady(engine.verdict, gpuId, interval, accepts(interval))
               && Negotiation.PrefixClosed(accepts(interval))
    ensures PlanOptional(engine, gpuId, metricGroups, plan).specs
        == plan.specs + GreedyOptional(engine, metricGroups, accepts)
  {
    var verdict, intervals, lists := engine.verdict, engine.intervals, engine.lists;
    var operational := NegotiateGroup(verdict, gpuId, plan, "operational", [], lists.operational,
                                      intervals.operational);
    var legacy := NegotiateGroup(verdict, gpuId, operational, "profiling", [], lists.legacyRates, intervals.profiling);
    var reliability := NegotiateGroup(verdict, gpuId, legacy, "reliability", [], lists.reliability,
                                      intervals.reliability);
    SteadyNegotiation(verdict, gpuId, accepts(intervals.operational), plan, "operational", [], lists.operational,
                      intervals.operational);
    SteadyNegotiation(verdict, gpuId, accepts(intervals.profiling), operational, "profiling", [], lists.legacyRates,
                      intervals.profiling);
    SteadyNegotiation(verdict, gpuId, accepts(intervals.reliability), legacy, "reliability", [], lists.reliability,
                      intervals.reliability);
    SteadyProfiling(engine, gpuId, metricGroups, reliability, accepts(intervals.profiling));
    Reassociate(plan.specs,
                GreedyGroup(accepts(intervals.operational), "operational", [], lists.operational,
                            intervals.operational),
                GreedyGroup(accepts(intervals.profiling), "profiling", [], lists.legacyRates, intervals.profiling),
                GreedyGroup(accepts(intervals.reliability), "reliability", [], lists.reliability,
                            intervals.reliability),
                ProfilingGroup(engine, metricGroups, accepts(intervals.profiling)));
  }

  lemma SteadyProfiling(engine: Engine, gpuId: nat, metricGroups: Option<seq<seq<FieldId>>>, plan: Plan,
                        accepts: Negotiation.Acceptance)
    requires Steady(engine.verdict, gpuId, engine.intervals.profiling, accepts)
    ensures PlanProfiling(engine, gpuId, metricGroups, plan).specs
        == plan.specs + ProfilingGroup(engine, metricGroups, accepts)
  {
    assert plan.specs + [] == plan.specs;
  }

  /** Whatever the engine answers, the first group of a watcher is the fast one and holds the required fields. */
  lemma FastGroupComesFirst(engine: Engine, gpuId: nat, metricGroups: Option<seq<seq<FieldId>>>, attempts: nat)
    ensures var specs := PlanWatcher(engine, gpuId, metricGroups, attempts).specs;
            specs != [] ==> specs[0].kind == "fast" && Appended([], engine.lists.fastRequired) <= specs[0].fields
  {
    NegotiatedFrom(OracleOf(engine.verdict, gpuId, engine.intervals.fast), attempts, engine.lists.fastRequired,
                   engine.lists.fastOptional);
    var fast := PlanFast(engine, gpuId, attempts);
    if fast.specs != [] { OptionalGroupsFollow(engine, gpuId, metricGroups, fast); }
  }

  lemma OptionalGroupsFollow(engine: Engine, gpuId: nat, metricGroups: Option<seq<seq<FieldId>>>, plan: Plan)
    ensures plan.specs <= PlanOptional(engine, gpuId, metricGroups, plan).specs
  {
  }

  lemma Reassociate<T>(a: seq<T>, b: seq<T>, c: seq<T>, d: seq<T>, e: seq<T>)
    ensures (((a + b) + c) + d) + e == a + (b + c + d + e)
  {
  }

  ghost predicate HasKind(specs: seq<GroupSpec>, kind: string) { exists i :: 0 <= i < |specs| && specs[i].kind == kind }

  /** Some field of the list can be had alone. */
  ghost predicate AnyOf(accepts: Negotiation.Acceptance, fields: seq<FieldId>) {
    exists f :: f in fields && accepts([f])
  }

  lemma OptionalGroupExists(accepts: Negotiation.Acceptance, kind: string, candidates: seq<FieldId>, interval: Duration)
    ensures var group := GreedyGroup(accepts, kind, [], candidates, interval);
            && (group != [] <==> AnyOf(accepts, candidates))
            && forall i :: 0 <= i < |group| ==> group[i].kind == kind
  {
    assert Appended([], []) == [];
    Negotiation.GreedyIsSound(accepts, [], candidates);
    Negotiation.GreedyKeepsSomething(accepts, candidates);
  }

  lemma FastGroupExists(engine: Engine, accepts: Negotiation.Acceptance)
    requires Negotiation.PrefixClosed(accepts) && engine.lists.fastRequired != []
    ensures GreedyFast(engine, accepts) != [] <==> accepts(Appended([], engine.lists.fastRequired))
    ensures forall i :: 0 <= i < |GreedyFast(engine, accepts)| ==> GreedyFast(engine, accepts)[i].kind == "fast"
  {
    var required := Appended([], engine.lists.fastRequired);
    AppendedBasics([], engine.lists.fastRequired);
    assert engine.lists.fastRequired[0] in Elements(required);
    var fields := Negotiation.Greedy(accepts, required, engine.lists.fastOptional);
    Negotiation.GreedyIsSound(accepts, required, engine.lists.fastOptional);
    assert fields[..|required|] == required;
  }

  /** Which groups a watcher has, by what the engine accepts. */
  ghost predicate GroupsAre(engine: Engine, metricGroups: Option<seq<seq<FieldId>>>,
                            accepts: Duration -> Negotiation.Acceptance, specs: seq<GroupSpec>) {
    var (intervals, lists) := (engine.intervals, engine.lists);
    && (specs != [] <==> accepts(intervals.fast)(Appended([], lists.fastRequired)))
    && (HasKind(specs, "operational") <==> specs != [] && AnyOf(accepts(intervals.operational), lists.operational))
    && (HasKind(specs, "reliability") <==> specs != [] && AnyOf(accepts(intervals.reliability), lists.reliability))
    && (HasKind(specs, "profiling") <==>
          && specs != []
          && (|| AnyOf(accepts(intervals.profiling), lists.legacyRates)
              || ProfilingGroup(engine, metricGroups, accepts(intervals.profiling)) != []))
  }

  /**
   With a steady, prefix-closed engine a watcher exists exactly when the required fields are
   accepted, and then each optional group exactly when one of its candidates is accepted alone.
   */
  lemma OptionalGroupIffAnyField(engine: Engine, gpuId: nat, metricGroups: Option<seq<seq<FieldId>>>, attempts: nat,
                                 accepts: Duration -> Negotiation.Acceptance)
    requires forall interval :: Steady(engine.verdict, gpuId, interval, accepts(interval))
               && Negotiation.PrefixClosed(accepts(interval))
    requires engine.lists.fastRequired != []
    ensures GroupsAre(engine, metricGroups, accepts, PlanWatcher(engine, gpuId, metricGroups, attempts).specs)
  {
    var intervals, lists := engine.intervals, engine.lists;
    SteadyWatcherIsGreedy(engine, gpuId, metricGroups, attempts, accepts);
    FastGroupExists(engine, accepts(intervals.fast));
    OptionalGroupExists(accepts(intervals.operational), "operational", lists.operational, intervals.operational);
    OptionalGroupExists(accepts(intervals.profiling), "profiling", lists.legacyRates, intervals.profiling);
    OptionalGroupExists(accepts(intervals.reliability), "reliability", lists.reliability, intervals.reliability);
    if GreedyFast(engine, accepts(intervals.fast)) != [] {
      KindsOfParts(GreedyFast(engine, accepts(intervals.fast)),
                   GreedyGroup(accepts(intervals.operational), "operational", [], lists.operational,
                               intervals.operational),
                   GreedyGroup(accepts(intervals.profiling), "profiling", [], lists.legacyRates, intervals.profiling),
                   GreedyGroup(accepts(intervals.reliability), "reliability", [], lists.reliability,
                               intervals.reliability),
                   ProfilingGroup(engine, metricGroups, accepts(intervals.profiling)));
    }
  }

  ghost predicate AllOfKind(specs: seq<GroupSpec>, kind: string) {
    forall i :: 0 <= i < |specs| ==> specs[i].kind == kind
  }

  lemma KindsOfParts(fast: seq<GroupSpec>, operational: seq<GroupSpec>, legacy: seq<GroupSpec>,
                     reliability: seq<GroupSpec>, prof: seq<GroupSpec>)
    requires AllOfKind(fast, "fast") && AllOfKind(operational, "operational") && AllOfKind(legacy, "profiling")
    requires AllOfKind(reliability, "reliability") && AllOfKind(prof, "profiling")
    ensures var specs := fast + (operational + legacy + reliability + prof);
            && (HasKind(specs, "operational") <==> operational != [])
            && (HasKind(specs, "reliability") <==> reliability != [])
            && (HasKind(specs, "profiling") <==> legacy != [] || prof != [])
  {
    assert "fast"[0] == 'f' && "operational"[0] == 'o' && "profiling"[0] == 'p' && "reliability"[0] == 'r';
    KindInParts(fast, operational + legacy + reliability + prof, "operational");
    KindInParts(fast, operational + legacy + reliability + prof, "reliability");
    KindInParts(fast, operational + legacy + reliability + prof, "profiling");
    KindInAll(operational, legacy, reliability, prof, "operational");
    KindInAll(operational, legacy, reliability, prof, "reliability");
    KindInAll(operational, legacy, reliability, prof, "profiling");
    KindOfAll(fast, "fast");
    KindOfAll(operational, "operational");
    KindOfAll(legacy, "profiling");
    KindOfAll(reliability, "reliability");
    KindOfAll(prof, "profiling");
  }

  lemma KindOfAll(specs: seq<GroupSpec>, kind: string)
    requires AllOfKind(specs, kind)
    ensures forall other :: HasKind(specs, other) <==> specs != [] && other == kind
  {
    if specs != [] {
      assert specs[0].kind == kind;
    }
  }

  lemma KindInParts(a: seq<GroupSpec>, b: seq<GroupSpec>, kind: string)
    ensures HasKind(a + b, kind) <==> HasKind(a, kind) || HasKind(b, kind)
  {
    if HasKind(b, kind) {
      var i :| 0 <= i < |b| && b[i].kind == kind;
      assert (a + b)[|a| + i] == b[i];
    }
    if HasKind(a, kind) {
      var i :| 0 <= i < |a| && a[i].kind == kind;
      assert (a + b)[i] == a[i];
    }
  }

  lemma KindInAll(a: seq<GroupSpec>, b: seq<GroupSpec>, c: seq<GroupSpec>, d: seq<GroupSpec>, kind: string)
    ensures HasKind(a + b + c + d, kind) <==>
            HasKind(a, kind) || HasKind(b, kind) || HasKind(c, kind) || HasKind(d, kind)
  {
    KindInParts(a + b + c, d, kind);
    KindInParts(a + b, c, kind);
    KindInParts(a, b, kind);
  }

  /** A group watches fields of one class only, at the interval of that class. */
  ghost predicate OfOneClass(spec: GroupSpec, intervals: Intervals, lists: FieldLists) {
    var fields := Elements(spec.fields);
    || (spec.interval == intervals.fast && fields <= Elements(lists.fastRequired) + Elements(lists.fastOptional))
    || (spec.interval == intervals.operational && fields <= Elements(lists.operational))
    || (spec.interval == intervals.profiling && fields <= Elements(lists.legacyRates) + Elements(lists.prof))
    || (spec.interval == intervals.reliability && fields <= Elements(lists.reliability))
  }

  ghost predicate AllOfOneClass(specs: seq<GroupSpec>, engine: Engine) {
    forall i :: 0 <= i < |specs| ==> OfOneClass(specs[i], engine.intervals, engine.lists)
  }

  lemma NegotiatedFieldsAreListed(verdict: Verdicts, gpuId: nat, plan: Plan, required: seq<FieldId>,
                                  candidates: seq<FieldId>, interval: Duration)
    ensures Elements(Negotiation.Watchable(OracleOf(verdict, gpuId, interval), plan.attempts, required,
                                           candidates).fields)
            <= Elements(required) + Elements(candidates)
  {
    AppendedBasics([], required);
    Negotiation.BisectIsSound(OracleOf(verdict, gpuId, interval), plan.attempts, Appended([], required), candidates);
  }

  lemma {:induction false} BestOfferIsRequested(requested: seq<FieldId>, groups: seq<seq<FieldId>>)
    ensures Elements(BestOffer(requested, groups)) <= Elements(requested)
  {
    if groups == [] {
    } else {
      BestOfferIsRequested(requested, groups[..|groups| - 1]);
      var last := RequestedIn(requested, groups[|groups| - 1]);
      assert forall f :: f in last ==> f in requested;
    }
  }

  /** Whatever the engine answers, every group of a new watcher is of one class. */
  lemma EveryGroupIsOfOneClass(engine: Engine, gpuId: nat, metricGroups: Option<seq<seq<FieldId>>>, attempts: nat)
    ensures AllOfOneClass(PlanWatcher(engine, gpuId, metricGroups, attempts).specs, engine)
  {
    NegotiatedFieldsAreListed(engine.verdict, gpuId, Plan([], attempts), engine.lists.fastRequired,
                              engine.lists.fastOptional, engine.intervals.fast);
    var fast := PlanFast(engine, gpuId, attempts);
    if fast.specs != [] { OptionalGroupsAreOfOneClass(engine, gpuId, metricGroups, fast); }
  }

  lemma OptionalGroupsAreOfOneClass(engine: Engine, gpuId: nat, metricGroups: Option<seq<seq<FieldId>>>, plan: Plan)
    requires AllOfOneClass(plan.specs, engine)
    ensures AllOfOneClass(PlanOptional(engine, gpuId, metricGroups, plan).specs, engine)
  {
    var verdict, intervals, lists := engine.verdict, engine.intervals, engine.lists;
    NegotiatedFieldsAreListed(verdict, gpuId, plan, [], lists.operational, intervals.operational);
    var operational := NegotiateGroup(verdict, gpuId, plan, "operational", [], lists.operational,
                                      intervals.operational);
    NegotiatedFieldsAreListed(verdict, gpuId, operational, [], lists.legacyRates, intervals.profiling);
    var legacy := NegotiateGroup(verdict, gpuId, operational, "profiling", [], lists.legacyRates, intervals.profiling);
    assert AllOfOneClass(legacy.specs, engine);
    NegotiatedFieldsAreListed(verdict, gpuId, legacy, [], lists.reliability, intervals.reliability);
    var reliability := NegotiateGroup(verdict, gpuId, legacy, "reliability", [], lists.reliability,
                                      intervals.reliability);
    assert AllOfOneClass(reliability.specs, engine);
    if metricGroups.Some? { BestOfferIsRequested(lists.prof, metricGroups.value); }
  }

  // ----- One collection --------------------------------------------------------------------

  function WatchedIn(specs: seq<GroupSpec>): set<FieldId> {
    if specs == [] then {} else WatchedIn(specs[..|specs| - 1]) + Elements(specs[|specs| - 1].fields)
  }

  /** Every monitored field unseen, and the fields of the groups supported. */
  function InitialStates(lists: FieldLists, specs: seq<GroupSpec>): FieldStates {
    map f | f in lists.Monitored() + WatchedIn(specs) :: UNSEEN.(supported := f in WatchedIn(specs))
  }

  function NewGroup(spec: GroupSpec, now: Time): Group {
    Group(spec.kind, spec.fields, spec.interval, now - spec.interval, ZERO_TIME)
  }

  function NewGroups(specs: seq<GroupSpec>, now: Time): seq<Group> {
    seq(|specs|, i requires 0 <= i < |specs| => NewGroup(specs[i], now))
  }

  datatype WatcherView = WatcherView(groups: seq<Group>, states: FieldStates)

  datatype ClientView = ClientView(devices: map<nat, GpuInfo>, watchers: map<nat, WatcherView>, attempts: nat)

  datatype Turn = Turn(view: ClientView, batch: SampleBatch)

  function InfoFor(devices: map<nat, GpuInfo>, gpuId: nat, reply: Option<DeviceReply>): GpuInfo {
    if gpuId in devices then devices[gpuId] else if reply.Some? then InfoFrom(gpuId, reply.value)
        else UnknownInfo(gpuId)
  }

  function IdentityFailures(devices: map<nat, GpuInfo>, gpuId: nat, reply: Option<DeviceReply>): seq<Failure> {
    if gpuId in devices || reply.Some? then [] else [Failure(UnknownInfo(gpuId), "identity")]
  }

  /** Only a queried identity is cached. */
  function DevicesAfter(devices: map<nat, GpuInfo>, gpuId: nat, reply: Option<DeviceReply>): map<nat, GpuInfo> {
    if gpuId in devices || reply.None? then devices else devices[gpuId := InfoFrom(gpuId, reply.value)]
  }

  function Ensured(engine: Engine, view: ClientView, gpuId: nat, metricGroups: Option<seq<seq<FieldId>>>,
                   now: Time): ClientView {
    if gpuId in view.watchers then view
    else
      var plan := PlanWatcher(engine, gpuId, metricGroups, view.attempts);
      view.(attempts := plan.attempts,
            watchers := if plan.specs == [] then view.watchers
                        else view.watchers[gpuId := WatcherView(NewGroups(plan.specs, now),
                                                                InitialStates(engine.lists, plan.specs))])
  }

  function Read(gpuId: nat, watcher: WatcherView, info: GpuInfo, replies: nat -> PollReply,
                now: Time): (seq<Group>, Progress) {
    PollGroups(gpuId, watcher.groups, Progress(watcher.states, EmptySample(info).slots, [], []), replies, now)
  }

  /** What a read adds to the batch: a sample unless the fast group failed, and a failure for each group that did. */
  function SampleFrom(info: GpuInfo, p: Progress): seq<GpuSample> {
    if "fast" in p.failures then [] else [GpuSample(info, WithFreeMemory(p.slots), p.states, p.observations)]
  }

  /** What one GPU adds to the batch once its watcher is there, or not. */
  datatype Yield = Yield(view: ClientView, samples: seq<GpuSample>, failures: seq<Failure>)

  function YieldOf(view: ClientView, gpuId: nat, info: GpuInfo, replies: nat -> PollReply, now: Time): Yield {
    if gpuId !in view.watchers then Yield(view, [], [Failure(info, "watch")])
    else
      var (groups, p) := Read(gpuId, view.watchers[gpuId], info, replies, now);
      Yield(view.(watchers := view.watchers[gpuId := WatcherView(groups, p.states)]), SampleFrom(info, p),
            FailuresOf(info, p.failures))
  }

  function RepliesAt(host: Host, position: nat): nat -> PollReply { (i: nat) => host.history(position, i) }

  /** The fast group fails in the read: it is due and its poll errs. */
  ghost predicate FastFails(groups: seq<Group>, replies: nat -> PollReply, now: Time) {
    exists i :: 0 <= i < |groups| && groups[i].kind == "fast" && Fails(groups[i], replies(i), now)
  }

  /** Some group that is due gives a value of the GPU that can be decoded. */
  ghost predicate SomethingIsGiven(groups: seq<Group>, replies: nat -> PollReply, gpuId: nat, now: Time) {
    exists i :: 0 <= i < |groups| && Gives(groups[i], replies(i), gpuId, now)
  }

  /**
   The observations of a read reach the batch exactly when the fast group does not fail in it or no
   group gives any.
   */
  lemma ReadIsDeliveredExactly(view: ClientView, gpuId: nat, info: GpuInfo, replies: nat -> PollReply, now: Time)
    requires gpuId in view.watchers
    ensures var groups, y := view.watchers[gpuId].groups, YieldOf(view, gpuId, info, replies, now);
            Read(gpuId, view.watchers[gpuId], info, replies, now).1.observations
                == (if y.samples == [] then [] else y.samples[0].observations)
            <==> !FastFails(groups, replies, now) || !SomethingIsGiven(groups, replies, gpuId, now)
  {
    var watcher := view.watchers[gpuId];
    var start := Progress(watcher.states, EmptySample(info).slots, [], []);
    FailuresAre(gpuId, watcher.groups, start, replies, now, "fast");
    ReadGivesSomething(gpuId, watcher.groups, start, replies, now);
  }

  /** Delivered or not, every group that was due has moved on: what it gave is not asked for again. */
  lemma EveryReadMovesOn(view: ClientView, gpuId: nat, info: GpuInfo, replies: nat -> PollReply, now: Time)
    requires gpuId in view.watchers
    ensures var groups, after := view.watchers[gpuId].groups,
        YieldOf(view, gpuId, info, replies, now).view.watchers[gpuId].groups;
            |after| == |groups| && forall i :: 0 <= i < |groups| ==> after[i] == NextGroup(groups[i], replies(i), now)
  {
    var watcher := view.watchers[gpuId];
    GroupsMoveAlone(gpuId, watcher.groups, Progress(watcher.states, EmptySample(info).slots, [], []), replies, now);
  }

  /** The client before the read of a turn: the GPU identified, and with its watcher if one could be made. */
  function Prepared(engine: Engine, view: ClientView, gpuId: nat, position: nat, host: Host, now: Time): ClientView {
    Ensured(engine, view.(devices := DevicesAfter(view.devices, gpuId, host.device(position))), gpuId,
            host.metricGroups(position), now)
  }

  /** One turn of the loop of Samples. */
  function SampleTurn(engine: Engine, turn: Turn, gpuId: nat, position: nat, host: Host, now: Time): Turn {
    var devices, reply := turn.view.devices, host.device(position);
    var info := InfoFor(devices, gpuId, reply);
    var y := YieldOf(Prepared(engine, turn.view, gpuId, position, host, now), gpuId, info, RepliesAt(host, position),
                     now);
    Turn(y.view, Grown(turn.batch, info, IdentityFailures(devices, gpuId, reply) + y.failures, y.samples))
  }

  function SampleTurns(engine: Engine, view: ClientView, gpuIds: seq<nat>, host: Host, now: Time): Turn {
    if gpuIds == [] then Turn(view, SampleBatch([], [], []))
    else
      var n := |gpuIds| - 1;
      SampleTurn(engine, SampleTurns(engine, view, gpuIds[..n], host, now), gpuIds[n], n, host, now)
  }

  /** Watchers, and identities, of GPUs that are no longer listed are dropped. */
  function WithoutMissing(view: ClientView, gpuIds: seq<nat>): ClientView {
    var missing := view.watchers.Keys - Elements(gpuIds);
    view.(watchers := view.watchers - missing, devices := view.devices - missing)
  }

  /** Samples, when the GPUs could be listed. */
  function Sampled(engine: Engine, view: ClientView, gpuIds: seq<nat>, host: Host, now: Time): Turn {
    var turn := SampleTurns(engine, view, gpuIds, host, now);
    turn.(view := WithoutMissing(turn.view, gpuIds))
  }

  // ----- The batch accounts for every GPU --------------------------------------------------

  /** Cached identities are those of their GPU, with an index. */
  ghost predicate DevicesNamed(devices: map<nat, GpuInfo>) {
    forall gpuId :: gpuId in devices ==> devices[gpuId].id == gpuId && !Blank(devices[gpuId].index)
  }

  lemma InfoIsNamed(devices: map<nat, GpuInfo>, gpuId: nat, reply: Option<DeviceReply>)
    requires DevicesNamed(devices)
    ensures var info := InfoFor(devices, gpuId, reply); info.id == gpuId && !Blank(info.index)
  {
    NumbersAreNotBlank(gpuId);
    if reply.Some? && reply.value.nvmlIndex.Some? { NumbersAreNotBlank(reply.value.nvmlIndex.value); }
  }

  lemma YieldAccounts(view: ClientView, gpuId: nat, info: GpuInfo, replies: nat -> PollReply, now: Time)
    ensures var y := YieldOf(view, gpuId, info, replies, now);
            && y.view.devices == view.devices && AllOf(y.failures, info)
            && (if y.samples == [] then y.failures != []
                else |y.samples| == 1 && y.samples[0].info == info && AllInRange(y.samples[0].observations))
  {
    if gpuId in view.watchers {
      var watcher := view.watchers[gpuId];
      PollsKeepRange(gpuId, watcher.groups, Progress(watcher.states, EmptySample(info).slots, [], []), replies, now);
    }
  }

  lemma PreparedIsNamed(engine: Engine, view: ClientView, gpuId: nat, position: nat, host: Host, now: Time)
    requires DevicesNamed(view.devices)
    ensures DevicesNamed(Prepared(engine, view, gpuId, position, host, now).devices)
  {
    InfoIsNamed(view.devices, gpuId, host.device(position));
  }

  ghost predicate TurnAccounted(turn: Turn, gpuIds: seq<nat>) {
    DevicesNamed(turn.view.devices) && Accounts(turn.batch, gpuIds)
  }

  lemma TurnAccounts(engine: Engine, turn: Turn, gpuIds: seq<nat>, gpuId: nat, position: nat, host: Host, now: Time,
                     after: Turn, all: seq<nat>)
    requires TurnAccounted(turn, gpuIds) && all == gpuIds + [gpuId]
    requires after == SampleTurn(engine, turn, gpuId, position, host, now)
    ensures TurnAccounted(after, all)
  {
    var devices, reply := turn.view.devices, host.device(position);
    var info := InfoFor(devices, gpuId, reply);
    InfoIsNamed(devices, gpuId, reply);
    PreparedIsNamed(engine, turn.view, gpuId, position, host, now);
    var view := Prepared(engine, turn.view, gpuId, position, host, now);
    var y := YieldOf(view, gpuId, info, RepliesAt(host, position), now);
    YieldAccounts(view, gpuId, info, RepliesAt(host, position), now);
    AllOfBoth(IdentityFailures(devices, gpuId, reply), y.failures, info);
    AccountsOneMore(turn.batch, gpuIds, gpuId, info, IdentityFailures(devices, gpuId, reply) + y.failures, y.samples);
  }

  lemma AllOfBoth(a: seq<Failure>, b: seq<Failure>, info: GpuInfo)
    requires AllOf(a, info) && AllOf(b, info)
    ensures AllOf(a + b, info)
  {
  }

  lemma NothingAccounts(view: ClientView)
    requires DevicesNamed(view.devices)
    ensures TurnAccounted(Turn(view, SampleBatch([], [], [])), [])
  {
  }

  lemma LastTurnAccounts(engine: Engine, view: ClientView, gpuIds: seq<nat>, host: Host, now: Time)
    requires gpuIds != [] && TurnAccounted(SampleTurns(engine, view, gpuIds[..|gpuIds| - 1], host, now),
                                           gpuIds[..|gpuIds| - 1])
    ensures TurnAccounted(SampleTurns(engine, view, gpuIds, host, now), gpuIds)
  {
    var n := |gpuIds| - 1;
    var before := SampleTurns(engine, view, gpuIds[..n], host, now);
    LastBehind(gpuIds);
    TurnAccounts(engine, before, gpuIds[..n], gpuIds[n], n, host, now, SampleTurns(engine, view, gpuIds, host, now),
                 gpuIds);
  }

  lemma {:induction false} TurnsAccount(engine: Engine, view: ClientView, gpuIds: seq<nat>, host: Host, now: Time)
    requires DevicesNamed(view.devices)
    ensures TurnAccounted(SampleTurns(engine, view, gpuIds, host, now), gpuIds)
  {
    if gpuIds == [] {
      NothingAccounts(view);
    } else {
      TurnsAccount(engine, view, gpuIds[..|gpuIds| - 1], host, now);
      LastTurnAccounts(engine, view, gpuIds, host, now);
    }
  }

  /** A collection lists every GPU, samples or fails each, and keeps watchers of listed GPUs only. */
  lemma CollectionAccounts(engine: Engine, view: ClientView, gpuIds: seq<nat>, host: Host, now: Time)
    requires DevicesNamed(view.devices)
    ensures var turn := Sampled(engine, view, gpuIds, host, now);
            DevicesNamed(turn.view.devices) && Accounts(turn.batch, gpuIds)
                && turn.view.watchers.Keys <= Elements(gpuIds)
  {
    TurnsAccount(engine, view, gpuIds, host, now);
  }
}
