/**
 The DCGM client: watcher groups and the handles behind them, and the collection of one batch of
 samples (dcgm_client.go).
 */
module Client {
  import opened FieldSets
  import opened Identity
  import opened Clock
  import opened Decoding
  import opened History
  import opened Sampling
  import Negotiation
  import opened Collections

  // ----- The DCGM library ------------------------------------------------------------------

  datatype Handle = GroupHandle(id: nat) | FieldGroupHandle(id: nat)

  /** Some handle number is unused. */
  lemma {:induction false} UnusedId(live: set<Handle>) returns (id: nat)
    ensures forall h :: h in live ==> h.id < id
  {
    if live == {} {
      return 0;
    }
    var h :| h in live;
    id := UnusedId(live - {h});
    if id <= h.id { id := h.id + 1; }
  }

  /**
   The host engine as the client sees it. The verdict on an attempt may depend on its number. A
   destroy may fail; the handle then stays live for ever and counts as leaked. A reliable engine
   never fails a destroy.
   */
  class Dcgm {
    const verdict: Verdicts
    const reliable: bool
    var attempts: nat
    var live: set<Handle>
    ghost var leaked: set<Handle>

    ghost predicate Valid()
      reads this
    {
      leaked <= live && (reliable ==> leaked == {})
    }

    /** The live handles nobody has tried to destroy. */
    ghost function InUse(): set<Handle>
      reads this
    {
      live - leaked
    }

    constructor (verdict: Verdicts, reliable: bool)
      ensures Valid() && live == {} && attempts == 0 && this.verdict == verdict && this.reliable == reliable
    {
      this.verdict, this.reliable := verdict, reliable;
      attempts, live, leaked := 0, {}, {};
    }

    method NextVerdict(gpuId: nat, fields: seq<FieldId>, interval: Duration) returns (v: Verdict)
      modifies this`attempts
      ensures v == verdict(old(attempts), gpuId, fields, interval) && attempts == old(attempts) + 1
    {
      v := verdict(attempts, gpuId, fields, interval);
      attempts := attempts + 1;
    }

    method FieldGroupCreate() returns (id: nat)
      requires Valid()
      modifies this`live
      ensures Valid() && FieldGroupHandle(id) !in old(live) && live == old(live) + {FieldGroupHandle(id)}
    {
      ghost var unused := UnusedId(live);
      assert FieldGroupHandle(unused) !in live;
      id :| FieldGroupHandle(id) !in live;
      live := live + {FieldGroupHandle(id)};
    }

    method CreateGroup() returns (id: nat)
      requires Valid()
      modifies this`live
      ensures Valid() && GroupHandle(id) !in old(live) && live == old(live) + {GroupHandle(id)}
    {
      ghost var unused := UnusedId(live);
      assert GroupHandle(unused) !in live;
      id :| GroupHandle(id) !in live;
      live := live + {GroupHandle(id)};
    }

    /** DestroyGroup and FieldGroupDestroy. */
    method Destroy(handle: Handle) returns (ok: bool)
      requires Valid()
      modifies this`live, this`leaked
      ensures Valid() && InUse() == old(InUse()) - {handle}
      ensures live == if ok then old(live) - {handle} else old(live)
    {
      if reliable {
        ok := true;
      } else {
        ok := *;
      }
      if ok {
        live, leaked := live - {handle}, leaked - {handle};
      } else {
        leaked := leaked + live * {handle};
      }
    }
  }

  // ----- Watchers --------------------------------------------------------------------------

  class FieldWatcher {
    const kind: string
    const fields: seq<FieldId>
    const fieldGroupId: nat
    const groupId: nat
    const interval: Duration
    var since: Time
    var lastPoll: Time

    constructor (kind: string, fields: seq<FieldId>, fieldGroupId: nat, groupId: nat, interval: Duration, since: Time)
      ensures this.kind == kind && this.fields == fields && this.fieldGroupId == fieldGroupId
      ensures this.groupId == groupId && this.interval == interval && this.since == since && lastPoll == ZERO_TIME
    {
      this.kind, this.fields, this.fieldGroupId := kind, fields, fieldGroupId;
      this.groupId, this.interval, this.since, lastPoll := groupId, interval, since, ZERO_TIME;
    }

    ghost function Handles(): set<Handle> { {GroupHandle(groupId), FieldGroupHandle(fieldGroupId)} }

    ghost function Spec(): GroupSpec { GroupSpec(kind, fields, interval) }

    ghost function View(): Group
      reads this
    {
      Group(kind, fields, interval, since, lastPoll)
    }
  }

  ghost function HandlesOf(groups: seq<FieldWatcher>): set<Handle> {
    if groups == [] then {} else HandlesOf(groups[..|groups| - 1]) + groups[|groups| - 1].Handles()
  }

  ghost function GroupObjects(groups: seq<FieldWatcher>): set<object> {
    set g: FieldWatcher | g in groups
  }

  ghost function SpecsOf(groups: seq<FieldWatcher>): seq<GroupSpec> {
    seq(|groups|, i requires 0 <= i < |groups| => groups[i].Spec())
  }

  ghost function Views(groups: seq<FieldWatcher>): seq<Group>
    reads groups
  {
    seq(|groups|, i requires 0 <= i < |groups| reads groups => groups[i].View())
  }

  class GpuWatcher {
    const groups: seq<FieldWatcher>
    var fieldStates: FieldStates

    ghost predicate Valid() { Distinct(groups) }

    ghost function View(): WatcherView
      reads this, groups
    {
      WatcherView(Views(groups), fieldStates)
    }

    constructor (groups: seq<FieldWatcher>, fieldStates: FieldStates)
      ensures this.groups == groups && this.fieldStates == fieldStates
    {
      this.groups, this.fieldStates := groups, fieldStates;
    }
  }

  lemma GroupAppended(groups: seq<FieldWatcher>, group: FieldWatcher)
    ensures HandlesOf(groups + [group]) == HandlesOf(groups) + group.Handles()
    ensures SpecsOf(groups + [group]) == SpecsOf(groups) + [group.Spec()]
    ensures Distinct(groups) && group !in groups ==> Distinct(groups + [group])
  {
    assert (groups + [group])[..|groups|] == groups;
  }

  lemma FieldsAppended(groups: seq<FieldWatcher>, group: FieldWatcher)
    ensures WatchedIn(SpecsOf(groups + [group])) == WatchedIn(SpecsOf(groups)) + Elements(group.fields)
  {
    GroupAppended(groups, group);
    assert (SpecsOf(groups) + [group.Spec()])[..|groups|] == SpecsOf(groups);
  }

  type Watchers = map<nat, GpuWatcher>

  ghost function OwnedBy(watchers: Watchers): set<Handle> {
    set gpu, h | gpu in watchers && h in HandlesOf(watchers[gpu].groups) :: h
  }

  /** No two GPUs share a watcher or a handle. */
  ghost predicate Apart(watchers: Watchers) {
    && (forall gpu :: gpu in watchers ==> watchers[gpu].Valid())
    && (forall gpu, other :: gpu in watchers && other in watchers && gpu != other ==>
          watchers[gpu] != watchers[other] && HandlesOf(watchers[gpu].groups) !! HandlesOf(watchers[other].groups))
  }

  lemma RemovedHandles(watchers: Watchers, gpu: nat)
    requires Apart(watchers) && gpu in watchers
    ensures Apart(watchers - {gpu})
    ensures OwnedBy(watchers) == OwnedBy(watchers - {gpu}) + HandlesOf(watchers[gpu].groups)
    ensures OwnedBy(watchers - {gpu}) !! HandlesOf(watchers[gpu].groups)
  {
    var rest := watchers - {gpu};
    forall h ensures h in OwnedBy(watchers) <==> h in OwnedBy(rest) || h in HandlesOf(watchers[gpu].groups) {
      if h in OwnedBy(watchers) {
        var k :| k in watchers && h in HandlesOf(watchers[k].groups);
        if k != gpu { assert k in rest && rest[k] == watchers[k]; }
      }
      if h in OwnedBy(rest) {
        var k :| k in rest && h in HandlesOf(rest[k].groups);
        assert k in watchers;
      }
    }
  }

  lemma {:induction false} HandlesOfMember(groups: seq<FieldWatcher>, g: FieldWatcher)
    requires g in groups
    ensures g.Handles() <= HandlesOf(groups)
  {
    var n := |groups| - 1;
    if g != groups[n] { HandlesOfMember(groups[..n], g); }
  }

  lemma {:induction false} NoHandleNoMember(groups: seq<FieldWatcher>, g: FieldWatcher)
    requires GroupHandle(g.groupId) !in HandlesOf(groups)
    ensures g !in groups
  {
    if groups == [] {
    } else {
      var n := |groups| - 1;
      NoHandleNoMember(groups[..n], g);
      LastBehind(groups);
    }
  }

  /** GPUs with different handles have different group objects. */
  lemma GroupsApart(watchers: Watchers, a: nat, b: nat)
    requires Apart(watchers) && a in watchers && b in watchers && a != b
    ensures watchers[a] != watchers[b] && forall g :: g in watchers[a].groups ==> g !in watchers[b].groups
  {
    forall g | g in watchers[a].groups ensures g !in watchers[b].groups {
      HandlesOfMember(watchers[a].groups, g);
      NoHandleNoMember(watchers[b].groups, g);
    }
  }

  lemma LessInParts<K, V>(m: map<K, V>, a: set<K>, b: set<K>)
    ensures (m - a) - b == m - (a + b)
  {
  }

  lemma Remaining<K, V>(rest: map<K, V>, whole: map<K, V>, gone: set<K>)
    requires rest.Keys == whole.Keys - gone && forall k :: k in rest ==> rest[k] == whole[k]
    ensures rest == whole - gone
  {
  }

  lemma HandlesAreOwned(watchers: Watchers, gpu: nat)
    requires gpu in watchers
    ensures HandlesOf(watchers[gpu].groups) <= OwnedBy(watchers)
  {
  }

  lemma AddedHandles(watchers: Watchers, gpu: nat, watcher: GpuWatcher)
    requires Apart(watchers) && gpu !in watchers && watcher.Valid()
    requires OwnedBy(watchers) !! HandlesOf(watcher.groups)
    requires forall k :: k in watchers ==> watchers[k] != watcher
    ensures Apart(watchers[gpu := watcher])
    ensures OwnedBy(watchers[gpu := watcher]) == OwnedBy(watchers) + HandlesOf(watcher.groups)
  {
    StillApart(watchers, gpu, watcher);
    RemovedHandles(watchers[gpu := watcher], gpu);
    assert watchers[gpu := watcher] - {gpu} == watchers;
  }

  lemma StillApart(watchers: Watchers, gpu: nat, watcher: GpuWatcher)
    requires Apart(watchers) && gpu !in watchers && watcher.Valid()
    requires OwnedBy(watchers) !! HandlesOf(watcher.groups)
    requires forall k :: k in watchers ==> watchers[k] != watcher
    ensures Apart(watchers[gpu := watcher])
  {
    forall k | k in watchers ensures HandlesOf(watchers[k].groups) !! HandlesOf(watcher.groups) {
      HandlesAreOwned(watchers, k);
    }
  }

  ghost function HandlesOfAll(watchers: seq<GpuWatcher>): set<Handle> {
    if watchers == [] then {} else HandlesOfAll(watchers[..|watchers| - 1]) + HandlesOf(watchers[|watchers| - 1].groups)
  }

  // ----- The client ------------------------------------------------------------------------

  class DcgmClient {
    const dcgm: Dcgm
    const fastInterval: Duration
    const profilingInterval: Duration
    const operationalInterval: Duration
    const reliabilityInterval: Duration
    const lists: FieldLists
    var devices: map<nat, GpuInfo>
    var watchers: Watchers
    /** The watchers and their groups. */
    ghost var Repr: set<object>

    /** The handles in use are exactly those of the watchers. */
    ghost predicate Valid()
      reads this, dcgm
    {
      dcgm.Valid() && Apart(watchers) && dcgm.InUse() == OwnedBy(watchers)
    }

    ghost predicate Framed()
      reads this
    {
      forall gpu :: gpu in watchers ==> watchers[gpu] in Repr && forall g :: g in watchers[gpu].groups ==> g in Repr
    }

    ghost function Engine(): Sampling.Engine
    {
      Sampling.Engine(dcgm.verdict, Intervals(fastInterval, profilingInterval, operationalInterval,
                                              reliabilityInterval), lists)
    }

    /** What the client knows and holds, without the objects. */
    ghost function View(): ClientView
      requires Framed()
      reads this, dcgm, Repr
    {
      ClientView(devices, map gpu | gpu in watchers :: watchers[gpu].View(), dcgm.attempts)
    }

    constructor (dcgm: Dcgm, scrape: Duration, profiling: Duration, operational: Duration, reliability: Duration)
      requires dcgm.Valid() && dcgm.live == {}
      ensures Valid() && Framed() && this.dcgm == dcgm && watchers == map[] && devices == map[] && Repr == {}
      ensures lists == StandardLists() && fastInterval == DurationOrDefault(scrape, DEFAULT_SCRAPE_INTERVAL)
      ensures profilingInterval == DurationOrDefault(profiling, DEFAULT_PROFILING_INTERVAL)
      ensures operationalInterval == DurationOrDefault(operational, DEFAULT_OPERATIONAL_INTERVAL)
      ensures reliabilityInterval == DurationOrDefault(reliability, DEFAULT_RELIABILITY_INTERVAL)
    {
      this.dcgm, lists := dcgm, StandardLists();
      fastInterval := DurationOrDefault(scrape, DEFAULT_SCRAPE_INTERVAL);
      profilingInterval := DurationOrDefault(profiling, DEFAULT_PROFILING_INTERVAL);
      operationalInterval := DurationOrDefault(operational, DEFAULT_OPERATIONAL_INTERVAL);
      reliabilityInterval := DurationOrDefault(reliability, DEFAULT_RELIABILITY_INTERVAL);
      devices, watchers, Repr := map[], map[], {};
    }

    /** Creates a subscription, or nothing at all: whichever call fails, no new handle stays in use. */
    method CreateWatcher(gpuId: nat, kind: string, fields: seq<FieldId>, interval: Duration, now: Time)
      returns (watcher: FieldWatcher?)
      requires dcgm.Valid()
      modifies dcgm
      ensures dcgm.Valid() && dcgm.attempts == old(dcgm.attempts) + (if fields == [] then 0 else 1)
      ensures watcher != null <==> fields != [] && OracleOf(dcgm.verdict, gpuId, interval)(old(dcgm.attempts), fields)
      ensures watcher == null ==> dcgm.InUse() == old(dcgm.InUse())
      ensures watcher != null ==>
                && fresh(watcher) && watcher.kind == kind && watcher.fields == fields && watcher.interval == interval
                && watcher.since == now - interval && watcher.lastPoll == ZERO_TIME
                && watcher.Handles() !! old(dcgm.live)
                && dcgm.InUse() == old(dcgm.InUse()) + watcher.Handles()
    {
      if fields == [] {
        return null;
      }
      var verdict := dcgm.NextVerdict(gpuId, fields, interval);
      if verdict.NoFieldGroup? {
        return null;
      }
      var fieldGroupId := dcgm.FieldGroupCreate();
      if verdict.NoGroup? {
        var _ := dcgm.Destroy(FieldGroupHandle(fieldGroupId));
        return null;
      }
      var groupId := dcgm.CreateGroup();
      if verdict.NotAdded? || verdict.NotWatched? {
        var _ := dcgm.Destroy(GroupHandle(groupId));
        var _ := dcgm.Destroy(FieldGroupHandle(fieldGroupId));
        return null;
      }
      watcher := new FieldWatcher(kind, fields, fieldGroupId, groupId, interval, now - interval);
    }

    method DestroyFieldWatcher(watcher: FieldWatcher)
      requires dcgm.Valid()
      modifies dcgm`live, dcgm`leaked
      ensures dcgm.Valid() && dcgm.InUse() == old(dcgm.InUse()) - watcher.Handles()
    {
      var _ := dcgm.Destroy(GroupHandle(watcher.groupId));
      var _ := dcgm.Destroy(FieldGroupHandle(watcher.fieldGroupId));
    }

    method DestroyWatcher(watcher: GpuWatcher)
      requires dcgm.Valid()
      modifies dcgm`live, dcgm`leaked
      ensures dcgm.Valid() && dcgm.InUse() == old(dcgm.InUse()) - HandlesOf(watcher.groups)
    {
      var groups := watcher.groups;
      for i := 0 to |groups|
        invariant dcgm.Valid() && dcgm.InUse() == old(dcgm.InUse()) - HandlesOf(groups[..i])
      {
        DestroyFieldWatcher(groups[i]);
        assert groups[..i + 1][..i] == groups[..i];
      }
      assert groups[..|groups|] == groups;
    }

    /** addBatch: the search of Negotiation, with a probe created and destroyed for each attempt. */
    method AddBatch(gpuId: nat, kind: string, fields: seq<FieldId>, batch: seq<FieldId>, interval: Duration, now: Time)
      returns (result: seq<FieldId>)
      requires dcgm.Valid()
      modifies dcgm
      ensures dcgm.Valid() && dcgm.InUse() == old(dcgm.InUse())
      ensures Negotiation.Outcome(result, dcgm.attempts)
              == Negotiation.Bisect(OracleOf(dcgm.verdict, gpuId, interval), old(dcgm.attempts), fields, batch)
      decreases |batch|
    {
      if |batch| == 0 {
        return fields;
      }
      var trialFields := AppendFields(fields, batch);
      AppendedBasics(fields, batch);
      assert batch[0] in Elements(trialFields);
      var probe := CreateWatcher(gpuId, kind + "-probe", trialFields, interval, now);
      if probe != null {
        DestroyFieldWatcher(probe);
        return trialFields;
      }
      if |batch| == 1 {
        return fields;
      }
      var middle := |batch| / 2;
      result := AddBatch(gpuId, kind, fields, batch[..middle], interval, now);
      result := AddBatch(gpuId, kind, result, batch[middle..], interval, now);
    }

    method WatchableOptionalFields(gpuId: nat, kind: string, required: seq<FieldId>, candidates: seq<FieldId>,
                                   interval: Duration, now: Time)
      returns (fields: seq<FieldId>)
      requires dcgm.Valid()
      modifies dcgm
      ensures dcgm.Valid() && dcgm.InUse() == old(dcgm.InUse())
      ensures Negotiation.Outcome(fields, dcgm.attempts)
              == Negotiation.Watchable(OracleOf(dcgm.verdict, gpuId, interval), old(dcgm.attempts), required,
                                       candidates)
    {
      fields := AppendFields([], required);
      fields := AddBatch(gpuId, kind, fields, candidates, interval, now);
    }

    /** addOptionalGroup: negotiates an optional group and, when fields remain, subscribes to them. */
    method AddOptionalGroup(gpuId: nat, kind: string, candidates: seq<FieldId>, interval: Duration, now: Time,
                            groups: seq<FieldWatcher>, ghost inUse: set<Handle>)
      returns (result: seq<FieldWatcher>)
      requires dcgm.Valid() && InProgress(groups, inUse) && Unpolled(groups, now)
      modifies dcgm
      ensures dcgm.Valid() && InProgress(result, inUse) && Unpolled(result, now) && groups <= result
      ensures forall i :: |groups| <= i < |result| ==> fresh(result[i])
      ensures PlanOf(result) == NegotiateGroup(dcgm.verdict, gpuId, old(PlanOf(groups)), kind, [], candidates, interval)
    {
      var fields := WatchableOptionalFields(gpuId, kind, [], candidates, interval, now);
      result := groups;
      if |fields| != 0 {
        result := AppendGroup(gpuId, kind, fields, interval, now, groups, inUse);
      }
    }

    method AppendGroup(gpuId: nat, kind: string, fields: seq<FieldId>, interval: Duration, now: Time,
                       groups: seq<FieldWatcher>, ghost inUse: set<Handle>)
      returns (result: seq<FieldWatcher>)
      requires dcgm.Valid() && InProgress(groups, inUse) && Unpolled(groups, now)
      modifies dcgm
      ensures dcgm.Valid() && InProgress(result, inUse) && Unpolled(result, now) && groups <= result
      ensures |result| <= |groups| + 1 && (|result| == |groups| + 1 ==> fresh(result[|groups|]))
      ensures PlanOf(result) == Subscribe(dcgm.verdict, gpuId, old(PlanOf(groups)), GroupSpec(kind, fields, interval))
    {
      result := groups;
      var group := CreateWatcher(gpuId, kind, fields, interval, now);
      if group != null {
        GroupJoins(groups, group, now, inUse);
        GroupAppended(groups, group);
        result := groups + [group];
      }
    }

    lemma GroupJoins(groups: seq<FieldWatcher>, group: FieldWatcher, now: Time, inUse: set<Handle>)
      requires Distinct(groups) && group !in groups && HandlesOf(groups) !! inUse && group.Handles() !! inUse
      requires dcgm.InUse() == inUse + HandlesOf(groups) + group.Handles()
      requires Unpolled(groups, now) && group.View() == NewGroup(group.Spec(), now)
      ensures InProgress(groups + [group], inUse) && Unpolled(groups + [group], now)
    {
      GroupAppended(groups, group);
    }

    /** The groups made so far and the attempts it took. */
    ghost function PlanOf(groups: seq<FieldWatcher>): Plan
      reads dcgm
    {
      Plan(SpecsOf(groups), dcgm.attempts)
    }

    /** Groups that were subscribed to now and have not been polled. */
    ghost predicate Unpolled(groups: seq<FieldWatcher>, now: Time)
      reads groups
    {
      forall i :: 0 <= i < |groups| ==> groups[i].View() == NewGroup(groups[i].Spec(), now)
    }

    lemma UnpolledViews(groups: seq<FieldWatcher>, now: Time)
      requires Unpolled(groups, now)
      ensures Views(groups) == NewGroups(SpecsOf(groups), now)
    {
    }

    /** A watcher under construction: its handles are new, and the only ones in use besides `inUse`. */
    ghost predicate InProgress(groups: seq<FieldWatcher>, inUse: set<Handle>)
      reads dcgm
    {
      && Distinct(groups)
      && HandlesOf(groups) !! inUse
      && dcgm.InUse() == inUse + HandlesOf(groups)
    }

    /** The groups of a new watcher: the fast one first, without which there is none, then the optional ones. */
    method CreateGroups(gpuId: nat, metricGroups: Option<seq<seq<FieldId>>>, now: Time, ghost inUse: set<Handle>)
      returns (groups: seq<FieldWatcher>)
      requires dcgm.Valid() && dcgm.InUse() == inUse
      modifies dcgm
      ensures dcgm.Valid() && InProgress(groups, inUse) && Unpolled(groups, now)
      ensures forall i :: 0 <= i < |groups| ==> fresh(groups[i])
      ensures PlanOf(groups) == PlanWatcher(Engine(), gpuId, metricGroups, old(dcgm.attempts))
    {
      var fast := WatchableOptionalFields(gpuId, "fast", lists.fastRequired, lists.fastOptional, fastInterval, now);
      groups := AppendGroup(gpuId, "fast", fast, fastInterval, now, [], inUse);
      assert SpecsOf([]) == [];
      assert PlanOf(groups) == PlanFast(Engine(), gpuId, old(dcgm.attempts));
      if |groups| != 0 {
        groups := AddOptionalGroups(gpuId, metricGroups, now, groups, inUse);
      }
    }

    method AddOptionalGroups(gpuId: nat, metricGroups: Option<seq<seq<FieldId>>>, now: Time,
                             fastGroup: seq<FieldWatcher>, ghost inUse: set<Handle>)
      returns (groups: seq<FieldWatcher>)
      requires dcgm.Valid() && InProgress(fastGroup, inUse) && Unpolled(fastGroup, now)
      modifies dcgm
      ensures dcgm.Valid() && InProgress(groups, inUse) && Unpolled(groups, now) && fastGroup <= groups
      ensures forall i :: |fastGroup| <= i < |groups| ==> fresh(groups[i])
      ensures PlanOf(groups) == PlanOptional(Engine(), gpuId, metricGroups, old(PlanOf(fastGroup)))
    {
      groups := AddOptionalGroup(gpuId, "operational", lists.operational, operationalInterval, now, fastGroup, inUse);
      groups := AddOptionalGroup(gpuId, "profiling", lists.legacyRates, profilingInterval, now, groups, inUse);
      assert fastGroup <= groups && forall i :: |fastGroup| <= i < |groups| ==> fresh(groups[i]);
      groups := AddOptionalGroup(gpuId, "reliability", lists.reliability, reliabilityInterval, now, groups, inUse);
      assert fastGroup <= groups && forall i :: |fastGroup| <= i < |groups| ==> fresh(groups[i]);
      groups := AddProfilingGroup(gpuId, metricGroups, now, groups, inUse);
    }

    /** supportedProfilingFields and the group for them. */
    method AddProfilingGroup(gpuId: nat, metricGroups: Option<seq<seq<FieldId>>>, now: Time,
                             groups: seq<FieldWatcher>, ghost inUse: set<Handle>)
      returns (result: seq<FieldWatcher>)
      requires dcgm.Valid() && InProgress(groups, inUse) && Unpolled(groups, now)
      modifies dcgm
      ensures dcgm.Valid() && InProgress(result, inUse) && Unpolled(result, now) && groups <= result
      ensures forall i :: |groups| <= i < |result| ==> fresh(result[i])
      ensures PlanOf(result) == PlanProfiling(Engine(), gpuId, metricGroups, old(PlanOf(groups)))
    {
      result := groups;
      if metricGroups.Some? {
        var prof := SelectBestProfilingFields(lists.prof, metricGroups.value);
        if |prof| > 0 {
          result := AppendGroup(gpuId, "profiling", prof, profilingInterval, now, groups, inUse);
        }
      }
    }

    method EnsureWatcher(gpuId: nat, metricGroups: Option<seq<seq<FieldId>>>, now: Time) returns (watcher: GpuWatcher?)
      requires Valid() && Framed()
      modifies this`watchers, this`Repr, dcgm
      ensures Valid() && Framed() && fresh(Repr - old(Repr))
      ensures if gpuId in watchers then watcher == watchers[gpuId] else watcher == null
      ensures View() == Ensured(Engine(), old(View()), gpuId, metricGroups, now)
    {
      if gpuId in watchers {
        return watchers[gpuId];
      }
      watcher := MakeWatcher(gpuId, metricGroups, now);
    }

    method MakeWatcher(gpuId: nat, metricGroups: Option<seq<seq<FieldId>>>, now: Time) returns (watcher: GpuWatcher?)
      requires Valid() && Framed() && gpuId !in watchers
      modifies this`watchers, this`Repr, dcgm
      ensures Valid() && Framed() && fresh(Repr - old(Repr))
      ensures watchers == if watcher == null then old(watchers) else old(watchers)[gpuId := watcher]
      ensures View() == Ensured(Engine(), old(View()), gpuId, metricGroups, now)
    {
      var groups := StartGroups(gpuId, metricGroups, now);
      if |groups| == 0 {
        return null;
      }
      watcher := AddWatcher(gpuId, groups, now, OwnedBy(watchers));
      ghost var added: set<object> := {watcher} + GroupObjects(groups);
      assert fresh(added) && Repr - old(Repr) <= added;
    }

    method StartGroups(gpuId: nat, metricGroups: Option<seq<seq<FieldId>>>,
                       now: Time) returns (groups: seq<FieldWatcher>)
      requires Valid() && Framed()
      modifies dcgm
      ensures dcgm.Valid() && InProgress(groups, OwnedBy(watchers)) && Unpolled(groups, now)
      ensures fresh(GroupObjects(groups))
      ensures PlanOf(groups) == PlanWatcher(Engine(), gpuId, metricGroups, old(dcgm.attempts))
      ensures View() == old(View()).(attempts := dcgm.attempts)
    {
      groups := CreateGroups(gpuId, metricGroups, now, dcgm.InUse());
      assert View().watchers == old(View()).watchers;
    }

    method AddWatcher(gpuId: nat, groups: seq<FieldWatcher>, now: Time,
                      ghost inUse: set<Handle>) returns (watcher: GpuWatcher)
      requires dcgm.Valid() && Apart(watchers) && Framed() && gpuId !in watchers
      requires inUse == OwnedBy(watchers) && InProgress(groups, inUse) && Unpolled(groups, now)
      modifies this`watchers, this`Repr
      ensures Valid() && Framed() && fresh(watcher) && watchers == old(watchers)[gpuId := watcher]
      ensures Repr == old(Repr) + {watcher} + GroupObjects(groups)
      ensures var view := WatcherView(NewGroups(SpecsOf(groups), now), InitialStates(lists, SpecsOf(groups)));
              View() == old(View()).(watchers := old(View()).watchers[gpuId := view])
    {
      var fieldStates := SupportedStates(groups);
      watcher := new GpuWatcher(groups, fieldStates);
      UnpolledViews(groups, now);
      Adopt(gpuId, watcher, inUse);
    }

    method Adopt(gpuId: nat, watcher: GpuWatcher, ghost inUse: set<Handle>)
      requires dcgm.Valid() && Apart(watchers) && Framed()
      requires gpuId !in watchers && forall k :: k in watchers ==> watchers[k] != watcher
      requires inUse == OwnedBy(watchers) && InProgress(watcher.groups, inUse)
      modifies this`watchers, this`Repr
      ensures Valid() && Framed() && watchers == old(watchers)[gpuId := watcher]
      ensures Repr == old(Repr) + {watcher} + GroupObjects(watcher.groups)
      ensures View() == old(View()).(watchers := old(View()).watchers[gpuId := watcher.View()])
    {
      AddedHandles(watchers, gpuId, watcher);
      Register(gpuId, watcher);
    }

    method Register(gpuId: nat, watcher: GpuWatcher)
      requires Framed()
      modifies this`watchers, this`Repr
      ensures Framed() && watchers == old(watchers)[gpuId := watcher]
      ensures Repr == old(Repr) + {watcher} + GroupObjects(watcher.groups)
      ensures View() == old(View()).(watchers := old(View()).watchers[gpuId := watcher.View()])
    {
      ghost var before := View();
      watchers := watchers[gpuId := watcher];
      Repr := Repr + {watcher} + GroupObjects(watcher.groups);
      assert View().watchers == before.watchers[gpuId := watcher.View()];
    }

    /** The initial states: every monitored field unseen, and the fields of the groups supported. */
    method SupportedStates(groups: seq<FieldWatcher>) returns (fieldStates: FieldStates)
      ensures fieldStates == InitialStates(lists, SpecsOf(groups))
    {
      var monitored := MonitoredFields(lists);
      fieldStates := UnseenStates(monitored);
      ghost var watched: set<FieldId> := {};
      for i := 0 to |groups|
        invariant watched == WatchedIn(SpecsOf(groups[..i]))
        invariant StatesOf(fieldStates, lists.Monitored() + watched, watched)
      {
        fieldStates := MarkSupported(groups[i].fields, fieldStates, lists.Monitored(), watched);
        FieldsAppended(groups[..i], groups[i]);
        assert groups[..i + 1] == groups[..i] + [groups[i]];
        watched := watched + Elements(groups[i].fields);
      }
      assert groups[..|groups|] == groups;
    }

    /** Unseen states of these fields, of which the watched ones are supported. */
    ghost predicate StatesOf(states: FieldStates, fields: set<FieldId>, watched: set<FieldId>) {
      states.Keys == fields && forall f :: f in states ==> states[f] == UNSEEN.(supported := f in watched)
    }

    method UnseenStates(monitored: seq<FieldId>) returns (fieldStates: FieldStates)
      ensures StatesOf(fieldStates, Elements(monitored), {})
    {
      fieldStates := map[];
      for i := 0 to |monitored|
        invariant StatesOf(fieldStates, Elements(monitored[..i]), {})
      {
        fieldStates := fieldStates[monitored[i] := UNSEEN];
        assert monitored[..i + 1] == monitored[..i] + [monitored[i]];
      }
      assert monitored[..|monitored|] == monitored;
    }

    method MarkSupported(fields: seq<FieldId>, states: FieldStates, ghost monitored: set<FieldId>,
                         ghost watched: set<FieldId>)
      returns (fieldStates: FieldStates)
      requires StatesOf(states, monitored + watched, watched)
      ensures StatesOf(fieldStates, monitored + (watched + Elements(fields)), watched + Elements(fields))
    {
      fieldStates := states;
      for j := 0 to |fields|
        invariant StatesOf(fieldStates, monitored + (watched + Elements(fields[..j])), watched + Elements(fields[..j]))
      {
        var status := StatusOf(fieldStates, fields[j]);
        fieldStates := fieldStates[fields[j] := status.(supported := true)];
        assert fields[..j + 1] == fields[..j] + [fields[j]];
        assert Elements(fields[..j + 1]) == Elements(fields[..j]) + {fields[j]};
      }
      assert fields[..|fields|] == fields;
    }

    /** Drops the watchers of GPUs that are no longer listed, then destroys their handles. */
    method RemoveMissingGpus(current: seq<nat>)
      requires Valid()
      modifies this`watchers, this`devices, dcgm`live, dcgm`leaked
      ensures Valid()
      ensures watchers == old(watchers) - (old(watchers).Keys - Elements(current))
      ensures devices == old(devices) - (old(watchers).Keys - Elements(current))
    {
      var stale := DetachMissing(current);
      for i := 0 to |stale|
        modifies dcgm`live, dcgm`leaked
        invariant dcgm.Valid() && dcgm.InUse() == OwnedBy(watchers) + HandlesOfAll(stale) - HandlesOfAll(stale[..i])
      {
        DestroyWatcher(stale[i]);
        assert stale[..i + 1][..i] == stale[..i];
      }
      assert stale[..|stale|] == stale;
    }

    /** `all` is split into the handles of the watchers and those of the stale ones. */
    ghost predicate Split(stale: seq<GpuWatcher>, all: set<Handle>)
      reads this`watchers
    {
      Apart(watchers) && OwnedBy(watchers) !! HandlesOfAll(stale) && OwnedBy(watchers) + HandlesOfAll(stale) == all
    }

    method DetachMissing(current: seq<nat>) returns (stale: seq<GpuWatcher>)
      requires Apart(watchers)
      modifies this`watchers, this`devices
      ensures watchers == old(watchers) - (old(watchers).Keys - Elements(current))
      ensures devices == old(devices) - (old(watchers).Keys - Elements(current))
      ensures Split(stale, OwnedBy(old(watchers)))
    {
      stale := [];
      var todo := watchers.Keys;
      ghost var missing := watchers.Keys - Elements(current);
      ghost var gone: set<nat> := {};
      while todo != {}
        invariant todo <= watchers.Keys && gone == missing - todo
        invariant watchers == old(watchers) - gone && devices == old(devices) - gone
        invariant Split(stale, OwnedBy(old(watchers)))
      {
        var gpuId :| gpuId in todo;
        assert gpuId in missing <==> gpuId !in current;
        todo := todo - {gpuId};
        if gpuId !in current {
          LessInParts(old(watchers), gone, {gpuId});
          LessInParts(old(devices), gone, {gpuId});
          stale := Detach(gpuId, stale, OwnedBy(old(watchers)));
          gone := gone + {gpuId};
        }
      }
    }

    method Detach(gpuId: nat, stale: seq<GpuWatcher>, ghost all: set<Handle>) returns (more: seq<GpuWatcher>)
      requires Split(stale, all) && gpuId in watchers
      modifies this`watchers, this`devices
      ensures watchers == old(watchers) - {gpuId} && devices == old(devices) - {gpuId}
      ensures Split(more, all)
    {
      RemovedHandles(watchers, gpuId);
      more := stale + [watchers[gpuId]];
      assert more[..|stale|] == stale;
      watchers := watchers - {gpuId};
      devices := devices - {gpuId};
    }

    // Reading.

    method MarkAllUnavailable(fields: seq<FieldId>, states: FieldStates) returns (after: FieldStates)
      ensures after == MarkedUnavailable(states, Elements(fields))
    {
      after := states;
      MarkedOneMore(states, {}, 0);
      for i := 0 to |fields|
        invariant after == MarkedUnavailable(states, Elements(fields[..i]))
      {
        MarkedOneMore(states, Elements(fields[..i]), fields[i]);
        after := after[fields[i] := StatusOf(after, fields[i]).(available := false)];
        assert fields[..i + 1] == fields[..i] + [fields[i]];
        assert Elements(fields[..i + 1]) == Elements(fields[..i]) + {fields[i]};
      }
      assert fields[..|fields|] == fields;
    }

    method MarkStale(fields: seq<FieldId>, states: FieldStates, seen: set<FieldId>, interval: Duration, now: Time)
      returns (after: FieldStates)
      ensures after == MarkedUnavailable(states, StaleFields(states, fields, seen, interval, now))
    {
      after := states;
      ghost var stale: set<FieldId> := {};
      MarkedOneMore(states, {}, 0);
      for i := 0 to |fields|
        invariant stale == StaleFields(states, fields[..i], seen, interval, now)
        invariant after == MarkedUnavailable(states, stale)
      {
        assert fields[..i + 1] == fields[..i] + [fields[i]];
        MarkedOneMore(states, stale, fields[i]);
        if fields[i] !in seen {
          var status := StatusOf(after, fields[i]);
          if status.lastSuccess == ZERO_TIME || now - status.lastSuccess > 2 * interval {
            after := after[fields[i] := status.(available := false)];
            stale := stale + {fields[i]};
          }
        }
      }
      assert fields[..|fields|] == fields;
    }

    /** The loop over the returned values, already sorted. */
    method AbsorbValues(gpuId: nat, values: seq<RawValue>, start: History.Reading) returns (r: History.Reading)
      ensures r == AbsorbAll(start, gpuId, values)
    {
      r := start;
      for i := 0 to |values|
        invariant r == AbsorbAll(start, gpuId, values[..i])
      {
        assert values[..i + 1][..i] == values[..i];
        var raw := values[i];
        if raw.entityId != gpuId {
          continue;
        }
        var parsed := Decode(raw);
        var status := StatusOf(r.states, raw.fieldId);
        status := status.(available := parsed.Some?);
        var observations := r.observations;
        if parsed.Some? {
          status := status.(lastSuccess := UnixMicro(raw.ts));
          observations := observations + [Observation(raw.fieldId, UnixMicro(raw.ts), parsed.value)];
        }
        r := History.Reading(r.states[raw.fieldId := status], Applied(r.slots, raw), observations, r.seen
            + {raw.fieldId});
      }
      assert values[..|values|] == values;
    }

    /** One turn of the loop of readWatcher. */
    method PollFieldWatcher(gpuId: nat, watcher: GpuWatcher, group: FieldWatcher, reply: PollReply, now: Time,
                            sample: GpuSample,
                            failures: seq<string>)
      returns (after: GpuSample, failed: seq<string>)
      modifies watcher`fieldStates, group`since, group`lastPoll
      ensures after.info == sample.info && after.fields == sample.fields
      ensures Polled(group.View(), Progress(watcher.fieldStates, after.slots, after.observations, failed))
              == PollGroup(gpuId, old(group.View()),
                           Progress(old(watcher.fieldStates), sample.slots, sample.observations, failures), reply, now)
    {
      after, failed := sample, failures;
      if group.lastPoll != ZERO_TIME && now - group.lastPoll < group.interval {
        return;
      }
      group.lastPoll := now;
      match reply {
        case PollError =>
          watcher.fieldStates := MarkAllUnavailable(group.fields, watcher.fieldStates);
          failed := failed + [group.kind];
        case PollValues(values, next) =>
          if next != ZERO_TIME {
            group.since := next;
          }
          var r := AbsorbValues(gpuId, StableSort(values),
                                History.Reading(watcher.fieldStates, sample.slots, sample.observations, {}));
          watcher.fieldStates := MarkStale(group.fields, r.states, r.seen, group.interval, now);
          after := after.(slots := r.slots, observations := r.observations);
      }
    }

    method ReadWatcher(gpuId: nat, watcher: GpuWatcher, sample: GpuSample, replies: nat -> PollReply, now: Time)
      returns (after: GpuSample, failures: seq<string>)
      requires watcher.Valid()
      modifies watcher`fieldStates, watcher.groups
      ensures after.info == sample.info && after.fields == sample.fields
      ensures (Views(watcher.groups), Progress(watcher.fieldStates, after.slots, after.observations, failures))
              == PollGroups(gpuId, old(Views(watcher.groups)),
                            Progress(old(watcher.fieldStates), sample.slots, sample.observations, []), replies, now)
    {
      after, failures := sample, [];
      var groups := watcher.groups;
      ghost var views := Views(groups);
      ghost var start := Progress(watcher.fieldStates, sample.slots, sample.observations, []);
      assert Views(groups[..0]) == [];
      for i := 0 to |groups|
        invariant after.info == sample.info && after.fields == sample.fields
        invariant (Views(groups[..i]), Progress(watcher.fieldStates, after.slots, after.observations, failures))
                  == PollGroups(gpuId, views[..i], start, replies, now)
        invariant forall k :: i <= k < |groups| ==> groups[k].View() == views[k]
      {
        ghost var done := Views(groups[..i]);
        after, failures := PollFieldWatcher(gpuId, watcher, groups[i], replies(i), now, after, failures);
        assert Views(groups[..i]) == done;
        assert Views(groups[..i + 1]) == done + [groups[i].View()];
        assert views[..i + 1][..i] == views[..i];
      }
      assert views[..|groups|] == views && groups[..|groups|] == groups;
    }

    method CachedGpuInfo(gpuId: nat, reply: Option<DeviceReply>) returns (info: Option<GpuInfo>)
      modifies this`devices
      ensures devices == DevicesAfter(old(devices), gpuId, reply)
      ensures info == if gpuId in devices then Some(devices[gpuId]) else None
    {
      if gpuId in devices {
        return Some(devices[gpuId]);
      }
      if reply.None? {
        return None;
      }
      devices := devices[gpuId := InfoFrom(gpuId, reply.value)];
      return Some(devices[gpuId]);
    }

    method IdentifyGpu(gpuId: nat, reply: Option<DeviceReply>) returns (info: GpuInfo, failed: seq<Failure>)
      modifies this`devices
      ensures devices == DevicesAfter(old(devices), gpuId, reply)
      ensures info == InfoFor(old(devices), gpuId, reply) && failed == IdentityFailures(old(devices), gpuId, reply)
    {
      var cached := CachedGpuInfo(gpuId, reply);
      if cached.Some? {
        return cached.value, [];
      }
      info := UnknownInfo(gpuId);
      failed := [Failure(info, "identity")];
    }

    /** One turn of the loop of Samples. */
    method SampleGpu(gpuId: nat, position: nat, host: Host, now: Time, batch: SampleBatch) returns (after: SampleBatch)
      requires Valid() && Framed()
      modifies this`watchers, this`devices, this`Repr, dcgm, Repr
      ensures Valid() && Framed() && fresh(Repr - old(Repr))
      ensures Turn(View(), after) == SampleTurn(Engine(), Turn(old(View()), batch), gpuId, position, host, now)
    {
      var info, failed, watcher := PrepareGpu(gpuId, position, host, now);
      var sampled, failedReads := ReadGpu(gpuId, watcher, info, RepliesAt(host, position), now);
      after := Grown(batch, info, failed + failedReads, sampled);
    }

    /** Identifies a GPU and makes its watcher if it has none. */
    method PrepareGpu(gpuId: nat, position: nat, host: Host, now: Time) returns (info: GpuInfo, failed: seq<Failure>,
                      watcher: GpuWatcher?)
      requires Valid() && Framed()
      modifies this`watchers, this`devices, this`Repr, dcgm
      ensures Valid() && Framed() && fresh(Repr - old(Repr))
      ensures info == InfoFor(old(devices), gpuId, host.device(position))
      ensures failed == IdentityFailures(old(devices), gpuId, host.device(position))
      ensures if gpuId in watchers then watcher == watchers[gpuId] else watcher == null
      ensures View() == Prepared(Engine(), old(View()), gpuId, position, host, now)
    {
      info, failed := IdentifyGpu(gpuId, host.device(position));
      assert View() == old(View()).(devices := devices) by {
        assert View().watchers == old(View()).watchers;
      }
      watcher := EnsureWatcher(gpuId, host.metricGroups(position), now);
    }

    /** Reads the watcher of a GPU, if it has one. */
    method ReadGpu(gpuId: nat, watcher: GpuWatcher?, info: GpuInfo, replies: nat -> PollReply, now: Time)
      returns (sampled: seq<GpuSample>, failed: seq<Failure>)
      requires Valid() && Framed() && if gpuId in watchers then watcher == watchers[gpuId] else watcher == null
      modifies Repr
      ensures Valid() && Framed() && Repr == old(Repr)
      ensures Yield(View(), sampled, failed) == YieldOf(old(View()), gpuId, info, replies, now)
    {
      if watcher == null {
        return [], [Failure(info, "watch")];
      }
      sampled, failed := ReadKnown(gpuId, watcher, info, replies, now);
    }

    /** Reading one watcher leaves the others as they were. */
    method ReadKnown(gpuId: nat, watcher: GpuWatcher, info: GpuInfo, replies: nat -> PollReply, now: Time)
      returns (sampled: seq<GpuSample>, failed: seq<Failure>)
      requires Apart(watchers) && Framed() && gpuId in watchers && watcher == watchers[gpuId]
      modifies watcher`fieldStates, watcher.groups
      ensures Framed()
      ensures var (groups, p) := Read(gpuId, old(View()).watchers[gpuId], info, replies, now);
              && View() == old(View()).(watchers := old(View()).watchers[gpuId := WatcherView(groups, p.states)])
              && sampled == SampleFrom(info, p) && failed == FailuresOf(info, p.failures)
    {
      ghost var before := View();
      sampled, failed := ReadAmong(gpuId, watcher, info, replies, now);
      assert View().watchers == before.watchers[gpuId := watcher.View()];
    }

    method ReadAmong(gpuId: nat, watcher: GpuWatcher, info: GpuInfo, replies: nat -> PollReply, now: Time)
      returns (sampled: seq<GpuSample>, failed: seq<Failure>)
      requires Apart(watchers) && Framed() && gpuId in watchers && watcher == watchers[gpuId]
      modifies watcher`fieldStates, watcher.groups
      ensures forall k :: k in watchers && k != gpuId ==> watchers[k].View() == old(watchers[k].View())
      ensures var (groups, p) := Read(gpuId, old(watcher.View()), info, replies, now);
              && watcher.View() == WatcherView(groups, p.states)
              && sampled == SampleFrom(info, p) && failed == FailuresOf(info, p.failures)
    {
      forall k | k in watchers && k != gpuId
        ensures watchers[k] != watcher && forall g :: g in watchers[k].groups ==> g !in watcher.groups
      {
        GroupsApart(watchers, k, gpuId);
      }
      sampled, failed := ReadSample(gpuId, watcher, info, replies, now);
      forall k | k in watchers && k != gpuId ensures watchers[k].View() == old(watchers[k].View()) {
        forall i | 0 <= i < |watchers[k].groups|
          ensures watchers[k].groups[i].View() == old(watchers[k].groups[i].View())
        {
          assert watchers[k].groups[i] in watchers[k].groups;
        }
        assert Views(watchers[k].groups) == old(Views(watchers[k].groups));
      }
    }

    /** Reads a watcher into a sample; without the fast group there is none. */
    method ReadSample(gpuId: nat, watcher: GpuWatcher, info: GpuInfo, replies: nat -> PollReply, now: Time)
      returns (sampled: seq<GpuSample>, failed: seq<Failure>)
      requires watcher.Valid()
      modifies watcher`fieldStates, watcher.groups
      ensures var (groups, p) := Read(gpuId, old(watcher.View()), info, replies, now);
              && watcher.View() == WatcherView(groups, p.states)
              && sampled == SampleFrom(info, p) && failed == FailuresOf(info, p.failures)
    {
      var sample, failedGroups := ReadWatcher(gpuId, watcher, EmptySample(info), replies, now);
      var fastFailed: bool;
      failed, fastFailed := GroupFailures(info, failedGroups);
      sample := sample.(fields := watcher.fieldStates, slots := WithFreeMemory(sample.slots));
      sampled := if fastFailed then [] else [sample];
    }

    method GroupFailures(info: GpuInfo, kinds: seq<string>) returns (all: seq<Failure>, fastFailed: bool)
      ensures all == FailuresOf(info, kinds) && (fastFailed <==> "fast" in kinds)
    {
      all, fastFailed := [], false;
      for i := 0 to |kinds|
        invariant all == FailuresOf(info, kinds[..i]) && (fastFailed <==> "fast" in kinds[..i])
      {
        assert FailuresOf(info, kinds[..i + 1]) == FailuresOf(info, kinds[..i]) + [Failure(info, kinds[i])];
        all := all + [Failure(info, kinds[i])];
        if kinds[i] == "fast" {
          fastFailed := true;
        }
      }
      assert kinds[..|kinds|] == kinds;
    }

    /**
     Samples: an error when the GPUs cannot be listed. Otherwise one turn for each listed GPU, and
     then only listed GPUs are kept.
     */
    method Samples(host: Host, now: Time) returns (batch: Option<SampleBatch>)
      requires Valid() && Framed()
      modifies this`watchers, this`devices, this`Repr, dcgm, Repr
      ensures Valid() && Framed() && fresh(Repr - old(Repr))
      ensures batch.None? <==> host.devices.None?
      ensures batch.None? ==> View() == old(View()) && dcgm.live == old(dcgm.live)
      ensures View() == Collected(Engine(), old(View()), Collection(host, now)).view
      ensures batch.Some? ==> batch.value == Collected(Engine(), old(View()), Collection(host, now)).batch
    {
      if host.devices.None? {
        return None;
      }
      var result := SampleAll(host.devices.value, host, now);
      KeepListed(host.devices.value);
      batch := Some(result);
    }

    method KeepListed(gpuIds: seq<nat>)
      requires Valid() && Framed()
      modifies this`watchers, this`devices, dcgm`live, dcgm`leaked
      ensures Valid() && Framed() && View() == WithoutMissing(old(View()), gpuIds)
    {
      ghost var before, missing := View(), watchers.Keys - Elements(gpuIds);
      assert missing == before.watchers.Keys - Elements(gpuIds);
      KeepViews(gpuIds, before.watchers, missing);
    }

    /** The remaining watchers are as they were. */
    method KeepViews(gpuIds: seq<nat>, ghost before: map<nat, WatcherView>, ghost missing: set<nat>)
      requires Valid() && Framed() && before == View().watchers && missing == watchers.Keys - Elements(gpuIds)
      modifies this`watchers, this`devices, dcgm`live, dcgm`leaked
      ensures Valid() && Framed() && devices == old(devices) - missing && View().watchers == before - missing
    {
      RemoveMissingGpus(gpuIds);
      assert watchers.Keys == old(watchers).Keys - missing;
      Remaining(View().watchers, before, missing);
    }

    method SampleAll(gpuIds: seq<nat>, host: Host, now: Time) returns (batch: SampleBatch)
      requires Valid() && Framed()
      modifies this`watchers, this`devices, this`Repr, dcgm, Repr
      ensures Valid() && Framed() && fresh(Repr - old(Repr))
      ensures Turn(View(), batch) == SampleTurns(Engine(), old(View()), gpuIds, host, now)
    {
      batch := SampleBatch([], [], []);
      for i := 0 to |gpuIds|
        invariant Valid() && Framed() && fresh(Repr - old(Repr))
        invariant Turn(View(), batch) == SampleTurns(Engine(), old(View()), gpuIds[..i], host, now)
      {
        assert gpuIds[..i + 1][..i] == gpuIds[..i];
        batch := SampleGpu(gpuIds[i], i, host, now, batch);
      }
      assert gpuIds[..|gpuIds|] == gpuIds;
    }

    /** After Close no handle is in use; a reliable engine then has none live. */
    method Close()
      requires Valid()
      modifies this`watchers, dcgm`live, dcgm`leaked
      ensures Valid() && watchers == map[] && dcgm.InUse() == {} && dcgm.live == dcgm.leaked
      ensures dcgm.reliable ==> dcgm.live == {}
    {
      var rest := watchers;
      while rest != map[]
        invariant dcgm.Valid() && Apart(rest) && dcgm.InUse() == OwnedBy(rest)
        decreases |rest|
      {
        var gpuId :| gpuId in rest.Keys;
        RemovedHandles(rest, gpuId);
        DestroyWatcher(rest[gpuId]);
        assert |rest - {gpuId}| < |rest| by { assert (rest - {gpuId}).Keys == rest.Keys - {gpuId}; }
        rest := rest - {gpuId};
      }
      watchers := map[];
    }
  }

}
