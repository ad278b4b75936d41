/**
 The timestamps of a field, from the engine's replies to the exporter's events: an engine that gives
 values since the time it is asked for makes the events of every GPU of the client go forward.
 */
module Timestamps {
  import opened FieldSets
  import opened Clock
  import opened Identity
  import opened Decoding
  import opened History
  import Negotiation
  import opened Sampling
  import opened Integration
  import opened Exporter
  import opened Histories

  // ----- One group for a field -------------------------------------------------------------

  /** The field is in the list of one class only. */
  predicate ListedOnce(lists: FieldLists, f: FieldId) {
    var fast := f in lists.fastRequired || f in lists.fastOptional;
    && (f in lists.operational ==> !fast)
    && (f in lists.legacyRates ==> !fast && f !in lists.operational)
    && (f in lists.reliability ==> !fast && f !in lists.operational && f !in lists.legacyRates)
    && (f in lists.prof ==> !fast && f !in lists.operational && f !in lists.legacyRates && f !in lists.reliability)
  }

  /** Every field is in one of the client's own lists at most. */
  lemma StandardListsAreApart(f: FieldId)
    ensures ListedOnce(StandardLists(), f)
  {
    IdsTellLists(f);
  }

  /** At most one of these groups has the field, and none unless it was listed so far. */
  ghost predicate Apart(specs: seq<GroupSpec>, f: FieldId, listed: bool) {
    && (forall i, j :: 0 <= i < j < |specs| && f in specs[i].fields ==> f !in specs[j].fields)
    && (forall i :: 0 <= i < |specs| && f in specs[i].fields ==> listed)
  }

  lemma SubscribedApart(verdict: Verdicts, gpuId: nat, plan: Plan, spec: GroupSpec, f: FieldId, before: bool,
                        listed: bool)
    requires Apart(plan.specs, f, before) && (f in spec.fields ==> listed) && !(before && listed)
    ensures Apart(Subscribe(verdict, gpuId, plan, spec).specs, f, before || listed)
  {
  }

  lemma NegotiatedApart(verdict: Verdicts, gpuId: nat, plan: Plan, kind: string, required: seq<FieldId>,
                        candidates: seq<FieldId>, interval: Duration, f: FieldId, before: bool)
    requires Apart(plan.specs, f, before) && !(before && (f in required || f in candidates))
    ensures Apart(NegotiateGroup(verdict, gpuId, plan, kind, required, candidates, interval).specs, f,
                  before || f in required || f in candidates)
  {
    var found := Negotiation.Watchable(OracleOf(verdict, gpuId, interval), plan.attempts, required, candidates);
    NegotiatedFieldsAreListed(verdict, gpuId, plan, required, candidates, interval);
    assert f in found.fields ==> f in Elements(found.fields);
    SubscribedApart(verdict, gpuId, plan.(attempts := found.next), GroupSpec(kind, found.fields, interval), f, before,
                    f in required || f in candidates);
  }

  /** Whatever the engine answers, a new watcher has one group at most for a field listed once. */
  lemma PlannedApart(engine: Engine, gpuId: nat, metricGroups: Option<seq<seq<FieldId>>>, attempts: nat, f: FieldId)
    requires ListedOnce(engine.lists, f)
    ensures Apart(PlanWatcher(engine, gpuId, metricGroups, attempts).specs, f, true)
  {
    var (verdict, intervals, lists) := (engine.verdict, engine.intervals, engine.lists);
    var plan := PlanFast(engine, gpuId, attempts);
    var fast := f in lists.fastRequired || f in lists.fastOptional;
    NegotiatedApart(verdict, gpuId, Plan([], attempts), "fast", lists.fastRequired, lists.fastOptional, intervals.fast,
                    f, false);
    if plan.specs != [] {
      OptionalApart(engine, gpuId, metricGroups, plan, f);
    }
  }

  lemma OptionalApart(engine: Engine, gpuId: nat, metricGroups: Option<seq<seq<FieldId>>>, plan: Plan, f: FieldId)
    requires ListedOnce(engine.lists, f)
    requires Apart(plan.specs, f, f in engine.lists.fastRequired || f in engine.lists.fastOptional)
    ensures Apart(PlanOptional(engine, gpuId, metricGroups, plan).specs, f, true)
  {
    var (verdict, intervals, lists) := (engine.verdict, engine.intervals, engine.lists);
    var fast := f in lists.fastRequired || f in lists.fastOptional;
    NegotiatedApart(verdict, gpuId, plan, "operational", [], lists.operational, intervals.operational, f, fast);
    var operational := NegotiateGroup(verdict, gpuId, plan, "operational", [], lists.operational,
                                      intervals.operational);
    var listed := fast || f in lists.operational;
    NegotiatedApart(verdict, gpuId, operational, "profiling", [], lists.legacyRates, intervals.profiling, f, listed);
    var legacy := NegotiateGroup(verdict, gpuId, operational, "profiling", [], lists.legacyRates, intervals.profiling);
    NegotiatedApart(verdict, gpuId, legacy, "reliability", [], lists.reliability, intervals.reliability, f,
                    listed || f in lists.legacyRates);
    var reliability := NegotiateGroup(verdict, gpuId, legacy, "reliability", [], lists.reliability,
                                      intervals.reliability);
    if metricGroups.Some? {
      var offer := BestOffer(lists.prof, metricGroups.value);
      BestOfferIsRequested(lists.prof, metricGroups.value);
      assert f in offer ==> f in Elements(offer);
      SubscribedApart(verdict, gpuId, reliability, GroupSpec("profiling", offer, intervals.profiling), f,
                      listed || f in lists.legacyRates || f in lists.reliability, f in lists.prof);
    }
  }

  /** At most one of the groups watches the field. */
  ghost predicate WatchedOnce(groups: seq<Group>, f: FieldId) {
    forall i, j :: 0 <= i < j < |groups| && f in groups[i].fields ==> f !in groups[j].fields
  }

  // ----- One read --------------------------------------------------------------------------

  ghost predicate NoneOf(f: FieldId, observations: seq<Observation>) {
    forall i :: 0 <= i < |observations| ==> observations[i].fieldId != f
  }

  /** The observations of the field are in time order, from `low` on and before `high`. */
  ghost predicate Ascending(observations: seq<Observation>, f: FieldId, low: Time, high: Time) {
    && (forall i :: 0 <= i < |observations| && observations[i].fieldId == f ==>
          low <= observations[i].timestamp < high)
    && (forall i, j :: 0 <= i < j < |observations| && observations[i].fieldId == f && observations[j].fieldId == f ==>
          observations[i].timestamp <= observations[j].timestamp)
  }

  lemma {:induction false} AbsorbAscends(r: Reading, gpuId: nat, values: seq<RawValue>, f: FieldId, low: Time)
    requires Sorted(values) && NoneOf(f, r.observations) && forall v :: v in values ==> low <= UnixMicro(v.ts)
    ensures var after := AbsorbAll(r, gpuId, values).observations;
            if values == [] then NoneOf(f, after)
            else Ascending(after, f, low, UnixMicro(values[|values| - 1].ts) + 1)
  {
    if values == [] {
    } else {
      var n := |values| - 1;
      AbsorbAscends(r, gpuId, values[..n], f, low);
      if n > 0 {
        assert values[n - 1].ts <= values[n].ts;
      }
    }
  }

  lemma {:induction false} AbsorbLeaves(r: Reading, gpuId: nat, values: seq<RawValue>, f: FieldId)
    requires forall v :: v in values && v.entityId == gpuId ==> v.fieldId != f
    ensures var after := AbsorbAll(r, gpuId, values).observations;
            r.observations <= after && NoneOf(f, after[|r.observations|..])
  {
    if values == [] {
    } else {
      AbsorbLeaves(r, gpuId, values[..|values| - 1], f);
    }
  }

  lemma SortedReply(values: seq<RawValue>)
    ensures Sorted(StableSort(values)) && forall v :: v in StableSort(values) <==> v in values
  {
    StableSortCommutes(OfField(0, 0), values);
    forall v ensures v in StableSort(values) <==> v in values {
      SortKeepsMembers(values, v);
    }
  }

  /** The group that watches the field gives values in order, before the time it will ask from next. */
  lemma PollAscends(gpuId: nat, g: Group, p: Progress, reply: PollReply, now: Time, f: FieldId)
    requires NoneOf(f, p.observations) && Honours(g, reply)
    ensures Ascending(PollGroup(gpuId, g, p, reply, now).progress.observations, f, g.since,
                      NextGroup(g, reply, now).since)
  {
    if Due(g.lastPoll, g.interval, now) && reply.PollValues? {
      var sorted := StableSort(reply.values);
      SortedReply(reply.values);
      AbsorbAscends(Reading(p.states, p.slots, p.observations, {}), gpuId, sorted, f, g.since);
    }
  }

  lemma PollLeaves(gpuId: nat, g: Group, p: Progress, reply: PollReply, now: Time, f: FieldId)
    requires ReplyWithin(reply, gpuId, g.fields) && f !in g.fields
    ensures var after := PollGroup(gpuId, g, p, reply, now).progress.observations;
            p.observations <= after && NoneOf(f, after[|p.observations|..])
  {
    if Due(g.lastPoll, g.interval, now) && reply.PollValues? {
      SortedReply(reply.values);
      AbsorbLeaves(Reading(p.states, p.slots, p.observations, {}), gpuId, StableSort(reply.values), f);
    }
  }

  lemma OthersBehind(observations: seq<Observation>, more: seq<Observation>, f: FieldId, low: Time, high: Time)
    requires NoneOf(f, more)
    ensures Ascending(observations, f, low, high) ==> Ascending(observations + more, f, low, high)
    ensures NoneOf(f, observations) ==> NoneOf(f, observations + more)
  {
  }

  /** A group that does not watch the field leaves its observations as they were. */
  lemma PollLeavesOrder(gpuId: nat, g: Group, p: Progress, reply: PollReply, now: Time, f: FieldId, low: Time,
                        high: Time)
    requires ReplyWithin(reply, gpuId, g.fields) && f !in g.fields
    ensures var after := PollGroup(gpuId, g, p, reply, now).progress.observations;
            && (Ascending(p.observations, f, low, high) ==> Ascending(after, f, low, high))
            && (NoneOf(f, p.observations) ==> NoneOf(f, after))
  {
    var after := PollGroup(gpuId, g, p, reply, now).progress.observations;
    PollLeaves(gpuId, g, p, reply, now, f);
    assert after == p.observations + after[|p.observations|..];
    OthersBehind(p.observations, after[|p.observations|..], f, low, high);
  }

  lemma {:induction false} PollsGiveNone(gpuId: nat, groups: seq<Group>, p: Progress, replies: nat -> PollReply,
                                         now: Time, f: FieldId)
    requires NoneOf(f, p.observations) && HonestRead(gpuId, groups, replies)
    requires forall i :: 0 <= i < |groups| ==> f !in groups[i].fields
    ensures NoneOf(f, PollGroups(gpuId, groups, p, replies, now).1.observations)
    decreases |groups|
  {
    if groups == [] {
    } else {
      var n := |groups| - 1;
      PollsGiveNone(gpuId, groups[..n], p, replies, now, f);
      PollLeavesOrder(gpuId, groups[n], PollGroups(gpuId, groups[..n], p, replies, now).1, replies(n), now, f, 0, 0);
    }
  }

  /** Only group i watches the field: what the read gives of it is in order, before the time it will be asked from. */
  lemma {:induction false} PollsAscend(gpuId: nat, groups: seq<Group>, p: Progress, replies: nat -> PollReply,
                                       now: Time, f: FieldId, i: nat)
    requires NoneOf(f, p.observations) && HonestRead(gpuId, groups, replies)
    requires i < |groups| && forall j :: 0 <= j < |groups| && f in groups[j].fields ==> j == i
    ensures Ascending(PollGroups(gpuId, groups, p, replies, now).1.observations, f, groups[i].since,
                      NextGroup(groups[i], replies(i), now).since)
    decreases |groups|
  {
    var n := |groups| - 1;
    var before := PollGroups(gpuId, groups[..n], p, replies, now).1;
    if i == n {
      PollsGiveNone(gpuId, groups[..n], p, replies, now, f);
      PollAscends(gpuId, groups[n], before, replies(n), now, f);
    } else {
      PollsAscend(gpuId, groups[..n], p, replies, now, f, i);
      PollLeavesOrder(gpuId, groups[n], before, replies(n), now, f, groups[i].since,
                      NextGroup(groups[i], replies(i), now).since);
    }
  }

  // ----- Events ----------------------------------------------------------------------------

  ghost predicate Behind(events: seq<Event>, time: Time) {
    forall k :: 0 <= k < |events| && events[k].At? ==> events[k].time < time
  }

  ghost predicate NotBefore(events: seq<Event>, time: Time) {
    forall k :: 0 <= k < |events| && events[k].At? ==> time <= events[k].time
  }

  ghost predicate OnlyCuts(events: seq<Event>) { forall k :: 0 <= k < |events| ==> events[k].Cut? }

  lemma {:induction false} EventsAscend(f: FieldId, observations: seq<Observation>, low: Time, high: Time)
    requires Ascending(observations, f, low, high)
    ensures var events := ObservedEvents(f, observations);
            Forward(events) && NotBefore(events, low) && Behind(events, high)
  {
    if observations == [] {
    } else {
      var n := |observations| - 1;
      var o := observations[n];
      if o.fieldId == f {
        assert Ascending(observations[..n], f, low, o.timestamp + 1);
        EventsAscend(f, observations[..n], low, o.timestamp + 1);
      } else {
        EventsAscend(f, observations[..n], low, high);
      }
    }
  }

  lemma {:induction false} NoEvents(f: FieldId, observations: seq<Observation>)
    requires NoneOf(f, observations)
    ensures ObservedEvents(f, observations) == []
  {
    if observations == [] {
    } else {
      NoEvents(f, observations[..|observations| - 1]);
    }
  }

  /** Later events on top of earlier ones. */
  lemma ForwardNext(events: seq<Event>, more: seq<Event>, low: Time, high: Time)
    requires Forward(events) && Behind(events, low) && low <= high
    requires Forward(more) && NotBefore(more, low) && Behind(more, high)
    ensures Forward(events + more) && Behind(events + more, high)
  {
  }

  lemma CutsChangeNothing(events: seq<Event>, more: seq<Event>)
    requires Forward(events) && OnlyCuts(more)
    ensures Forward(events + more)
    ensures forall time :: Behind(events, time) ==> Behind(events + more, time)
  {
  }

  // ----- A client and the events of a field of one GPU -------------------------------------

  /** The events go forward, and the group that watches the field asks for what comes after them. */
  ghost predicate GroupsInStep(groups: seq<Group>, f: FieldId, events: seq<Event>) {
    && Forward(events) && WatchedOnce(groups, f)
    && forall i :: 0 <= i < |groups| && f in groups[i].fields ==> Behind(events, groups[i].since)
  }

  /** The same of the watcher of a GPU; without a watcher nothing was observed. */
  ghost predicate InStep(view: ClientView, gpu: nat, f: FieldId, events: seq<Event>) {
    if gpu in view.watchers then GroupsInStep(view.watchers[gpu].groups, f, events) else OnlyCuts(events)
  }

  /** What a read adds to the events when it is delivered. */
  function EventsRead(p: Progress, f: FieldId): seq<Event> {
    ObservedEvents(f, p.observations) + Reset(p.states, f)
  }

  lemma GroupsStayInStep(groups: seq<Group>, after: seq<Group>, replies: nat -> PollReply, now: Time, f: FieldId,
                         gpu: nat)
    requires WatchedOnce(groups, f) && HonestRead(gpu, groups, replies)
    requires |after| == |groups| && forall i :: 0 <= i < |groups| ==> after[i] == NextGroup(groups[i], replies(i), now)
    ensures WatchedOnce(after, f)
    ensures forall i :: 0 <= i < |groups| ==>
              after[i].fields == groups[i].fields && groups[i].since <= after[i].since
  {
  }

  /** The events of a read on top of those before. */
  lemma ReadGoesForward(gpu: nat, groups: seq<Group>, p: Progress, replies: nat -> PollReply, now: Time, f: FieldId,
                        events: seq<Event>, i: nat)
    requires p.observations == [] && HonestRead(gpu, groups, replies) && Forward(events)
    requires i < |groups| && f in groups[i].fields && WatchedOnce(groups, f) && Behind(events, groups[i].since)
    ensures var all := events + ObservedEvents(f, PollGroups(gpu, groups, p, replies, now).1.observations);
            Forward(all) && Behind(all, NextGroup(groups[i], replies(i), now).since)
  {
    var read, next := PollGroups(gpu, groups, p, replies, now).1.observations, NextGroup(groups[i], replies(i), now);
    PollsAscend(gpu, groups, p, replies, now, f, i);
    EventsAscend(f, read, groups[i].since, next.since);
    assert Honours(groups[i], replies(i));
    ForwardNext(events, ObservedEvents(f, read), groups[i].since, next.since);
  }

  lemma ReadKeepsGroupsInStep(gpu: nat, groups: seq<Group>, p: Progress, replies: nat -> PollReply, now: Time,
                              f: FieldId, events: seq<Event>)
    requires p.observations == [] && HonestRead(gpu, groups, replies) && GroupsInStep(groups, f, events)
    ensures var (after, read) := PollGroups(gpu, groups, p, replies, now);
            && GroupsInStep(after, f, events)
            && GroupsInStep(after, f, events + ObservedEvents(f, read.observations))
  {
    var (after, read) := PollGroups(gpu, groups, p, replies, now);
    GroupsMoveAlone(gpu, groups, p, replies, now);
    GroupsStayInStep(groups, after, replies, now, f, gpu);
    if i :| 0 <= i < |groups| && f in groups[i].fields {
      ReadGoesForward(gpu, groups, p, replies, now, f, events, i);
      assert forall j :: 0 <= j < |after| && f in after[j].fields ==> j == i;
    } else {
      PollsGiveNone(gpu, groups, p, replies, now, f);
      NoEvents(f, read.observations);
      assert events + [] == events;
    }
  }

  lemma ReadInStep(view: ClientView, gpu: nat, info: GpuInfo, replies: nat -> PollReply, now: Time, f: FieldId,
                   events: seq<Event>)
    requires gpu in view.watchers && InStep(view, gpu, f, events)
    requires HonestRead(gpu, view.watchers[gpu].groups, replies)
    ensures var after := YieldOf(view, gpu, info, replies, now).view;
            && InStep(after, gpu, f, events)
            && InStep(after, gpu, f, events + EventsRead(Read(gpu, view.watchers[gpu], info, replies, now).1, f))
  {
    var groups, start := view.watchers[gpu].groups,
        Progress(view.watchers[gpu].states, EmptySample(info).slots, [], []);
    var p := Read(gpu, view.watchers[gpu], info, replies, now).1;
    ReadKeepsGroupsInStep(gpu, groups, start, replies, now, f, events);
    var read := events + ObservedEvents(f, p.observations);
    CutsChangeNothing(read, Reset(p.states, f));
    assert read + Reset(p.states, f) == events + EventsRead(p, f);
  }

  lemma PreparedInStep(engine: Engine, view: ClientView, gpuId: nat, position: nat, host: Host, now: Time, gpu: nat,
                       f: FieldId, events: seq<Event>)
    requires InStep(view, gpu, f, events) && ListedOnce(engine.lists, f)
    ensures InStep(Prepared(engine, view, gpuId, position, host, now), gpu, f, events)
  {
    if gpuId == gpu && gpu !in view.watchers {
      PlannedApart(engine, gpu, host.metricGroups(position), view.attempts, f);
    }
  }

  // ----- Turns and collections -------------------------------------------------------------

  /** The turn of the GPU gets honest answers; every other GPU goes by another identifier. */
  ghost predicate HonestTurn(engine: Engine, view: ClientView, gpuId: nat, position: nat, host: Host, now: Time,
                             gpu: nat, id: string) {
    if gpuId == gpu then
      var prepared := Prepared(engine, view, gpuId, position, host, now);
      gpu in prepared.watchers ==> HonestRead(gpu, prepared.watchers[gpu].groups, RepliesAt(host, position))
    else StableIdentifier(InfoFor(view.devices, gpuId, host.device(position))) != id
  }

  ghost predicate HonestTurns(engine: Engine, view: ClientView, gpuIds: seq<nat>, host: Host, now: Time, gpu: nat,
                              id: string) {
    gpuIds == [] ||
    (var n := |gpuIds| - 1;
     && HonestTurns(engine, view, gpuIds[..n], host, now, gpu, id)
     && HonestTurn(engine, SampleTurns(engine, view, gpuIds[..n], host, now).view, gpuIds[n], n, host, now, gpu, id))
  }

  /** The own samples of a GPU with those of a batch. */
  function With(own: seq<GpuSample>, id: string, samples: seq<GpuSample>): seq<GpuSample> {
    own + SamplesOf(id, samples)
  }

  lemma EventsOfOneMore(own: seq<GpuSample>, id: string, samples: seq<GpuSample>, sample: GpuSample, f: FieldId)
    ensures EventsOf(With(own, id, samples + [sample]), f)
        == if StableIdentifier(sample.info) == id then EventsOf(With(own, id, samples), f) + SampleEvents(sample, f)
           else EventsOf(With(own, id, samples), f)
  {
    assert (samples + [sample])[..|samples|] == samples;
    SamplesOfLast(own, id, samples + [sample]);
    EventsOfMine(With(own, id, samples), sample, id, f);
  }

  lemma TurnInStep(engine: Engine, turn: Turn, gpuId: nat, position: nat, host: Host, now: Time, gpu: nat, id: string,
                   f: FieldId, own: seq<GpuSample>)
    requires ListedOnce(engine.lists, f) && HonestTurn(engine, turn.view, gpuId, position, host, now, gpu, id)
    requires InStep(turn.view, gpu, f, EventsOf(With(own, id, turn.batch.samples), f))
    ensures var after := SampleTurn(engine, turn, gpuId, position, host, now);
            InStep(after.view, gpu, f, EventsOf(With(own, id, after.batch.samples), f))
  {
    var samples, events := turn.batch.samples, EventsOf(With(own, id, turn.batch.samples), f);
    var info, replies := InfoFor(turn.view.devices, gpuId, host.device(position)), RepliesAt(host, position);
    var prepared := Prepared(engine, turn.view, gpuId, position, host, now);
    var y := YieldOf(prepared, gpuId, info, replies, now);
    PreparedInStep(engine, turn.view, gpuId, position, host, now, gpu, f, events);
    if gpuId == gpu && gpu in prepared.watchers {
      ReadInStep(prepared, gpu, info, replies, now, f, events);
    }
    YieldAccounts(prepared, gpuId, info, replies, now);
    if y.samples == [] {
      assert samples + y.samples == samples;
    } else {
      assert y.samples == [y.samples[0]];
      EventsOfOneMore(own, id, samples, y.samples[0], f);
    }
  }

  lemma {:induction false} TurnsInStep(engine: Engine, view: ClientView, gpuIds: seq<nat>, host: Host, now: Time,
                                       gpu: nat, id: string, f: FieldId, own: seq<GpuSample>)
    requires ListedOnce(engine.lists, f) && HonestTurns(engine, view, gpuIds, host, now, gpu, id)
    requires InStep(view, gpu, f, EventsOf(own, f))
    ensures var turn := SampleTurns(engine, view, gpuIds, host, now);
            InStep(turn.view, gpu, f, EventsOf(With(own, id, turn.batch.samples), f))
  {
    if gpuIds == [] {
      assert own + [] == own;
    } else {
      var n := |gpuIds| - 1;
      TurnsInStep(engine, view, gpuIds[..n], host, now, gpu, id, f, own);
      TurnInStep(engine, SampleTurns(engine, view, gpuIds[..n], host, now), gpuIds[n], n, host, now, gpu, id, f, own);
    }
  }

  /** When the GPU is not listed, nothing in the batch goes by its identifier. */
  lemma {:induction false} NotListedNotNamed(engine: Engine, view: ClientView, gpuIds: seq<nat>, host: Host, now: Time,
                                             gpu: nat, id: string)
    requires HonestTurns(engine, view, gpuIds, host, now, gpu, id) && gpu !in gpuIds
    ensures var batch := SampleTurns(engine, view, gpuIds, host, now).batch;
            SamplesOf(id, batch.samples) == [] && id !in ByIdentifier(batch.supported)
  {
    if gpuIds == [] {
    } else {
      var n := |gpuIds| - 1;
      var before := SampleTurns(engine, view, gpuIds[..n], host, now);
      var info := InfoFor(before.view.devices, gpuIds[n], host.device(n));
      NotListedNotNamed(engine, view, gpuIds[..n], host, now, gpu, id);
      var supported := before.batch.supported;
      assert (supported + [info])[..|supported|] == supported;
      var prepared := Prepared(engine, before.view, gpuIds[n], n, host, now);
      var y := YieldOf(prepared, gpuIds[n], info, RepliesAt(host, n), now);
      YieldAccounts(prepared, gpuIds[n], info, RepliesAt(host, n), now);
      OthersAddNoSample(id, before.batch.samples, y.samples, info);
    }
  }

  lemma OthersAddNoSample(id: string, samples: seq<GpuSample>, more: seq<GpuSample>, info: GpuInfo)
    requires SamplesOf(id, samples) == [] && StableIdentifier(info) != id
    requires more == [] || (|more| == 1 && more[0].info == info)
    ensures SamplesOf(id, samples + more) == []
  {
    if more == [] {
      assert samples + more == samples;
    } else {
      assert (samples + more)[..|samples|] == samples;
    }
  }

  /** A collection keeps in step with a life that goes on, and with one that begins. */
  lemma CollectionInStep(engine: Engine, view: ClientView, gpuIds: seq<nat>, host: Host, now: Time, gpu: nat,
                         id: string, f: FieldId, own: seq<GpuSample>)
    requires ListedOnce(engine.lists, f) && HonestTurns(engine, view, gpuIds, host, now, gpu, id)
    requires InStep(view, gpu, f, EventsOf(own, f))
    requires id !in ByIdentifier(Sampled(engine, view, gpuIds, host, now).batch.supported) ==> own == []
    ensures var turn := Sampled(engine, view, gpuIds, host, now);
            InStep(turn.view, gpu, f, EventsOf(With(own, id, turn.batch.samples), f))
  {
    TurnsInStep(engine, view, gpuIds, host, now, gpu, id, f, own);
    if gpu in gpuIds {
      assert gpu in Elements(gpuIds);
    } else {
      NotListedNotNamed(engine, view, gpuIds, host, now, gpu, id);
    }
  }
}
