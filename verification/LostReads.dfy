/**
 A run of the client in which a temperature is read and never handed over: the fast group fails in the
 same collection, and the other group has moved on.
 */
module LostReads {
  import opened FieldSets
  import opened Clock
  import opened Identity
  import opened Decoding
  import opened History
  import Negotiation
  import opened Sampling
  import opened Collections
  import opened Exporter
  import opened Timestamps
  import opened EndToEnd

  // ----- A client whose engine takes every list --------------------------------------------

  const ACCEPTS_ALL: Negotiation.Acceptance := fields => true

  const TAKES_ALL: Verdicts := (attempt, gpuId, fields, interval) => Accepted

  /** The engine takes every list; the client asks for temperatures with the operational fields. */
  ghost predicate TakesAll(engine: Engine) {
    && engine.verdict == TAKES_ALL && engine.lists.fastOptional != [] && GPU_TEMP in engine.lists.operational
    && ListedOnce(engine.lists, GPU_TEMP) && engine.intervals.operational >= 0
  }

  /** So it is for every configuration. */
  lemma EveryClientAsks(config: Config)
    ensures TakesAll(EngineFor(config, TAKES_ALL))
  {
    assert OperationalFields()[2] == GPU_TEMP;
    StandardListsAreApart(GPU_TEMP);
  }

  /** Every negotiated group has all its candidates. */
  lemma AllCandidatesTaken(kind: string, required: seq<FieldId>, candidates: seq<FieldId>, interval: Duration)
    requires candidates != []
    ensures var specs := GreedyGroup(ACCEPTS_ALL, kind, required, candidates, interval);
            && |specs| == 1 && specs[0].kind == kind && specs[0].interval == interval
            && forall f :: f in candidates ==> f in specs[0].fields
  {
    var start := Appended([], required);
    AppendedBasics([], required);
    AppendedBasics(start, candidates);
    Negotiation.GreedyTakesAll(ACCEPTS_ALL, start, candidates);
    forall f | f in candidates ensures f in Appended(start, candidates) {
      assert f in Elements(candidates);
      assert f in Elements(Appended(start, candidates));
    }
    assert candidates[0] in Appended(start, candidates);
  }

  /** The fast group comes first, and then the one that watches the temperature. */
  ghost predicate FastThenTemperature(specs: seq<GroupSpec>, intervals: Intervals) {
    && |specs| >= 2 && specs[0].kind == "fast" && specs[0].interval == intervals.fast
    && specs[1].interval == intervals.operational && GPU_TEMP in specs[1].fields
  }

  lemma PlannedGroups(engine: Engine, attempts: nat)
    requires TakesAll(engine)
    ensures var specs := PlanWatcher(engine, 0, None, attempts).specs;
            FastThenTemperature(specs, engine.intervals) && Apart(specs, GPU_TEMP, true)
  {
    var intervals, lists, accepts := engine.intervals, engine.lists, (interval: Duration) => ACCEPTS_ALL;
    SteadyWatcherIsGreedy(engine, 0, None, attempts, accepts);
    AllCandidatesTaken("fast", lists.fastRequired, lists.fastOptional, intervals.fast);
    AllCandidatesTaken("operational", [], lists.operational, intervals.operational);
    PlannedApart(engine, 0, None, attempts, GPU_TEMP);
  }

  // ----- Collections of one GPU ------------------------------------------------------------

  /** A host with one GPU, which can be identified. */
  function HostWith(reply: DeviceReply, history: (nat, nat) -> PollReply): Host {
    Host(Some([0]), position => Some(reply), position => None, history)
  }

  lemma OneListed(engine: Engine, view: ClientView, host: Host, now: Time)
    requires host.devices == Some([0]) && view.watchers.Keys <= {0}
    ensures Collected(engine, view, Collection(host, now))
        == SampleTurn(engine, Turn(view, SampleBatch([], [], [])), 0, 0, host, now)
    ensures var info := InfoFor(view.devices, 0, host.device(0));
            RoundsOfCollection(engine, view, Collection(host, now), 0)
                == [Round(EmptySample(info).slots, RepliesAt(host, 0), now)]
  {
    var gpuIds := [0];
    assert gpuIds[..0] == [] && Elements(gpuIds) == {0};
    assert SampleTurns(engine, view, gpuIds[..0], host, now) == Turn(view, SampleBatch([], [], []));
    NothingIsMissing(SampleTurns(engine, view, gpuIds, host, now).view, gpuIds);
    assert RoundsIn(engine, view, gpuIds[..0], host, now, 0) == [];
  }

  lemma NothingIsMissing(view: ClientView, gpuIds: seq<nat>)
    requires view.watchers.Keys <= Elements(gpuIds)
    ensures WithoutMissing(view, gpuIds) == view
  {
    assert view.watchers.Keys - Elements(gpuIds) == {};
  }

  // ----- The run ---------------------------------------------------------------------------

  const NOBODY_ANSWERS: (nat, nat) -> PollReply := (position, i) => PollError

  function Temperature50(): RawValue { RawValue(0, GPU_TEMP, true, 0, Int64(Some(50))) }

  function Fifty(): Observation { Observation(GPU_TEMP, UnixMicro(0), 50.0) }

  /** The second group answers with a temperature, all others fail. */
  const FAST_FAILS: (nat, nat) -> PollReply :=
    (position, i) => if i == 1 then PollValues([Temperature50()], UnixMicro(0) + 1) else PollError

  /** The client after a first collection, in which no group answers. */
  function Started(engine: Engine, reply: DeviceReply): ClientView {
    Collected(engine, FRESH, Collection(HostWith(reply, NOBODY_ANSWERS), UnixMicro(0))).view
  }

  /** The fast group, then that of the temperature; both were asked, and ask from before the epoch. */
  ghost predicate BothWaiting(groups: seq<Group>, intervals: Intervals) {
    && |groups| >= 2 && groups[0].kind == "fast" && groups[0].interval == intervals.fast
    && groups[1].interval == intervals.operational && WatchedOnlyBy(groups, GPU_TEMP, 1)
    && GPU_TEMP in groups[1].fields && groups[1].since == UnixMicro(0) - groups[1].interval
    && groups[0].lastPoll == UnixMicro(0) && groups[1].lastPoll == UnixMicro(0)
  }

  lemma NewGroupsWait(specs: seq<GroupSpec>, intervals: Intervals, after: seq<Group>)
    requires FastThenTemperature(specs, intervals) && Apart(specs, GPU_TEMP, true) && |after| == |specs|
    requires forall i :: 0 <= i < |specs| ==>
               after[i] == NextGroup(NewGroup(specs[i], UnixMicro(0)), PollError, UnixMicro(0))
    ensures BothWaiting(after, intervals)
  {
    forall j | 0 <= j < |after| && GPU_TEMP in after[j].fields ensures j == 1 {
      assert GPU_TEMP in specs[j].fields && GPU_TEMP in specs[1].fields;
    }
  }

  lemma FirstWatcher(engine: Engine, host: Host)
    requires TakesAll(engine) && host.metricGroups(0) == None
    ensures var prepared := Prepared(engine, FRESH, 0, 0, host, UnixMicro(0));
            && prepared.watchers.Keys == {0} && DevicesNamed(prepared.devices)
            && prepared.watchers[0].groups == NewGroups(PlanWatcher(engine, 0, None, 0).specs, UnixMicro(0))
  {
    PlannedGroups(engine, 0);
    InfoIsNamed(FRESH.devices, 0, host.device(0));
  }

  lemma StartedWaits(engine: Engine, reply: DeviceReply)
    requires TakesAll(engine)
    ensures var view := Started(engine, reply);
            && view.watchers.Keys == {0} && DevicesNamed(view.devices)
            && BothWaiting(view.watchers[0].groups, engine.intervals)
  {
    var host := HostWith(reply, NOBODY_ANSWERS);
    var prepared := Prepared(engine, FRESH, 0, 0, host, UnixMicro(0));
    var info := InfoFor(FRESH.devices, 0, host.device(0));
    var specs := PlanWatcher(engine, 0, None, 0).specs;
    OneListed(engine, FRESH, host, UnixMicro(0));
    FirstWatcher(engine, host);
    PlannedGroups(engine, 0);
    EveryReadMovesOn(prepared, 0, info, RepliesAt(host, 0), UnixMicro(0));
    YieldAccounts(prepared, 0, info, RepliesAt(host, 0), UnixMicro(0));
    NewGroupsWait(specs, engine.intervals, Started(engine, reply).watchers[0].groups);
  }

  /** At least an interval of both groups after the first collection. */
  predicate LongAfter(intervals: Intervals, now: Time) {
    now - UnixMicro(0) >= intervals.fast && now - UnixMicro(0) >= intervals.operational
  }

  lemma TemperatureIsGiven(g: Group, now: Time)
    requires Due(g.lastPoll, g.interval, now)
    ensures GivesObservation(g, FAST_FAILS(0, 1), 0, now, Fifty())
  {
    assert Decode(Temperature50()) == Some(50.0) && ObservationOf(Temperature50()) == [Fifty()];
    assert Temperature50() in [Temperature50()];
  }

  /** What the second collection reads: the fast group fails, the temperature is given. */
  lemma FastFailsTemperatureGiven(groups: seq<Group>, states: FieldStates, intervals: Intervals, round: Round)
    requires BothWaiting(groups, intervals) && intervals.operational >= 0 && LongAfter(intervals, round.now)
    requires forall i: nat :: round.replies(i) == FAST_FAILS(0, i)
    ensures "fast" in PollGroups(0, groups, Progress(states, round.slots, [], []), round.replies, round.now).1.failures
    ensures Fifty() in ObservedIn(0, (groups, states), round)
    ensures HonestRead(0, groups, round.replies)
  {
    var start := Progress(states, round.slots, [], []);
    assert Fails(groups[0], round.replies(0), round.now);
    FailuresAre(0, groups, start, round.replies, round.now, "fast");
    TemperatureIsGiven(groups[1], round.now);
    ReadGives(0, groups, start, round.replies, round.now, Fifty());
    assert Honours(groups[1], round.replies(1)) && ReplyWithin(round.replies(1), 0, groups[1].fields);
  }

  function Second(reply: DeviceReply, now: Time): Collection { Collection(HostWith(reply, FAST_FAILS), now) }

  /** The one read of the second collection. */
  function ReadOf(engine: Engine, reply: DeviceReply, now: Time): Round {
    Round(EmptySample(InfoFor(Started(engine, reply).devices, 0, Some(reply))).slots,
          RepliesAt(HostWith(reply, FAST_FAILS), 0), now)
  }

  /**
   The second collection of a client, at least an interval after the first: the temperature is read,
   and the batch has no sample.
   */
  lemma FailingFastGroupDropsARead(engine: Engine, reply: DeviceReply, now: Time)
    requires TakesAll(engine) && LongAfter(engine.intervals, now)
    ensures var view := Started(engine, reply);
            && 0 in view.watchers
            && RoundsOfCollection(engine, view, Second(reply, now), 0) == [ReadOf(engine, reply, now)]
            && Fifty() in ObservedIn(0, (view.watchers[0].groups, view.watchers[0].states), ReadOf(engine, reply, now))
            && Collected(engine, view, Second(reply, now)).batch.samples == []
  {
    var view, round := Started(engine, reply), ReadOf(engine, reply, now);
    StartedWaits(engine, reply);
    OneListed(engine, view, HostWith(reply, FAST_FAILS), now);
    FastFailsTemperatureGiven(view.watchers[0].groups, view.watchers[0].states, engine.intervals, round);
  }

  /**
   And no batch of the client has it later on, while the GPU stays listed and the engine gives values
   since the time it is asked for.
   */
  lemma DroppedForGood(engine: Engine, reply: DeviceReply, now: Time, later: seq<Collection>, last: Collection)
    requires TakesAll(engine) && LongAfter(engine.intervals, now)
    requires StaysListed(later, 0) && last.host.devices.Some?
    requires var view := Started(engine, reply);
             0 in view.watchers &&
             var next := Collected(engine, view, Second(reply, now)).view;
             var (groups, states) := AfterRounds(0, view.watchers[0].groups, view.watchers[0].states,
                                                 [ReadOf(engine, reply, now)]);
             HonestRounds(0, groups, states,
                          RoundsOver(engine, next, later, 0)
                              + RoundsOfCollection(engine, AfterFrom(engine, next, later), last, 0))
    ensures var next := Collected(engine, Started(engine, reply), Second(reply, now)).view;
            forall s :: s in Collected(engine, AfterFrom(engine, next, later), last).batch.samples && s.info.id == 0
              ==> Fifty() !in s.observations
  {
    var view, round := Started(engine, reply), ReadOf(engine, reply, now);
    StartedWaits(engine, reply);
    FailingFastGroupDropsARead(engine, reply, now);
    FastFailsTemperatureGiven(view.watchers[0].groups, view.watchers[0].states, engine.intervals, round);
    ReadOnceOrLost(engine, view, Second(reply, now), later, last, 0, round, 1, Fifty());
  }
}
