/**
 Whole runs of the client: collection after collection, with watchers that are made, kept and
 dropped in between.
 */
module Collections {
  import opened FieldSets
  import opened Identity
  import opened Clock
  import opened History
  import opened Sampling

  datatype Collection = Collection(host: Host, now: Time)

  const FRESH := ClientView(map[], map[], 0)

  /** One call of Samples; when the GPUs cannot be listed nothing happens. */
  function Collected(engine: Engine, view: ClientView, c: Collection): Turn {
    if c.host.devices.None? then Turn(view, SampleBatch([], [], []))
    else Sampled(engine, view, c.host.devices.value, c.host, c.now)
  }

  function After(engine: Engine, collections: seq<Collection>): ClientView {
    if collections == [] then FRESH
    else Collected(engine, After(engine, collections[..|collections| - 1]), collections[|collections| - 1]).view
  }

  // ----- Sound watchers --------------------------------------------------------------------

  function FieldsOf(groups: seq<Group>): set<FieldId> {
    if groups == [] then {} else FieldsOf(groups[..|groups| - 1]) + Elements(groups[|groups| - 1].fields)
  }

  ghost predicate SoundWatcher(watcher: WatcherView) {
    AvailabilitySound(watcher.states, FieldsOf(watcher.groups)) && FieldsOf(watcher.groups) <= watcher.states.Keys
  }

  ghost predicate SoundView(view: ClientView) {
    forall gpu :: gpu in view.watchers ==> SoundWatcher(view.watchers[gpu])
  }

  /** What the exporter may rely on: an available field is supported and has a recorded success. */
  ghost predicate SoundFields(fields: FieldStates) {
    forall f :: f in fields && fields[f].available ==> fields[f].supported && fields[f].lastSuccess != ZERO_TIME
  }

  ghost predicate SoundBatch(batch: SampleBatch) { forall s :: s in batch.samples ==> SoundFields(s.fields) }

  lemma {:induction false} FieldsOfNewGroups(specs: seq<GroupSpec>, now: Time)
    ensures FieldsOf(NewGroups(specs, now)) == WatchedIn(specs)
  {
    if specs == [] {
    } else {
      var n := |specs| - 1;
      FieldsOfNewGroups(specs[..n], now);
      assert NewGroups(specs, now)[..n] == NewGroups(specs[..n], now);
    }
  }

  lemma NewWatcherIsSound(lists: FieldLists, specs: seq<GroupSpec>, now: Time)
    ensures SoundWatcher(WatcherView(NewGroups(specs, now), InitialStates(lists, specs)))
  {
    FieldsOfNewGroups(specs, now);
  }

  lemma {:induction false} GroupFieldsIncluded(groups: seq<Group>)
    ensures forall i :: 0 <= i < |groups| ==> Elements(groups[i].fields) <= FieldsOf(groups)
  {
    if groups == [] {
    } else {
      GroupFieldsIncluded(groups[..|groups| - 1]);
    }
  }

  lemma {:induction false} SameFields(a: seq<Group>, b: seq<Group>)
    requires |a| == |b| && forall i :: 0 <= i < |a| ==> a[i].fields == b[i].fields
    ensures FieldsOf(a) == FieldsOf(b)
  {
    if a == [] {
    } else {
      SameFields(a[..|a| - 1], b[..|b| - 1]);
    }
  }

  /** The engine answers a poll with values of the polled group only. */
  ghost predicate RepliesWithin(groups: seq<Group>, gpuId: nat, replies: nat -> PollReply) {
    forall i :: 0 <= i < |groups| ==> ReplyWithin(replies(i), gpuId, groups[i].fields)
  }

  lemma ReadKeepsSound(gpuId: nat, watcher: WatcherView, info: GpuInfo, replies: nat -> PollReply, now: Time)
    requires SoundWatcher(watcher) && RepliesWithin(watcher.groups, gpuId, replies)
    ensures var (groups, p) := Read(gpuId, watcher, info, replies, now);
            SoundWatcher(WatcherView(groups, p.states)) && SoundBatch(SampleBatch(SampleFrom(info, p), [], []))
  {
    var start := Progress(watcher.states, EmptySample(info).slots, [], []);
    GroupFieldsIncluded(watcher.groups);
    AllPollsKeepSound(gpuId, watcher.groups, start, replies, now, FieldsOf(watcher.groups));
    PollsKeepFields(gpuId, watcher.groups, start, replies, now);
    SameFields(watcher.groups, PollGroups(gpuId, watcher.groups, start, replies, now).0);
  }

  // ----- Runs ------------------------------------------------------------------------------

  ghost predicate TurnWithin(view: ClientView, gpuId: nat, replies: nat -> PollReply) {
    gpuId in view.watchers ==> RepliesWithin(view.watchers[gpuId].groups, gpuId, replies)
  }

  ghost predicate TurnsWithin(engine: Engine, view: ClientView, gpuIds: seq<nat>, host: Host, now: Time) {
    gpuIds == [] ||
    (var n := |gpuIds| - 1;
     && TurnsWithin(engine, view, gpuIds[..n], host, now)
     && TurnWithin(Prepared(engine, SampleTurns(engine, view, gpuIds[..n], host, now).view, gpuIds[n], n, host, now),
                   gpuIds[n], RepliesAt(host, n)))
  }

  ghost predicate AnswersWithin(engine: Engine, collections: seq<Collection>) {
    collections == [] ||
    (var n := |collections| - 1;
     var c := collections[n];
     && AnswersWithin(engine, collections[..n])
     && (c.host.devices.Some? ==> TurnsWithin(engine, After(engine, collections[..n]), c.host.devices.value, c.host,
                                              c.now)))
  }

  lemma PreparedIsSound(engine: Engine, view: ClientView, gpuId: nat, position: nat, host: Host, now: Time)
    requires SoundView(view)
    ensures SoundView(Prepared(engine, view, gpuId, position, host, now))
  {
    NewWatcherIsSound(engine.lists, PlanWatcher(engine, gpuId, host.metricGroups(position), view.attempts).specs, now);
  }

  lemma YieldKeepsSound(view: ClientView, gpuId: nat, info: GpuInfo, replies: nat -> PollReply, now: Time)
    requires SoundView(view) && TurnWithin(view, gpuId, replies)
    ensures var y := YieldOf(view, gpuId, info, replies, now);
            SoundView(y.view) && SoundBatch(SampleBatch(y.samples, [], []))
  {
    if gpuId in view.watchers { ReadKeepsSound(gpuId, view.watchers[gpuId], info, replies, now); }
  }

  lemma TurnKeepsSound(engine: Engine, turn: Turn, gpuId: nat, position: nat, host: Host, now: Time)
    requires SoundView(turn.view) && SoundBatch(turn.batch)
    requires TurnWithin(Prepared(engine, turn.view, gpuId, position, host, now), gpuId, RepliesAt(host, position))
    ensures var after := SampleTurn(engine, turn, gpuId, position, host, now);
            SoundView(after.view) && SoundBatch(after.batch)
  {
    var view := Prepared(engine, turn.view, gpuId, position, host, now);
    PreparedIsSound(engine, turn.view, gpuId, position, host, now);
    YieldKeepsSound(view, gpuId, InfoFor(turn.view.devices, gpuId, host.device(position)), RepliesAt(host, position),
                    now);
  }

  lemma {:induction false} TurnsKeepSound(engine: Engine, view: ClientView, gpuIds: seq<nat>, host: Host, now: Time)
    requires SoundView(view) && TurnsWithin(engine, view, gpuIds, host, now)
    ensures var turn := SampleTurns(engine, view, gpuIds, host, now); SoundView(turn.view) && SoundBatch(turn.batch)
  {
    if gpuIds == [] {
    } else {
      var n := |gpuIds| - 1;
      TurnsKeepSound(engine, view, gpuIds[..n], host, now);
      TurnKeepsSound(engine, SampleTurns(engine, view, gpuIds[..n], host, now), gpuIds[n], n, host, now);
    }
  }

  /**
   In every run of the client whose replies stay within the polled groups, through watchers made,
   failed, dropped and made again: a field reported as available is supported and has succeeded.
   */
  lemma {:induction false} ReportedAvailabilityIsSound(engine: Engine, collections: seq<Collection>, c: Collection)
    requires AnswersWithin(engine, collections + [c])
    ensures SoundView(After(engine, collections)) && SoundBatch(Collected(engine, After(engine, collections), c).batch)
  {
    assert (collections + [c])[..|collections|] == collections;
    var view := After(engine, collections);
    if collections == [] {
    } else {
      var n := |collections| - 1;
      assert collections[..n] + [collections[n]] == collections;
      ReportedAvailabilityIsSound(engine, collections[..n], collections[n]);
      ViewStaysSound(engine, collections[..n], collections[n]);
    }
    if c.host.devices.Some? { TurnsKeepSound(engine, view, c.host.devices.value, c.host, c.now); }
  }

  lemma ViewStaysSound(engine: Engine, collections: seq<Collection>, c: Collection)
    requires SoundView(After(engine, collections))
    requires c.host.devices.Some? ==> TurnsWithin(engine, After(engine, collections), c.host.devices.value, c.host,
                                                  c.now)
    ensures SoundView(Collected(engine, After(engine, collections), c).view)
  {
    if c.host.devices.Some? { TurnsKeepSound(engine, After(engine, collections), c.host.devices.value, c.host, c.now); }
  }

  /** In every run of the client each batch accounts for the listed GPUs, and watchers are of listed GPUs only. */
  lemma {:induction false} EveryBatchAccounts(engine: Engine, collections: seq<Collection>, c: Collection)
    requires c.host.devices.Some?
    ensures DevicesNamed(After(engine, collections).devices)
    ensures var turn := Collected(engine, After(engine, collections), c);
            Accounts(turn.batch, c.host.devices.value) && turn.view.watchers.Keys <= Elements(c.host.devices.value)
  {
    NamesKept(engine, collections);
    CollectionAccounts(engine, After(engine, collections), c.host.devices.value, c.host, c.now);
  }

  lemma {:induction false} NamesKept(engine: Engine, collections: seq<Collection>)
    ensures DevicesNamed(After(engine, collections).devices)
  {
    if collections == [] {
    } else {
      var n := |collections| - 1;
      var c := collections[n];
      NamesKept(engine, collections[..n]);
      if c.host.devices.Some? {
        CollectionAccounts(engine, After(engine, collections[..n]), c.host.devices.value, c.host, c.now);
      }
    }
  }

  // ----- Identities over a run -------------------------------------------------------------

  /** One of the queries at these positions of the list gave this identity of the GPU. */
  ghost predicate Queried(gpuIds: seq<nat>, host: Host, gpu: nat, info: GpuInfo) {
    exists k :: 0 <= k < |gpuIds| && gpuIds[k] == gpu && host.device(k).Some?
                && info == InfoFrom(gpu, host.device(k).value)
  }

  /** An identity is kept, and a new one is queried. */
  ghost predicate Remembers(before: map<nat, GpuInfo>, after: map<nat, GpuInfo>, gpuIds: seq<nat>, host: Host,
                            gpu: nat) {
    && (gpu in before ==> gpu in after && after[gpu] == before[gpu])
    && (gpu in after && gpu !in before ==> Queried(gpuIds, host, gpu, after[gpu]))
  }

  lemma TurnRemembers(before: map<nat, GpuInfo>, devices: map<nat, GpuInfo>, gpuIds: seq<nat>, host: Host, gpu: nat)
    requires gpuIds != [] && Remembers(before, devices, gpuIds[..|gpuIds| - 1], host, gpu)
    ensures var n := |gpuIds| - 1;
            Remembers(before, DevicesAfter(devices, gpuIds[n], host.device(n)), gpuIds, host, gpu)
  {
    var n := |gpuIds| - 1;
    var after := DevicesAfter(devices, gpuIds[n], host.device(n));
    if gpu in after && gpu !in before {
      if gpu in devices {
        var k :| 0 <= k < n && gpuIds[..n][k] == gpu && host.device(k).Some?
                 && devices[gpu] == InfoFrom(gpu, host.device(k).value);
        assert gpuIds[k] == gpu;
      } else {
        assert gpuIds[n] == gpu;
      }
    }
  }

  lemma {:induction false} TurnsRemember(engine: Engine, view: ClientView, gpuIds: seq<nat>, host: Host, now: Time,
                                         gpu: nat)
    ensures Remembers(view.devices, SampleTurns(engine, view, gpuIds, host, now).view.devices, gpuIds, host, gpu)
  {
    if gpuIds == [] {
    } else {
      var n := |gpuIds| - 1;
      TurnsRemember(engine, view, gpuIds[..n], host, now, gpu);
      TurnRemembers(view.devices, SampleTurns(engine, view, gpuIds[..n], host, now).view.devices, gpuIds, host, gpu);
    }
  }

  lemma {:induction false} TurnsLeaveOthers(engine: Engine, view: ClientView, gpuIds: seq<nat>, host: Host, now: Time,
                                            gpu: nat)
    requires gpu !in gpuIds
    ensures gpu in SampleTurns(engine, view, gpuIds, host, now).view.watchers <==> gpu in view.watchers
  {
    if gpuIds == [] {
    } else {
      TurnsLeaveOthers(engine, view, gpuIds[..|gpuIds| - 1], host, now, gpu);
    }
  }

  /**
   An identity is kept as it is while its GPU is listed, learned only from a query that succeeds, and
   forgotten with the watcher of a GPU that is not listed, so that a GPU that returns is identified anew.
   */
  lemma IdentitiesFollowTheList(engine: Engine, view: ClientView, c: Collection, gpu: nat)
    requires c.host.devices.Some?
    ensures var listed, after := gpu in c.host.devices.value, Collected(engine, view, c).view.devices;
            && (gpu in view.devices && (listed || gpu !in view.watchers) ==>
                  gpu in after && after[gpu] == view.devices[gpu])
            && (gpu in view.watchers && !listed ==> gpu !in after)
            && (gpu in after && gpu !in view.devices ==> Queried(c.host.devices.value, c.host, gpu, after[gpu]))
  {
    var gpuIds := c.host.devices.value;
    TurnsRemember(engine, view, gpuIds, c.host, c.now, gpu);
    if gpu in gpuIds {
      assert gpu in Elements(gpuIds);
    } else {
      TurnsLeaveOthers(engine, view, gpuIds, c.host, c.now, gpu);
    }
  }

  // ----- One watcher over a run ------------------------------------------------------------

  /** The reads of a GPU's watcher in one collection: one for each time the GPU is listed. */
  function RoundsIn(engine: Engine, view: ClientView, gpuIds: seq<nat>, host: Host, now: Time, gpu: nat): seq<Round> {
    if gpuIds == [] then []
    else
      var n := |gpuIds| - 1;
      var devices := SampleTurns(engine, view, gpuIds[..n], host, now).view.devices;
      RoundsIn(engine, view, gpuIds[..n], host, now, gpu) +
      if gpuIds[n] == gpu then [Round(EmptySample(InfoFor(devices, gpu, host.device(n))).slots, RepliesAt(host, n),
                                      now)] else []
  }

  function AfterFrom(engine: Engine, view: ClientView, collections: seq<Collection>): ClientView {
    if collections == [] then view
    else Collected(engine, AfterFrom(engine, view, collections[..|collections| - 1]),
                   collections[|collections| - 1]).view
  }

  function RoundsOfCollection(engine: Engine, view: ClientView, c: Collection, gpu: nat): seq<Round> {
    if c.host.devices.None? then [] else RoundsIn(engine, view, c.host.devices.value, c.host, c.now, gpu)
  }

  function RoundsOver(engine: Engine, view: ClientView, collections: seq<Collection>, gpu: nat): seq<Round> {
    if collections == [] then []
    else
      var n := |collections| - 1;
      RoundsOver(engine, view, collections[..n], gpu)
      + RoundsOfCollection(engine, AfterFrom(engine, view, collections[..n]), collections[n], gpu)
  }

  /** The GPU is in every list the host gives. */
  ghost predicate StaysListed(collections: seq<Collection>, gpu: nat) {
    forall i :: 0 <= i < |collections| && collections[i].host.devices.Some? ==> gpu in collections[i].host.devices.value
  }

  /** The watcher of the GPU is what these rounds make of this one. */
  ghost predicate LivesBy(view: ClientView, gpu: nat, start: WatcherView, rounds: seq<Round>) {
    gpu in view.watchers &&
    (view.watchers[gpu].groups, view.watchers[gpu].states) == AfterRounds(gpu, start.groups, start.states, rounds)
  }

  lemma {:induction false} RoundsInParts(gpu: nat, groups: seq<Group>, states: FieldStates, a: seq<Round>,
                                         b: seq<Round>)
    ensures var (groups', states') := AfterRounds(gpu, groups, states, a);
            AfterRounds(gpu, groups, states, a + b) == AfterRounds(gpu, groups', states', b)
  {
    if b == [] {
      assert a + b == a;
    } else {
      var n := |b| - 1;
      assert (a + b)[..|a + b| - 1] == a + b[..n] && (a + b)[|a + b| - 1] == b[n];
      RoundsInParts(gpu, groups, states, a, b[..n]);
    }
  }

  lemma YieldIsRound(view: ClientView, gpuId: nat, info: GpuInfo, replies: nat -> PollReply, now: Time, gpu: nat,
                     start: WatcherView, rounds: seq<Round>)
    requires LivesBy(view, gpu, start, rounds)
    ensures LivesBy(YieldOf(view, gpuId, info, replies, now).view, gpu, start,
                    rounds + if gpuId == gpu then [Round(EmptySample(info).slots, replies, now)] else [])
  {
    if gpuId == gpu {
      var more := rounds + [Round(EmptySample(info).slots, replies, now)];
      assert more[..|rounds|] == rounds;
    } else {
      assert rounds + [] == rounds;
    }
  }

  lemma PreparedLives(engine: Engine, view: ClientView, gpuId: nat, position: nat, host: Host, now: Time, gpu: nat,
                      start: WatcherView, rounds: seq<Round>)
    requires LivesBy(view, gpu, start, rounds)
    ensures LivesBy(Prepared(engine, view, gpuId, position, host, now), gpu, start, rounds)
  {
  }

  lemma {:induction false} TurnsAreRounds(engine: Engine, view: ClientView, gpuIds: seq<nat>, host: Host, now: Time,
                                          gpu: nat, start: WatcherView, rounds: seq<Round>)
    requires LivesBy(view, gpu, start, rounds)
    ensures LivesBy(SampleTurns(engine, view, gpuIds, host, now).view, gpu, start, rounds
        + RoundsIn(engine, view, gpuIds, host, now, gpu))
  {
    if gpuIds == [] {
      assert rounds + [] == rounds;
    } else {
      var n := |gpuIds| - 1;
      var before := SampleTurns(engine, view, gpuIds[..n], host, now).view;
      TurnsAreRounds(engine, view, gpuIds[..n], host, now, gpu, start, rounds);
      var prepared := Prepared(engine, before, gpuIds[n], n, host, now);
      var info := InfoFor(before.devices, gpuIds[n], host.device(n));
      var done := rounds + RoundsIn(engine, view, gpuIds[..n], host, now, gpu);
      PreparedLives(engine, before, gpuIds[n], n, host, now, gpu, start, done);
      YieldIsRound(prepared, gpuIds[n], info, RepliesAt(host, n), now, gpu, start, done);
      Associative(rounds, RoundsIn(engine, view, gpuIds[..n], host, now, gpu),
                  if gpuIds[n] == gpu then [Round(EmptySample(info).slots, RepliesAt(host, n), now)] else []);
    }
  }

  lemma CollectionIsRounds(engine: Engine, view: ClientView, c: Collection, gpu: nat, start: WatcherView,
                           rounds: seq<Round>)
    requires LivesBy(view, gpu, start, rounds) && (c.host.devices.Some? ==> gpu in c.host.devices.value)
    ensures LivesBy(Collected(engine, view, c).view, gpu, start, rounds + RoundsOfCollection(engine, view, c, gpu))
  {
    if c.host.devices.Some? {
      TurnsAreRounds(engine, view, c.host.devices.value, c.host, c.now, gpu, start, rounds);
      assert gpu in Elements(c.host.devices.value);
    } else {
      assert rounds + [] == rounds;
    }
  }

  /** While its GPU stays listed a watcher lives by its own rounds, whatever happens to the others. */
  lemma {:induction false} WatcherLivesByItsRounds(engine: Engine, view: ClientView, collections: seq<Collection>,
                                                   gpu: nat)
    requires gpu in view.watchers && StaysListed(collections, gpu)
    ensures LivesBy(AfterFrom(engine, view, collections), gpu, view.watchers[gpu],
                    RoundsOver(engine, view, collections, gpu))
  {
    if collections == [] {
    } else {
      var n := |collections| - 1;
      WatcherLivesByItsRounds(engine, view, collections[..n], gpu);
      CollectionIsRounds(engine, AfterFrom(engine, view, collections[..n]), collections[n], gpu, view.watchers[gpu],
                         RoundsOver(engine, view, collections[..n], gpu));
    }
  }

  lemma {:induction false} RoundsInAreTimed(engine: Engine, view: ClientView, gpuIds: seq<nat>, host: Host, now: Time,
                                            gpu: nat)
    requires now != ZERO_TIME
    ensures Timed(RoundsIn(engine, view, gpuIds, host, now, gpu))
  {
    if gpuIds == [] {
    } else {
      RoundsInAreTimed(engine, view, gpuIds[..|gpuIds| - 1], host, now, gpu);
    }
  }

  lemma {:induction false} RoundsAreTimed(engine: Engine, view: ClientView, collections: seq<Collection>, gpu: nat)
    requires forall i :: 0 <= i < |collections| ==> collections[i].now != ZERO_TIME
    ensures Timed(RoundsOver(engine, view, collections, gpu))
  {
    if collections == [] {
    } else {
      var n := |collections| - 1;
      var c := collections[n];
      RoundsAreTimed(engine, view, collections[..n], gpu);
      if c.host.devices.Some? {
        RoundsInAreTimed(engine, AfterFrom(engine, view, collections[..n]), c.host.devices.value, c.host, c.now, gpu);
      }
    }
  }

  /**
   In every run of the client, from any state on and while the GPU stays listed: the real polls of a
   group of its watcher are spaced by the interval, and the last of them is the one on record.
   */
  lemma ClientPollsAreRateLimited(engine: Engine, view: ClientView, collections: seq<Collection>, gpu: nat, i: nat)
    requires gpu in view.watchers && StaysListed(collections, gpu) && i < |view.watchers[gpu].groups|
    requires forall k :: 0 <= k < |collections| ==> collections[k].now != ZERO_TIME
    ensures var start, after := view.watchers[gpu], AfterFrom(engine, view, collections);
            && gpu in after.watchers && |after.watchers[gpu].groups| == |start.groups|
            && RateLimited(start.groups[i], after.watchers[gpu].groups[i],
                           PollTimes(gpu, start.groups, start.states, RoundsOver(engine, view, collections, gpu), i))
  {
    var start, rounds := view.watchers[gpu], RoundsOver(engine, view, collections, gpu);
    WatcherLivesByItsRounds(engine, view, collections, gpu);
    RoundsAreTimed(engine, view, collections, gpu);
    PollsAreRateLimited(gpu, start.groups, start.states, rounds, i);
  }

  // ----- Dropped observations --------------------------------------------------------------

  /** Observations that one of the rounds reads. */
  ghost predicate ReadInSome(gpu: nat, start: WatcherView, rounds: seq<Round>, observations: seq<Observation>) {
    exists k :: 0 <= k < |rounds|
      && observations == ObservedIn(gpu, AfterRounds(gpu, start.groups, start.states, rounds[..k]), rounds[k])
  }

  lemma ReadInMore(gpu: nat, start: WatcherView, rounds: seq<Round>, more: seq<Round>, observations: seq<Observation>)
    requires ReadInSome(gpu, start, rounds, observations)
    ensures ReadInSome(gpu, start, rounds + more, observations)
  {
    var k :| 0 <= k < |rounds| && observations == ObservedIn(gpu,
                                                             AfterRounds(gpu, start.groups, start.states, rounds[..k]),
                                                             rounds[k]);
    assert (rounds + more)[..k] == rounds[..k] && (rounds + more)[k] == rounds[k];
  }

  lemma YieldIsRead(view: ClientView, gpu: nat, info: GpuInfo, replies: nat -> PollReply, now: Time,
                    start: WatcherView, rounds: seq<Round>)
    requires LivesBy(view, gpu, start, rounds)
    ensures var y := YieldOf(view, gpu, info, replies, now);
            y.samples != [] ==>
              |y.samples| == 1 && ReadInSome(gpu, start, rounds
                  + [Round(EmptySample(info).slots, replies, now)], y.samples[0].observations)
  {
    var more := rounds + [Round(EmptySample(info).slots, replies, now)];
    assert more[..|rounds|] == rounds && more[|rounds|] == Round(EmptySample(info).slots, replies, now);
  }

  /** The samples of a GPU in a batch hold what its rounds read. */
  lemma {:induction false} SamplesAreRead(engine: Engine, view: ClientView, gpuIds: seq<nat>, host: Host, now: Time,
                                          gpu: nat, start: WatcherView, rounds: seq<Round>)
    requires LivesBy(view, gpu, start, rounds) && DevicesNamed(view.devices)
    ensures var batch := SampleTurns(engine, view, gpuIds, host, now).batch;
            forall s :: s in batch.samples && s.info.id == gpu ==>
              ReadInSome(gpu, start, rounds + RoundsIn(engine, view, gpuIds, host, now, gpu), s.observations)
  {
    if gpuIds == [] {
    } else {
      var n := |gpuIds| - 1;
      var before := SampleTurns(engine, view, gpuIds[..n], host, now);
      var done := rounds + RoundsIn(engine, view, gpuIds[..n], host, now, gpu);
      SamplesAreRead(engine, view, gpuIds[..n], host, now, gpu, start, rounds);
      TurnsAreRounds(engine, view, gpuIds[..n], host, now, gpu, start, rounds);
      TurnsAccount(engine, view, gpuIds[..n], host, now);
      LastSampleIsRead(engine, before, gpuIds[n], n, host, now, gpu, start, done);
      var more := RoundOfTurn(before.view.devices, gpuIds[n], n, host, now, gpu);
      Associative(rounds, RoundsIn(engine, view, gpuIds[..n], host, now, gpu), more);
    }
  }

  function RoundOfTurn(devices: map<nat, GpuInfo>, gpuId: nat, position: nat, host: Host, now: Time,
                       gpu: nat): seq<Round> {
    if gpuId == gpu then [Round(EmptySample(InfoFor(devices, gpu, host.device(position))).slots,
                                RepliesAt(host, position), now)] else []
  }

  lemma LastSampleIsRead(engine: Engine, before: Turn, gpuId: nat, position: nat, host: Host, now: Time, gpu: nat,
                         start: WatcherView, done: seq<Round>)
    requires LivesBy(before.view, gpu, start, done) && DevicesNamed(before.view.devices)
    requires forall s :: s in before.batch.samples && s.info.id == gpu ==> ReadInSome(gpu, start, done, s.observations)
    ensures var more := RoundOfTurn(before.view.devices, gpuId, position, host, now, gpu);
            var after := SampleTurn(engine, before, gpuId, position, host, now);
            forall s :: s in after.batch.samples && s.info.id == gpu ==>
              ReadInSome(gpu, start, done + more, s.observations)
  {
    var more := RoundOfTurn(before.view.devices, gpuId, position, host, now, gpu);
    var prepared := Prepared(engine, before.view, gpuId, position, host, now);
    var info := InfoFor(before.view.devices, gpuId, host.device(position));
    var y := YieldOf(prepared, gpuId, info, RepliesAt(host, position), now);
    InfoIsNamed(before.view.devices, gpuId, host.device(position));
    YieldAccounts(prepared, gpuId, info, RepliesAt(host, position), now);
    PreparedLives(engine, before.view, gpuId, position, host, now, gpu, start, done);
    if gpuId == gpu {
      YieldIsRead(prepared, gpu, info, RepliesAt(host, position), now, start, done);
    }
    forall s | s in before.batch.samples + y.samples && s.info.id == gpu
        ensures ReadInSome(gpu, start, done + more, s.observations) {
      if s in before.batch.samples {
        ReadInMore(gpu, start, done, more, s.observations);
      }
    }
  }

  lemma {:induction false} NamesKeptFrom(engine: Engine, view: ClientView, collections: seq<Collection>)
    requires DevicesNamed(view.devices)
    ensures DevicesNamed(AfterFrom(engine, view, collections).devices)
  {
    if collections == [] {
    } else {
      var n := |collections| - 1;
      var c := collections[n];
      NamesKeptFrom(engine, view, collections[..n]);
      if c.host.devices.Some? {
        CollectionAccounts(engine, AfterFrom(engine, view, collections[..n]), c.host.devices.value, c.host, c.now);
      }
    }
  }

  /** The rounds that follow on a first one answer for later times, and only group i watches the field. */
  ghost predicate HonestAfter(gpu: nat, start: WatcherView, first: Round, later: seq<Round>, i: nat, f: FieldId) {
    && i < |start.groups| && WatchedOnlyBy(start.groups, f, i)
    && HonestRead(gpu, start.groups, first.replies)
    && (var (groups, states) := AfterRounds(gpu, start.groups, start.states, [first]);
        HonestRounds(gpu, groups, states, later))
  }

  lemma NotReadAgain(gpu: nat, start: WatcherView, first: Round, later: seq<Round>, i: nat, o: Observation,
                     observations: seq<Observation>)
    requires HonestAfter(gpu, start, first, later, i, o.fieldId)
    requires o in ObservedIn(gpu, (start.groups, start.states), first)
    requires var (groups, states) := AfterRounds(gpu, start.groups, start.states, [first]);
             ReadInSome(gpu, WatcherView(groups, states), later, observations)
    ensures o !in observations
  {
    var (groups, states) := AfterRounds(gpu, start.groups, start.states, [first]);
    var k :| 0 <= k < |later| && observations == ObservedIn(gpu, AfterRounds(gpu, groups, states, later[..k]),
                                                            later[k]);
    NothingIsReadTwice(gpu, start.groups, start.states, first, later, i, o, k);
  }

  /**
   What a GPU's watcher reads in one collection is in no sample of the GPU in any later batch: when
   the fast group fails in that collection it is lost.
   */
  lemma ReadOnceOrLost(engine: Engine, view: ClientView, c: Collection, later: seq<Collection>, last: Collection,
                       gpu: nat, first: Round, i: nat, o: Observation)
    requires gpu in view.watchers && DevicesNamed(view.devices)
    requires c.host.devices.Some? && gpu in c.host.devices.value && RoundsOfCollection(engine, view, c, gpu) == [first]
    requires o in ObservedIn(gpu, (view.watchers[gpu].groups, view.watchers[gpu].states), first)
    requires StaysListed(later, gpu) && last.host.devices.Some?
    requires var next := Collected(engine, view, c).view;
             HonestAfter(gpu, view.watchers[gpu], first,
                         RoundsOver(engine, next, later, gpu)
                             + RoundsOfCollection(engine, AfterFrom(engine, next, later), last, gpu),
                         i, o.fieldId)
    ensures var next := Collected(engine, view, c).view;
            forall s :: s in Collected(engine, AfterFrom(engine, next, later), last).batch.samples && s.info.id == gpu
                ==> o !in s.observations
  {
    var start, next := view.watchers[gpu], Collected(engine, view, c).view;
    assert LivesBy(view, gpu, start, []);
    CollectionIsRounds(engine, view, c, gpu, start, []);
    assert [] + [first] == [first];
    var following := next.watchers[gpu];
    WatcherLivesByItsRounds(engine, next, later, gpu);
    CollectionAccounts(engine, view, c.host.devices.value, c.host, c.now);
    NamesKeptFrom(engine, next, later);
    var before, rounds := AfterFrom(engine, next, later), RoundsOver(engine, next, later, gpu);
    SamplesAreRead(engine, before, last.host.devices.value, last.host, last.now, gpu, following, rounds);
    forall s | s in Collected(engine, before, last).batch.samples && s.info.id == gpu ensures o !in s.observations {
      NotReadAgain(gpu, start, first, rounds + RoundsOfCollection(engine, before, last, gpu), i, o, s.observations);
    }
  }
}
