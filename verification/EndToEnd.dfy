/**
 The client and the exporter together: what the client hands over is what the guarantees ask for.
 */
module EndToEnd {
  import opened FieldSets
  import opened Clock
  import opened Identity
  import opened History
  import opened Sampling
  import opened Collections
  import opened Client
  import opened Model = Exporter
  import opened Integration
  import opened Runs
  import opened Isolation
  import opened Histories
  import opened Guarantees
  import opened Readiness
  import opened Publication
  import opened Timestamps
  import opened Aggregation
  import opened Decoding
  import opened Counters
  import opened SampleSlots
  import opened NamedMetrics
  import opened Service

  lemma {:induction false} SampledIsListed(samples: seq<GpuSample>, s: GpuSample)
    requires s in samples
    ensures s.info in SampledInfos(samples)
  {
    var n := |samples| - 1;
    if s != samples[n] {
      LastBehind(samples);
      SampledIsListed(samples[..n], s);
    }
  }

  lemma {:induction false} FailedIsListed(failures: seq<Failure>, f: Failure)
    requires f in failures
    ensures f.info in FailedInfos(failures)
  {
    var n := |failures| - 1;
    if f != failures[n] {
      LastBehind(failures);
      FailedIsListed(failures[..n], f);
    }
  }

  lemma {:induction false} SubsequenceElements<T>(part: seq<T>, whole: seq<T>, x: T)
    requires IsSubsequence(part, whole) && x in part
    ensures x in whole
    decreases |whole|
  {
    if part[0] == whole[0] && IsSubsequence(part[1..], whole[1..]) {
      if x != part[0] { SubsequenceElements(part[1..], whole[1..], x); }
    } else {
      SubsequenceElements(part, whole[1..], x);
    }
  }

  /** A batch of the client with distinct identifiers is well-formed, and decoded. */
  lemma ClientBatchesAreWellFormed(batch: SampleBatch, gpuIds: seq<nat>, ids: set<string>, now: Time)
    requires Accounts(batch, gpuIds) && DistinctIdentifiers(batch.supported) && Identifiers(batch.supported) <= ids
    ensures WellFormed(batch, ids) && DecodedOp(CollectBatch(now, batch))
  {
    forall s | s in batch.samples ensures s.info in batch.supported {
      SampledIsListed(batch.samples, s);
      SubsequenceElements(SampledInfos(batch.samples), batch.supported, s.info);
    }
    forall f | f in batch.failures ensures f.info in batch.supported {
      FailedIsListed(batch.failures, f);
    }
    forall info | info in batch.supported ensures !Blank(info.index) && StableIdentifier(info) in ids {
      var i :| 0 <= i < |batch.supported| && batch.supported[i] == info;
      assert StableIdentifier(info) in Identifiers(batch.supported);
    }
  }

  /** The step of the exporter's run that a collection amounts to. */
  function OpOf(engine: Engine, view: ClientView, c: Collection): Op {
    if c.host.devices.None? then CollectError else CollectBatch(c.now, Collected(engine, view, c).batch)
  }

  /** The client holds what `view` says, and the exporter is where the run `ops` leads. */
  ghost predicate At(exporter: Service.Exporter, client: DcgmClient, view: ClientView, ops: seq<Op>)
    reads exporter, exporter.metrics, exporter.window, exporter.activity, client, client.dcgm, client.Repr
  {
    && exporter.OnTrack() && client.Valid() && client.Framed()
    && {exporter, exporter.metrics, exporter.window, exporter.activity} !! client.Repr
    && client.View() == view && exporter.ops == ops
  }

  /** One collection, from the host to the series: collect and the call of Samples in it. */
  method CollectFrom(exporter: Service.Exporter, client: DcgmClient, host: Host, now: Time, ghost view: ClientView,
                     ghost ops: seq<Op>)
    requires At(exporter, client, view, ops)
    modifies exporter, exporter.metrics, exporter.window, exporter.activity
    modifies client`watchers, client`devices, client`Repr, client.dcgm, client.Repr
    ensures At(exporter, client, Collected(client.Engine(), view, Collection(host, now)).view,
               ops + [OpOf(client.Engine(), view, Collection(host, now))])
  {
    var batch := client.Samples(host, now);
    var ok := exporter.Collect(now, batch);
  }

  // ----- Client and exporter over a run ----------------------------------------------------

  /** A turn of the loop: a collection of the client, or a publication in some order of the active GPUs. */
  datatype Beat = Gather(c: Collection) | Emit(order: seq<GpuInfo>)

  function Gathered(beats: seq<Beat>): seq<Collection> {
    if beats == [] then []
    else Gathered(beats[..|beats| - 1]) + if beats[|beats| - 1].Gather? then [beats[|beats| - 1].c] else []
  }

  /** The exporter's run that the beats amount to. */
  function OpsOf(engine: Engine, beats: seq<Beat>): seq<Op> {
    if beats == [] then []
    else
      var n := |beats| - 1;
      OpsOf(engine, beats[..n]) +
      match beats[n]
      case Gather(c) => [OpOf(engine, After(engine, Gathered(beats[..n])), c)]
      case Emit(order) => [PublishWindows(order)]
  }

  // ----- The objects over a run ------------------------------------------------------------

  /** Both objects are where these beats lead. */
  ghost predicate Together(exporter: Service.Exporter, client: DcgmClient, beats: seq<Beat>)
    reads exporter, exporter.metrics, exporter.window, exporter.activity, client, client.dcgm, client.Repr
  {
    At(exporter, client, After(client.Engine(), Gathered(beats)), OpsOf(client.Engine(), beats))
  }

  lemma OneMoreBeat(engine: Engine, beats: seq<Beat>, beat: Beat)
    ensures var view := After(engine, Gathered(beats));
            && After(engine, Gathered(beats + [beat]))
                == (if beat.Gather? then Collected(engine, view, beat.c).view else view)
            && OpsOf(engine, beats + [beat]) == OpsOf(engine, beats)
                + [if beat.Gather? then OpOf(engine, view, beat.c) else PublishWindows(beat.order)]
  {
    var all := beats + [beat];
    assert all[..|all| - 1] == beats && all[|all| - 1] == beat;
    if beat.Gather? {
      assert (Gathered(beats) + [beat.c])[..|Gathered(beats)|] == Gathered(beats);
    } else {
      assert Gathered(beats) + [] == Gathered(beats);
    }
  }

  /** A new client and a new exporter, before the first beat. */
  method StartTogether(setup: Setup, config: Config, verdict: Verdicts, reliable: bool)
    returns (exporter: Service.Exporter, client: DcgmClient)
    ensures Together(exporter, client, []) && exporter.setup == setup && client.Engine() == EngineFor(config, verdict)
  {
    var dcgm := new Dcgm(verdict, reliable);
    client := new DcgmClient(dcgm, config.scrapeInterval, config.profilingInterval, config.operationalInterval,
                             config.reliabilityInterval);
    exporter := new Service.Exporter(setup);
  }

  /** The objects take a collection: they are where one more beat leads. */
  method CollectTogether(exporter: Service.Exporter, client: DcgmClient, host: Host, now: Time, ghost beats: seq<Beat>)
    requires Together(exporter, client, beats)
    modifies exporter, exporter.metrics, exporter.window, exporter.activity
    modifies client`watchers, client`devices, client`Repr, client.dcgm, client.Repr
    ensures Together(exporter, client, beats + [Gather(Collection(host, now))])
  {
    ghost var engine := client.Engine();
    CollectFrom(exporter, client, host, now, After(engine, Gathered(beats)), OpsOf(engine, beats));
    OneMoreBeat(engine, beats, Gather(Collection(host, now)));
  }

  /** The exporter publishes, in some order of the active GPUs. */
  method PublishTogether(exporter: Service.Exporter, client: DcgmClient, ghost beats: seq<Beat>)
    requires Together(exporter, client, beats)
    modifies exporter`ops, exporter.metrics, exporter.window
    ensures exists order :: Lists(order, Run(exporter.setup, OpsOf(client.Engine(), beats)).active)
                         && Together(exporter, client, beats + [Emit(order)])
  {
    exporter.PublishWindow();
    ghost var order :| Lists(order, old(exporter.activeGpus))
        && exporter.ops == old(exporter.ops) + [PublishWindows(order)];
    OneMoreBeat(client.Engine(), beats, Emit(order));
    assert Together(exporter, client, beats + [Emit(order)]);
  }

  // ----- Runs of a client ------------------------------------------------------------------

  lemma OpOfIsDecoded(engine: Engine, collections: seq<Collection>, c: Collection)
    ensures DecodedOp(OpOf(engine, After(engine, collections), c))
  {
    if c.host.devices.Some? {
      EveryBatchAccounts(engine, collections, c);
    }
  }

  /** Every observation of such a run came out of a converter. */
  lemma {:induction false} ClientRunsAreDecoded(engine: Engine, beats: seq<Beat>)
    ensures DecodedRun(OpsOf(engine, beats))
  {
    if beats == [] {
    } else {
      var n := |beats| - 1;
      ClientRunsAreDecoded(engine, beats[..n]);
      if beats[n].Gather? {
        OpOfIsDecoded(engine, Gathered(beats[..n]), beats[n].c);
      }
    }
  }

  /** The identifiers of each batch are distinct and among these; publications go through the active GPUs. */
  ghost predicate Distinguishable(setup: Setup, engine: Engine, beats: seq<Beat>, ids: set<string>) {
    beats == [] ||
    (var n := |beats| - 1;
     && Distinguishable(setup, engine, beats[..n], ids)
     && match beats[n]
        case Gather(c) =>
          var supported := Collected(engine, After(engine, Gathered(beats[..n])), c).batch.supported;
          DistinctIdentifiers(supported) && Identifiers(supported) <= ids
        case Emit(order) => Lists(order, Run(setup, OpsOf(engine, beats[..n])).active))
  }

  lemma OpOfIsWellFormed(engine: Engine, collections: seq<Collection>, c: Collection, st: State, ids: set<string>)
    requires var supported := Collected(engine, After(engine, collections), c).batch.supported;
             DistinctIdentifiers(supported) && Identifiers(supported) <= ids
    ensures WellFormedOp(st, OpOf(engine, After(engine, collections), c), ids)
  {
    if c.host.devices.Some? {
      EveryBatchAccounts(engine, collections, c);
      ClientBatchesAreWellFormed(Collected(engine, After(engine, collections), c).batch, c.host.devices.value, ids,
                                 c.now);
    }
  }

  /** Every client makes well-formed runs as long as its GPUs can be told apart. */
  lemma {:induction false} ClientRunsAreWellFormed(setup: Setup, engine: Engine, beats: seq<Beat>, ids: set<string>)
    requires Distinguishable(setup, engine, beats, ids)
    ensures WellFormedRun(setup, OpsOf(engine, beats), ids)
  {
    if beats == [] {
    } else {
      var n := |beats| - 1;
      var before := OpsOf(engine, beats[..n]);
      ClientRunsAreWellFormed(setup, engine, beats[..n], ids);
      assert OpsOf(engine, beats)[..|before|] == before;
      if beats[n].Gather? {
        OpOfIsWellFormed(engine, Gathered(beats[..n]), beats[n].c, Run(setup, before), ids);
      }
    }
  }

  // ----- What the whole promises -----------------------------------------------------------

  /** From raw values to gauges: whatever the engine answers, published values stay in the ranges of their metrics. */
  lemma ClientGaugesStayInRange(setup: Setup, engine: Engine, beats: seq<Beat>)
    ensures GaugesInBounds(Run(setup, OpsOf(engine, beats)).series)
  {
    ClientRunsAreDecoded(engine, beats);
    PublishedValuesStayInRange(setup, OpsOf(engine, beats));
  }

  /** A GPU that is active after the beats of a client whose GPUs can be told apart. */
  ghost predicate Alive(setup: Setup, engine: Engine, beats: seq<Beat>, ids: set<string>, id: string) {
    Distinguishable(setup, engine, beats, ids) && PairwiseSeparate(ids) && id in Run(setup, OpsOf(engine, beats)).active
  }

  lemma AliveIsReached(setup: Setup, engine: Engine, beats: seq<Beat>, ids: set<string>, id: string)
    requires Alive(setup, engine, beats, ids, id)
    ensures Reached(setup, OpsOf(engine, beats), ids, id)
  {
    ClientRunsAreWellFormed(setup, engine, beats, ids);
  }

  lemma ClientObservedIsCountedTime(setup: Setup, engine: Engine, beats: seq<Beat>, ids: set<string>, id: string,
                                    f: FieldId)
    requires Alive(setup, engine, beats, ids, id) && IsIntegrated(f)
    ensures var ops := OpsOf(engine, beats);
            var observed, events := CounterValue(setup, ops, id, ObservedSeconds(AggregateOf(f))),
                Events(setup, ops, id, f);
            && observed == Seconds(ObservedTime(events, setup.maxGap(f)))
            && (observed <= Seconds(Elapsed(events)) <==> Returns(events) <= Lost(events, setup.maxGap(f)))
  {
    AliveIsReached(setup, engine, beats, ids, id);
    ObservedIsCountedTime(setup, OpsOf(engine, beats), ids, id, f);
  }

  lemma {:induction false} OwnSamplesAreBatched(samples: seq<GpuSample>, id: string)
    ensures forall s :: s in SamplesOf(id, samples) ==> s in samples
  {
    if samples == [] {
    } else {
      OwnSamplesAreBatched(samples[..|samples| - 1], id);
    }
  }

  lemma {:induction false} OwnSamplesAreDecoded(setup: Setup, ops: seq<Op>, id: string)
    requires DecodedRun(ops)
    ensures forall s :: s in OwnSamples(setup, ops, id) ==> AllInRange(s.observations)
  {
    if ops == [] {
    } else {
      var n := |ops| - 1;
      OwnSamplesAreDecoded(setup, ops[..n], id);
      assert DecodedOp(ops[n]);
      if ops[n].CollectBatch? {
        OwnSamplesAreBatched(ops[n].batch.samples, id);
      }
    }
  }

  /**
   Estimated energy of a client's GPU is at most a million watts over the time there was, if its
   timestamps do not go back.
   */
  lemma ClientEnergyIsBounded(setup: Setup, engine: Engine, beats: seq<Beat>, ids: set<string>, id: string)
    requires Alive(setup, engine, beats, ids, id)
    requires Forward(Events(setup, OpsOf(engine, beats), id, POWER_USAGE))
    ensures EnergyWithin(CounterValue(setup, OpsOf(engine, beats), id, EnergyEstimated),
                         Elapsed(Events(setup, OpsOf(engine, beats), id, POWER_USAGE)))
  {
    var ops := OpsOf(engine, beats);
    AliveIsReached(setup, engine, beats, ids, id);
    ClientRunsAreDecoded(engine, beats);
    OwnSamplesAreDecoded(setup, ops, id);
    EnergyIsBounded(setup, ops, ids, id);
  }

  // ----- Times that go forward -------------------------------------------------------------

  /**
   Every turn of GPU number `gpu` gets values since the time it asks from, and no other GPU goes by
   identifier `id`.
   */
  ghost predicate HonestBeats(engine: Engine, beats: seq<Beat>, gpu: nat, id: string) {
    beats == [] ||
    (var n := |beats| - 1;
     && HonestBeats(engine, beats[..n], gpu, id)
     && match beats[n]
        case Gather(c) =>
          c.host.devices.Some? ==>
            HonestTurns(engine, After(engine, Gathered(beats[..n])), c.host.devices.value, c.host, c.now, gpu, id)
        case Emit(_) => true)
  }

  lemma GatherInStep(setup: Setup, engine: Engine, beats: seq<Beat>, c: Collection, gpu: nat, id: string, f: FieldId)
    requires ListedOnce(engine.lists, f) && HonestBeats(engine, beats + [Gather(c)], gpu, id)
    requires InStep(After(engine, Gathered(beats)), gpu, f, Events(setup, OpsOf(engine, beats), id, f))
    ensures var all := beats + [Gather(c)];
            InStep(After(engine, Gathered(all)), gpu, f, Events(setup, OpsOf(engine, all), id, f))
  {
    var all, view, before := beats + [Gather(c)], After(engine, Gathered(beats)), OpsOf(engine, beats);
    var op := OpOf(engine, view, c);
    OneMoreBeat(engine, beats, Gather(c));
    assert all[..|all| - 1] == beats && (before + [op])[..|before|] == before;
    if c.host.devices.Some? {
      var own := if Stays(Run(setup, before), op.batch.supported, id) then OwnSamples(setup, before, id) else [];
      CollectionInStep(engine, view, c.host.devices.value, c.host, c.now, gpu, id, f, own);
    }
  }

  lemma {:induction false} BeatsInStep(setup: Setup, engine: Engine, beats: seq<Beat>, gpu: nat, id: string, f: FieldId)
    requires ListedOnce(engine.lists, f) && HonestBeats(engine, beats, gpu, id)
    ensures InStep(After(engine, Gathered(beats)), gpu, f, Events(setup, OpsOf(engine, beats), id, f))
  {
    if beats == [] {
    } else {
      var n := |beats| - 1;
      BeatsInStep(setup, engine, beats[..n], gpu, id, f);
      if beats[n].Gather? {
        assert beats == beats[..n] + [Gather(beats[n].c)];
        GatherInStep(setup, engine, beats[..n], beats[n].c, gpu, id, f);
      } else {
        OneMoreBeat(engine, beats[..n], beats[n]);
        assert beats[..n] + [beats[n]] == beats;
        var before := OpsOf(engine, beats[..n]);
        assert OpsOf(engine, beats)[..|before|] == before;
      }
    }
  }

  /**
   Through watchers made, dropped and made again, reads that are lost, GPUs that leave and return: the
   events of a field never go back in time, as long as the engine gives values since the time it is
   asked for.
   */
  lemma ClientTimesGoForward(setup: Setup, engine: Engine, beats: seq<Beat>, gpu: nat, id: string, f: FieldId)
    requires engine.lists == StandardLists() && HonestBeats(engine, beats, gpu, id)
    ensures Forward(Events(setup, OpsOf(engine, beats), id, f))
  {
    StandardListsAreApart(f);
    BeatsInStep(setup, engine, beats, gpu, id, f);
  }

  /** Then no time is counted twice: observed seconds never exceed the elapsed time. */
  lemma HonestClientNeverOvercounts(setup: Setup, engine: Engine, beats: seq<Beat>, ids: set<string>, gpu: nat,
                                    id: string, f: FieldId)
    requires engine.lists == StandardLists() && HonestBeats(engine, beats, gpu, id)
    requires Alive(setup, engine, beats, ids, id) && IsIntegrated(f)
    ensures CounterValue(setup, OpsOf(engine, beats), id, ObservedSeconds(AggregateOf(f)))
        <= Seconds(Elapsed(Events(setup, OpsOf(engine, beats), id, f)))
  {
    ClientTimesGoForward(setup, engine, beats, gpu, id, f);
    AliveIsReached(setup, engine, beats, ids, id);
    ObservedIsCountedTime(setup, OpsOf(engine, beats), ids, id, f);
  }

  /** And estimated energy is at most a million watts over the elapsed time. */
  lemma HonestClientEnergyIsBounded(setup: Setup, engine: Engine, beats: seq<Beat>, ids: set<string>, gpu: nat,
                                    id: string)
    requires engine.lists == StandardLists() && HonestBeats(engine, beats, gpu, id)
    requires Alive(setup, engine, beats, ids, id)
    ensures EnergyWithin(CounterValue(setup, OpsOf(engine, beats), id, EnergyEstimated),
                         Elapsed(Events(setup, OpsOf(engine, beats), id, POWER_USAGE)))
  {
    ClientTimesGoForward(setup, engine, beats, gpu, id, POWER_USAGE);
    ClientEnergyIsBounded(setup, engine, beats, ids, id);
  }

  // ----- Values, from replies to counters --------------------------------------------------

  lemma DecodedWithinScale(a: Aggregate, value: real)
    requires IsTimed(a) && InRange(FieldOf(a), value)
    ensures 0.0 <= value <= FullScale(a)
  {
    if a.Utilization? {
      KindsOfWhole(GPU_UTIL);
    } else {
      KindsOfProfiling(FieldOf(a));
    }
  }

  /**
   In every run of a client weighted seconds, times full scale, are the integral of the utilization, or
   of the profiling share, over the counted time.
   */
  lemma ClientWeightedMeasuresValues(setup: Setup, engine: Engine, beats: seq<Beat>, ids: set<string>, id: string,
                                     a: Aggregate)
    requires Alive(setup, engine, beats, ids, id) && IsTimed(a)
    ensures var ops, f := OpsOf(engine, beats), FieldOf(a);
            FullScale(a) * CounterValue(setup, ops, id, WeightedSeconds(a))
            == Integral(Events(setup, ops, id, f), VALUE, setup.maxGap(f))
  {
    AliveIsReached(setup, engine, beats, ids, id);
    ClientRunsAreDecoded(engine, beats);
    OwnSamplesAreDecoded(setup, OpsOf(engine, beats), id);
    DecodedEventsWithinScale(OwnSamples(setup, OpsOf(engine, beats), id), a, setup.maxGap(FieldOf(a)));
    WeightedMeasuresValues(setup, OpsOf(engine, beats), ids, id, a);
  }

  lemma DecodedEventsWithinScale(samples: seq<GpuSample>, a: Aggregate, maxGap: Duration)
    requires IsTimed(a) && forall s :: s in samples ==> AllInRange(s.observations)
    ensures WithinScale(EventsOf(samples, FieldOf(a)), a, maxGap)
  {
    var events := EventsOf(samples, FieldOf(a));
    EventsInRange(samples, FieldOf(a));
    forall i | 0 <= i < |events| && Contributes(events, i, maxGap)
      ensures 0.0 <= VALUE(events[i].value) <= FullScale(a)
    {
      assert events[i] in events;
      DecodedWithinScale(a, events[i].value);
    }
  }

  // ----- Hardware counters -----------------------------------------------------------------

  /**
   What the replies gave of a field of a GPU since it last appeared or changed its labels: in every
   collection, for every turn that was delivered, the last value with an OK status, decoded.
   */
  ghost function RepliedReadings(setup: Setup, engine: Engine, beats: seq<Beat>, id: string, f: FieldId): seq<real> {
    if beats == [] then []
    else
      var n := |beats| - 1;
      var before := RepliedReadings(setup, engine, beats[..n], id, f);
      if beats[n].Emit? || beats[n].c.host.devices.None? then before
      else
        var c, view := beats[n].c, After(engine, Gathered(beats[..n]));
        (if Stays(Run(setup, OpsOf(engine, beats[..n])), Collected(engine, view, c).batch.supported, id) then before
         else [])
        + RepliedValues(engine, view, c, |c.host.devices.value|, id, f)
  }

  lemma {:induction false} SlotValuesInParts(a: seq<GpuSample>, b: seq<GpuSample>, f: FieldId)
    ensures SlotValues(a + b, f) == SlotValues(a, f) + SlotValues(b, f)
  {
    if b == [] {
      assert a + b == a;
    } else {
      var n := |b| - 1;
      assert (a + b)[..|a + b| - 1] == a + b[..n] && (a + b)[|a + b| - 1] == b[n];
      SlotValuesInParts(a, b[..n], f);
      Associative(SlotValues(a, f), SlotValues(b[..n], f), ValueIn(b[n].slots, f));
    }
  }

  lemma {:induction false} RawIsSlotValues(setup: Setup, samples: seq<GpuSample>, suffix: string, f: FieldId)
    requires setup.counters == CounterTable() && Totals(suffix, f)
    ensures RawOf(setup, samples, suffix) == SlotValues(samples, f)
  {
    if samples == [] {
    } else {
      RawIsSlotValues(setup, samples[..|samples| - 1], suffix, f);
    }
  }

  ghost predicate SlotsReplied(setup: Setup, engine: Engine, beats: seq<Beat>, id: string, f: FieldId) {
    SlotValues(OwnSamples(setup, OpsOf(engine, beats), id), f) == RepliedReadings(setup, engine, beats, id, f)
  }

  lemma GatherGivesReplied(setup: Setup, engine: Engine, beats: seq<Beat>, c: Collection, id: string, f: FieldId)
    requires OnlyRead(f) && c.host.devices.Some? && SlotsReplied(setup, engine, beats, id, f)
    ensures SlotsReplied(setup, engine, beats + [Gather(c)], id, f)
  {
    var all, view, before := beats + [Gather(c)], After(engine, Gathered(beats)), OpsOf(engine, beats);
    var op := OpOf(engine, view, c);
    OneMoreBeat(engine, beats, Gather(c));
    assert all[..|all| - 1] == beats && (before + [op])[..|before|] == before;
    var own := if Stays(Run(setup, before), op.batch.supported, id) then OwnSamples(setup, before, id) else [];
    SlotValuesInParts(own, SamplesOf(id, op.batch.samples), f);
    BatchGivesReplied(engine, view, c, id, f);
  }

  lemma OtherBeatKeepsReplied(setup: Setup, engine: Engine, beats: seq<Beat>, beat: Beat, id: string, f: FieldId)
    requires beat.Emit? || beat.c.host.devices.None?
    requires SlotsReplied(setup, engine, beats, id, f)
    ensures SlotsReplied(setup, engine, beats + [beat], id, f)
  {
    var all, before := beats + [beat], OpsOf(engine, beats);
    OneMoreBeat(engine, beats, beat);
    assert all[..|all| - 1] == beats;
    assert OpsOf(engine, all)[..|before|] == before;
  }

  lemma NextBeatGivesReplied(setup: Setup, engine: Engine, before: seq<Beat>, beat: Beat, beats: seq<Beat>, id: string,
                             f: FieldId)
    requires OnlyRead(f) && beats == before + [beat] && SlotsReplied(setup, engine, before, id, f)
    ensures SlotsReplied(setup, engine, beats, id, f)
  {
    if beat.Gather? && beat.c.host.devices.Some? {
      GatherGivesReplied(setup, engine, before, beat.c, id, f);
    } else {
      OtherBeatKeepsReplied(setup, engine, before, beat, id, f);
    }
  }

  /** The slots of a GPU's own samples hold exactly what its replies gave. */
  lemma {:induction false} OwnSlotsAreReplied(setup: Setup, engine: Engine, beats: seq<Beat>, id: string, f: FieldId)
    requires OnlyRead(f)
    ensures SlotsReplied(setup, engine, beats, id, f)
  {
    if beats == [] {
      NothingReplied(setup, engine, id, f);
    } else {
      var before, beat := beats[..|beats| - 1], beats[|beats| - 1];
      LastBehind(beats);
      OwnSlotsAreReplied(setup, engine, before, id, f);
      NextBeatGivesReplied(setup, engine, before, beat, beats, id, f);
    }
  }

  lemma NothingReplied(setup: Setup, engine: Engine, id: string, f: FieldId)
    ensures SlotsReplied(setup, engine, [], id, f)
  {
  }

  lemma {:induction false} TotalledAreNotNegative(f: FieldId, values: seq<RawValue>)
    requires IsTotalled(f) && forall v :: v in values ==> v.fieldId == f
    ensures SlotAfter(None, values).Some? ==> SlotAfter(None, values).value >= 0.0
  {
    if values == [] {
    } else {
      var n := |values| - 1;
      assert values[n] in values;
      DecodedExactly(values[n]);
      TotalledAreNotNegative(f, values[..n]);
    }
  }

  lemma RepliedAtNotNegative(engine: Engine, view: ClientView, c: Collection, n: nat, id: string, f: FieldId)
    requires c.host.devices.Some? && n < |c.host.devices.value| && IsTotalled(f)
    ensures NonNegative(RepliedAt(engine, view, c, n, id, f))
  {
    var gpuId := c.host.devices.value[n];
    if Delivers(engine, view, c, n) {
      var groups := AtTurn(engine, view, c, n).watchers[gpuId].groups;
      ValuesReadAreOfField(gpuId, groups, RepliesAt(c.host, n), c.now, f);
      TotalledAreNotNegative(f, ValuesRead(gpuId, groups, RepliesAt(c.host, n), c.now, f));
    }
  }

  lemma {:induction false} RepliedNotNegative(engine: Engine, view: ClientView, c: Collection, n: nat, id: string,
                                              f: FieldId)
    requires c.host.devices.Some? && n <= |c.host.devices.value| && IsTotalled(f)
    ensures NonNegative(RepliedValues(engine, view, c, n, id, f))
  {
    if n == 0 {
    } else {
      RepliedNotNegative(engine, view, c, n - 1, id, f);
      RepliedAtNotNegative(engine, view, c, n - 1, id, f);
      BothNonNegative(RepliedValues(engine, view, c, n - 1, id, f), RepliedAt(engine, view, c, n - 1, id, f));
    }
  }

  lemma BothNonNegative(a: seq<real>, b: seq<real>)
    requires NonNegative(a) && NonNegative(b)
    ensures NonNegative(a + b)
  {
  }

  lemma {:induction false} ReadingsNotNegative(setup: Setup, engine: Engine, beats: seq<Beat>, id: string, f: FieldId)
    requires IsTotalled(f)
    ensures NonNegative(RepliedReadings(setup, engine, beats, id, f))
  {
    if beats == [] {
    } else {
      var n := |beats| - 1;
      ReadingsNotNegative(setup, engine, beats[..n], id, f);
      if beats[n].Gather? && beats[n].c.host.devices.Some? {
        var c := beats[n].c;
        RepliedNotNegative(engine, After(engine, Gathered(beats[..n])), c, |c.host.devices.value|, id, f);
      }
    }
  }

  lemma {:induction false} NothingIgnored(raw: seq<real>)
    requires NonNegative(raw)
    ensures Readings(raw) == raw
  {
    if raw == [] {
    } else {
      NothingIgnored(raw[1..]);
    }
  }

  lemma ReadingsAreReplied(setup: Setup, engine: Engine, beats: seq<Beat>, id: string, suffix: string, f: FieldId)
    requires setup.counters == CounterTable() && Totals(suffix, f) && IsTotalled(f)
    ensures HardwareReadings(setup, OpsOf(engine, beats), id, suffix) == RepliedReadings(setup, engine, beats, id, f)
  {
    RawIsSlotValues(setup, OwnSamples(setup, OpsOf(engine, beats), id), suffix, f);
    OwnSlotsAreReplied(setup, engine, beats, id, f);
    ReadingsNotNegative(setup, engine, beats, id, f);
    NothingIgnored(RepliedReadings(setup, engine, beats, id, f));
  }

  lemma HardwareOfReplies(setup: Setup, engine: Engine, beats: seq<Beat>, ids: set<string>, id: string, suffix: string,
                          f: FieldId)
    requires Alive(setup, engine, beats, ids, id) && IsCounter(suffix) && setup.counters == CounterTable()
    requires Totals(suffix, f) && IsTotalled(f)
    ensures var st := Run(setup, OpsOf(engine, beats));
            ClosedForm(Lookup(st.hardware, Key(id, suffix)),
                       Lookup(st.series, Series(HardwareTotal(suffix), setup.LabelsOf(st.active[id]))),
                       RepliedReadings(setup, engine, beats, id, f))
  {
    AliveIsReached(setup, engine, beats, ids, id);
    CounterTableIsKeyed();
    HardwareClosedForm(setup, OpsOf(engine, beats), ids, id, suffix);
    ReadingsAreReplied(setup, engine, beats, id, suffix, f);
  }

  /**
   The hardware counters of a client's GPU, for the exporter's own table: stored value and series in
   closed form of the readings of the counter's field that the replies gave.
   */
  lemma ClientHardwareClosedForm(config: Config, hostname: string, engine: Engine, beats: seq<Beat>, ids: set<string>,
                                 id: string, suffix: string, f: FieldId)
    requires Alive(SetupFor(config, hostname), engine, beats, ids, id) && IsCounter(suffix)
    requires Totals(suffix, f) && IsTotalled(f)
    ensures var setup := SetupFor(config, hostname);
            var st := Run(setup, OpsOf(engine, beats));
            ClosedForm(Lookup(st.hardware, Key(id, suffix)),
                       Lookup(st.series, Series(HardwareTotal(suffix), setup.LabelsOf(st.active[id]))),
                       RepliedReadings(setup, engine, beats, id, f))
  {
    HardwareOfReplies(SetupFor(config, hostname), engine, beats, ids, id, suffix, f);
  }

  // ----- Readiness -------------------------------------------------------------------------

  lemma {:induction false} EmitsKeepAttempt(engine: Engine, beats: seq<Beat>, emits: seq<Beat>)
    requires forall i :: 0 <= i < |emits| ==> emits[i].Emit?
    ensures LatestAttempt(OpsOf(engine, beats + emits)) == LatestAttempt(OpsOf(engine, beats))
  {
    if emits == [] {
      assert beats + emits == beats;
    } else {
      var n := |emits| - 1;
      var all := beats + emits;
      assert all[..|all| - 1] == beats + emits[..n] && all[|all| - 1] == emits[n];
      EmitsKeepAttempt(engine, beats, emits[..n]);
      var ops := OpsOf(engine, all);
      assert ops[..|ops| - 1] == OpsOf(engine, beats + emits[..n]);
    }
  }

  /**
   From the raw values of the engine to readiness: after any beats the exporter is ready exactly when
   the latest collection listed some GPU, reported no failure, and is recent enough.
   */
  lemma ReadyMeansNothingFailed(setup: Setup, engine: Engine, beats: seq<Beat>, c: Collection, emits: seq<Beat>,
                                now: Time)
    requires forall i :: 0 <= i < |emits| ==> emits[i].Emit?
    ensures Model.Ready(setup, Run(setup, OpsOf(engine, beats + [Gather(c)] + emits)).health, now) <==>
            && c.host.devices.Some? && c.host.devices.value != []
            && Collected(engine, After(engine, Gathered(beats)), c).batch.failures == []
            && c.now != ZERO_TIME && now - c.now <= setup.maxAge
  {
    var gathered := beats + [Gather(c)];
    assert gathered[..|gathered| - 1] == beats;
    var attempt := OpOf(engine, After(engine, Gathered(beats)), c);
    assert OpsOf(engine, gathered) == OpsOf(engine, beats) + [attempt];
    EmitsKeepAttempt(engine, gathered, emits);
    ReadyMeansLatestAttemptComplete(setup, OpsOf(engine, gathered + emits), now);
    if c.host.devices.Some? {
      EveryBatchAccounts(engine, Gathered(beats), c);
      CompleteExactly(attempt.batch, c.host.devices.value);
      CompleteMeansAllWell(attempt.batch);
    }
  }

  // ----- Intervals -------------------------------------------------------------------------

  /** The engine of a client made from a configuration. */
  function EngineFor(config: Config, verdict: Verdicts): Engine {
    Engine(verdict,
           Intervals(DurationOrDefault(config.scrapeInterval, DEFAULT_SCRAPE_INTERVAL),
                     DurationOrDefault(config.profilingInterval, DEFAULT_PROFILING_INTERVAL),
                     DurationOrDefault(config.operationalInterval, DEFAULT_OPERATIONAL_INTERVAL),
                     DurationOrDefault(config.reliabilityInterval, DEFAULT_RELIABILITY_INTERVAL)),
           StandardLists())
  }

  lemma GapOfFastField(config: Config, f: FieldId)
    requires f in FastRequiredFields() || f in FastOptionalFields()
    ensures config.MaxObservationGap(f) == 10 * DurationOrDefault(config.scrapeInterval, DEFAULT_SCRAPE_INTERVAL)
  {
    FastIds(f);
    IdsTellLists(f);
  }

  lemma GapOfOperationalField(config: Config, f: FieldId)
    requires f in OperationalFields()
    ensures config.MaxObservationGap(f) == 10 * DurationOrDefault(config.operationalInterval,
                                                                  DEFAULT_OPERATIONAL_INTERVAL)
  {
    IdsTellLists(f);
  }

  lemma GapOfRateField(config: Config, f: FieldId)
    requires f in LegacyRateFields() || f in ProfFields()
    ensures config.MaxObservationGap(f) == 10 * DurationOrDefault(config.profilingInterval, DEFAULT_PROFILING_INTERVAL)
  {
  }

  lemma GapOfReliabilityField(config: Config, f: FieldId)
    requires f in ReliabilityFields()
    ensures config.MaxObservationGap(f) == 10 * DurationOrDefault(config.reliabilityInterval,
                                                                  DEFAULT_RELIABILITY_INTERVAL)
  {
    IdsTellLists(f);
  }

  lemma GapOfClass(config: Config, verdict: Verdicts, spec: GroupSpec, f: FieldId)
    requires OfOneClass(spec, EngineFor(config, verdict).intervals, StandardLists()) && f in Elements(spec.fields)
    ensures config.MaxObservationGap(f) == 10 * spec.interval
  {
    var intervals, lists, fields := EngineFor(config, verdict).intervals, StandardLists(), Elements(spec.fields);
    if spec.interval == intervals.fast && fields <= Elements(lists.fastRequired) + Elements(lists.fastOptional) {
      GapOfFastField(config, f);
    } else if spec.interval == intervals.operational && fields <= Elements(lists.operational) {
      GapOfOperationalField(config, f);
    } else if spec.interval == intervals.profiling && fields <= Elements(lists.legacyRates) + Elements(lists.prof) {
      GapOfRateField(config, f);
    } else {
      GapOfReliabilityField(config, f);
    }
  }

  /** A group the client makes for a GPU under this configuration. */
  ghost predicate Planned(config: Config, verdict: Verdicts, gpuId: nat, metricGroups: Option<seq<seq<FieldId>>>,
                          attempts: nat, spec: GroupSpec) {
    spec in PlanWatcher(EngineFor(config, verdict), gpuId, metricGroups, attempts).specs
  }

  /** The exporter's longest gap for a field is ten intervals of whatever group the client watches it with. */
  lemma GapsAreTenWatchIntervals(config: Config, verdict: Verdicts, gpuId: nat,
                                 metricGroups: Option<seq<seq<FieldId>>>, attempts: nat, spec: GroupSpec, f: FieldId)
    requires Planned(config, verdict, gpuId, metricGroups, attempts, spec) && f in spec.fields
    ensures config.MaxObservationGap(f) == 10 * spec.interval
  {
    EveryGroupIsOfOneClass(EngineFor(config, verdict), gpuId, metricGroups, attempts);
    GapOfClass(config, verdict, spec, f);
  }
}
