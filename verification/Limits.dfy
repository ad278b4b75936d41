/**
 Runs that show what the exporter does not keep. The exact conditions stand with the properties
 themselves; here are inputs on which they fail.
 */
module Limits {
  import opened FieldSets
  import opened Clock
  import opened Identity
  import Negotiation
  import opened Aggregation
  import opened History
  import opened Sampling
  import opened Tracker
  import opened Integration
  import opened Counters
  import opened Exporter
  import opened Steps
  import opened Runs
  import opened Isolation
  import opened Histories
  import opened Guarantees
  import opened Requests
  import opened Publication

  // ----- Runs of one GPU, known by its index -----------------------------------------------

  function SampleOf(info: GpuInfo, observations: seq<Observation>): GpuSample {
    GpuSample(info, map[], map[], observations)
  }

  function BatchOf(info: GpuInfo, observations: seq<Observation>): SampleBatch {
    SampleBatch([SampleOf(info, observations)], [info], [])
  }

  const NOTHING := SampleBatch([], [], [])

  lemma NothingIsWellFormed(ids: set<string>)
    ensures WellFormed(NOTHING, ids)
  {
  }

  lemma BatchIsWellFormed(info: GpuInfo, observations: seq<Observation>, ids: set<string>)
    requires StableIdentifier(info) in ids && !Blank(info.index)
    ensures WellFormed(BatchOf(info, observations), ids)
    ensures ByIdentifier([info]) == map[StableIdentifier(info) := info]
  {
    assert [info][..0] == [] && ByIdentifier([]) == map[];
  }

  lemma OnlyOneIdentifier()
    ensures PairwiseSeparate({"0"})
  {
  }

  lemma SamplesOfOne(id: string, info: GpuInfo, observations: seq<Observation>)
    requires StableIdentifier(info) == id
    ensures SamplesOf(id, BatchOf(info, observations).samples) == [SampleOf(info, observations)]
  {
    assert [SampleOf(info, observations)][..0] == [];
  }

  lemma OneMoreOp(setup: Setup, before: seq<Op>, op: Op, ids: set<string>)
    requires WellFormedRun(setup, before, ids) && WellFormedOp(Run(setup, before), op, ids)
    ensures WellFormedRun(setup, before + [op], ids) && Run(setup, before + [op]) == Step(setup, Run(setup, before), op)
  {
    assert (before + [op])[..|before|] == before;
  }

  function AndCollected(before: seq<Op>, now: Time, batch: SampleBatch): seq<Op> { before + [CollectBatch(now, batch)] }

  /** What one more collection makes of the histories of a GPU. */
  lemma CollectedNext(setup: Setup, before: seq<Op>, now: Time, batch: SampleBatch, ids: set<string>, id: string)
    requires WellFormedRun(setup, before, ids) && WellFormed(batch, ids)
    ensures var ops, keeps := AndCollected(before, now, batch), Stays(Run(setup, before), batch.supported, id);
            && WellFormedRun(setup, ops, ids) && Run(setup, ops).active == ByIdentifier(batch.supported)
            && Run(setup, ops) == CollectSamples(setup, Begin(setup, Run(setup, before), now, batch), batch.samples)
            && OwnSamples(setup, ops, id)
                == (if keeps then OwnSamples(setup, before, id) else []) + SamplesOf(id, batch.samples)
            && UtilHistory(ops, id) == UtilHistory(before, id) + UtilsOf(id, batch.samples)
            && BeforeLife(setup, ops, id) == (if keeps then BeforeLife(setup, before, id) else UtilHistory(before, id))
            && OpenWindow(ops) == OpenWindow(before) + EntriesOf(batch.samples)
  {
    OneMoreOp(setup, before, CollectBatch(now, batch), ids);
    EverythingBelongsToAnActiveGpu(setup, before, ids);
    ActiveAfterCollect(setup, Run(setup, before), now, batch, ids);
    assert (before + [CollectBatch(now, batch)])[..|before|] == before;
  }

  lemma PublishedAfter(setup: Setup, before: seq<Op>, order: seq<GpuInfo>, ids: set<string>, id: string)
    requires WellFormedRun(setup, before, ids) && Lists(order, Run(setup, before).active)
    ensures var ops := before + [PublishWindows(order)];
            && WellFormedRun(setup, ops, ids) && Run(setup, ops).active == Run(setup, before).active
            && OwnSamples(setup, ops, id) == OwnSamples(setup, before, id)
  {
    OneMoreOp(setup, before, PublishWindows(order), ids);
    assert (before + [PublishWindows(order)])[..|before|] == before;
  }

  // ----- A search that finds more than the scan --------------------------------------------

  /**
   An engine that takes the fast fields all together or not at all: the search of the client has all
   of them after one attempt, a scan has the required field only.
   */
  lemma AllFastFieldsOrNone()
    ensures Negotiation.FindsMore(Negotiation.Only(FastRequiredFields() + FastOptionalFields()), FastRequiredFields(),
                                  FastOptionalFields())
  {
    Negotiation.SearchFindsWhatScanMisses(FastRequiredFields(), FastOptionalFields());
  }

  // ----- A stored value lost with another GPU ----------------------------------------------

  function Energy(value: real): GpuSample { GpuSample(Bare("0:1"), map[TOTAL_ENERGY := value], map[], []) }

  function BothListed(value: real): SampleBatch {
    SampleBatch([Energy(value)], [Bare("0"), Bare("0:1")], [Failure(Bare("0"), "fast")])
  }

  function OneLeft(value: real): SampleBatch { SampleBatch([Energy(value)], [Bare("0:1")], []) }

  /** GPU 0 leaves; GPU 0:1 stays, and its energy counter reads the same in both collections. */
  function OtherLeaves(value: real): seq<Op> {
    AndCollected(AndCollected([], SECOND, BothListed(value)), 2 * SECOND, OneLeft(value))
  }

  function EnergyOf(setup: Setup): Hardware { Hardware("0:1", setup.LabelsOf(Bare("0:1")), "energy") }

  lemma {:induction false} OnlyEnergyIsRead(value: real, table: seq<CounterSpec>)
    requires table != [] && table[0] == CounterSpec(TOTAL_ENERGY, "energy")
    requires forall i :: 0 < i < |table| ==> table[i].field != TOTAL_ENERGY
    ensures RawIn(Energy(value).slots, table, "energy") == [value]
  {
    var n := |table| - 1;
    if n == 0 {
      assert RawIn(Energy(value).slots, table[..0], "energy") == [];
    } else {
      OnlyEnergyIsRead(value, table[..n]);
    }
  }

  lemma EnergyIsTaken(config: Config, hostname: string, st: State, value: real)
    ensures var setup := SetupFor(config, hostname);
            EnergyOf(setup).Took(st, CollectSamples(setup, st, [Energy(value)]), [value])
  {
    var setup, one := SetupFor(config, hostname), [Energy(value)];
    BareIdentifier("0:1");
    CounterTableIsKeyed();
    assert CounterSuffixes()[0] == "energy";
    EnergyIsRead(config, hostname, value);
    SampleIsTaken(setup, EnergyOf(setup), st, Energy(value));
    assert one[..0] == [];
  }

  lemma TwoWithColon()
    ensures StableIdentifier(Bare("0")) == "0" && StableIdentifier(Bare("0:1")) == "0:1" && "0" != "0:1"
    ensures !Blank(Bare("0").index) && !Blank(Bare("0:1").index)
  {
    BareIdentifier("0");
    BareIdentifier("0:1");
    assert |"0"| != |"0:1"|;
  }

  lemma BatchesWithColon(value: real)
    ensures WellFormed(BothListed(value), {"0", "0:1"}) && WellFormed(OneLeft(value), {"0", "0:1"})
    ensures ByIdentifier(BothListed(value).supported) == map["0" := Bare("0"), "0:1" := Bare("0:1")]
    ensures ByIdentifier(OneLeft(value).supported) == map["0:1" := Bare("0:1")]
    ensures SamplesOf("0:1", [Energy(value)]) == [Energy(value)]
  {
    TwoWithColon();
    var both, one := BothListed(value).supported, OneLeft(value).supported;
    assert both[..1] == [Bare("0")] && both[..1][..0] == [] && one[..0] == [];
    assert both[0] == Bare("0") && both[1] == Bare("0:1") && one[0] == Bare("0:1");
    assert [Energy(value)][..0] == [];
  }

  lemma ZeroReachesColon(setup: Setup)
    ensures var h := EnergyOf(setup); Dropped("0", h.StoredKey()) && h.Line().labels != setup.LabelsOf(Bare("0"))
  {
    assert EnergyOf(setup).StoredKey() == ("0" + ":") + "1:energy";
    assert setup.LabelsOf(Bare("0")).gpuIndex == "0" && setup.LabelsOf(Bare("0:1")).gpuIndex == "0:1";
    assert |"0"| != |"0:1"|;
  }

  lemma OnlyZeroIsOutdated(value: real)
    ensures Outdated(map["0" := Bare("0"), "0:1" := Bare("0:1")], ByIdentifier(OneLeft(value).supported)) == {"0"}
  {
    TwoWithColon();
    BatchesWithColon(value);
  }

  /** Reconciling forgets the stored value of GPU 0:1, and keeps its series. */
  lemma StoredValueIsLost(setup: Setup, st: State, now: Time, value: real)
    requires st.active == map["0" := Bare("0"), "0:1" := Bare("0:1")]
    ensures var h, after := EnergyOf(setup), Begin(setup, st, now, OneLeft(value));
            && Lookup(after.hardware, h.StoredKey()) == None
            && Lookup(after.series, h.Line()) == Lookup(st.series, h.Line())
  {
    var h := EnergyOf(setup);
    BeginKeeps(setup, st, now, OneLeft(value), h.Line());
    ZeroReachesColon(setup);
    OnlyZeroIsOutdated(value);
    assert st.active["0"] == Bare("0");
    ForgetTouches(setup, st, st.active, {"0"}, h.Line(), h.StoredKey());
  }

  lemma NothingStoredAtFirst(setup: Setup, now: Time, batch: SampleBatch, h: Hardware)
    ensures var after := Begin(setup, INITIAL, now, batch);
            Lookup(after.hardware, h.StoredKey()) == None && Lookup(after.series, h.Line()) == None
  {
    BeginKeeps(setup, INITIAL, now, batch, h.Line());
  }

  lemma TakenOnce(previous: Option<real>, value: real)
    requires value >= 0.0
    ensures Last(previous, [value]) == Some(value) && Total(None, [value]) == value
  {
    assert [value][1..] == [];
  }

  lemma SameReadingTwice(setup: Setup, ops: seq<Op>, value: real)
    requires value >= 0.0 && RawIn(Energy(value).slots, setup.counters, "energy") == [value]
    requires OwnSamples(setup, ops, "0:1") == [Energy(value)] + [Energy(value)]
    ensures HardwareReadings(setup, ops, "0:1", "energy") == [value, value] && Total(None, [value, value]) == value
  {
    var samples := OwnSamples(setup, ops, "0:1");
    assert samples[..1] == [Energy(value)] && samples[..1][..0] == [];
    assert RawOf(setup, samples[..1], "energy") == [value] && RawOf(setup, samples, "energy") == [value, value];
    assert [value, value][1..] == [value] && [value][1..] == [];
    assert Readings([value]) == [value] && Readings([value, value]) == [value, value];
    assert Total(Some(value), [value]) == 0.0;
  }

  lemma EnergyIsRead(config: Config, hostname: string, value: real)
    ensures RawIn(Energy(value).slots, SetupFor(config, hostname).counters, "energy") == [value]
  {
    OnlyEnergyIsRead(value, CounterTable());
  }

  lemma EnergyCountedFirst(config: Config, hostname: string, before: seq<Op>, value: real)
    requires before == [] && value >= 0.0
    ensures var setup, ops := SetupFor(config, hostname), AndCollected(before, SECOND, BothListed(value));
            && WellFormedRun(setup, ops, {"0", "0:1"})
            && Run(setup, ops).active == map["0" := Bare("0"), "0:1" := Bare("0:1")]
            && OwnSamples(setup, ops, "0:1") == [Energy(value)]
            && Get(Run(setup, ops).series, EnergyOf(setup).Line()) == value
  {
    var setup := SetupFor(config, hostname);
    BatchesWithColon(value);
    CollectedNext(setup, before, SECOND, BothListed(value), {"0", "0:1"}, "0:1");
    NothingStoredAtFirst(setup, SECOND, BothListed(value), EnergyOf(setup));
    EnergyIsTaken(config, hostname, Begin(setup, INITIAL, SECOND, BothListed(value)), value);
    TakenOnce(None, value);
    assert [] + [Energy(value)] == [Energy(value)];
  }

  /** In the second collection the counter starts over. */
  lemma EnergyCountedAgain(config: Config, hostname: string, before: seq<Op>, value: real)
    requires WellFormedRun(SetupFor(config, hostname), before, {"0", "0:1"}) && value >= 0.0
    requires Run(SetupFor(config, hostname), before).active == map["0" := Bare("0"), "0:1" := Bare("0:1")]
    ensures var setup, ops := SetupFor(config, hostname), AndCollected(before, 2 * SECOND, OneLeft(value));
            && WellFormedRun(setup, ops, {"0", "0:1"}) && Run(setup, ops).active == map["0:1" := Bare("0:1")]
            && OwnSamples(setup, ops, "0:1") == OwnSamples(setup, before, "0:1") + [Energy(value)]
            && Get(Run(setup, ops).series, EnergyOf(setup).Line())
                == Get(Run(setup, before).series, EnergyOf(setup).Line()) + value
  {
    var setup := SetupFor(config, hostname);
    BatchesWithColon(value);
    CollectedNext(setup, before, 2 * SECOND, OneLeft(value), {"0", "0:1"}, "0:1");
    StoredValueIsLost(setup, Run(setup, before), 2 * SECOND, value);
    EnergyIsTaken(config, hostname, Begin(setup, Run(setup, before), 2 * SECOND, OneLeft(value)), value);
    TakenOnce(None, value);
  }

  /**
   A run that is well-formed but for the identifiers: the stored value of GPU 0:1 goes with GPU 0, and
   the one value that was read twice is counted twice.
   */
  lemma ReconcilingCanReachAnother(config: Config, hostname: string, value: real)
    requires value >= 0.0
    ensures var setup, ops := SetupFor(config, hostname), OtherLeaves(value);
            && WellFormedRun(setup, ops, {"0", "0:1"}) && "0:1" in Run(setup, ops).active
            && HardwareReadings(setup, ops, "0:1", "energy") == [value, value] && Total(None, [value, value]) == value
            && CounterValue(setup, ops, "0:1", HardwareTotal("energy")) == value + value
  {
    EnergyCountedFirst(config, hostname, [], value);
    EnergyCountedAgain(config, hostname, AndCollected([], SECOND, BothListed(value)), value);
    EnergyIsRead(config, hostname, value);
    SameReadingTwice(SetupFor(config, hostname), OtherLeaves(value), value);
  }

  // ----- Time counted twice ----------------------------------------------------------------

  /** Two readings, one second apart. */
  function OneSecond(): seq<Observation> {
    [Observation(GPU_UTIL, SECOND, 1.0), Observation(GPU_UTIL, 2 * SECOND, 1.0)]
  }

  function BackAndForthEvents(): seq<Event> {
    [At(SECOND, 1.0), At(2 * SECOND, 1.0), At(SECOND, 1.0), At(2 * SECOND, 1.0)]
  }

  /** Two collections that hand over the same second. */
  function SameSecondTwice(now: Time): seq<Op> {
    AndSampled(AndSampled([], now, OneSecond()), now + SECOND, OneSecond())
  }

  function AndSampled(before: seq<Op>, now: Time, observations: seq<Observation>): seq<Op> {
    AndCollected(before, now, BatchOf(Bare("0"), observations))
  }

  lemma EventsBackAndForth()
    ensures var sample := SampleOf(Bare("0"), OneSecond());
            EventsOf([sample] + [sample], GPU_UTIL) == BackAndForthEvents()
  {
    var o, sample := OneSecond(), SampleOf(Bare("0"), OneSecond());
    assert o[..1][..0] == [] && o[..1] == [o[0]];
    assert ObservedEvents(GPU_UTIL, o[..1]) == [At(SECOND, 1.0)];
    assert SampleEvents(sample, GPU_UTIL) == [At(SECOND, 1.0), At(2 * SECOND, 1.0)];
    assert ([sample] + [sample])[..1] == [sample] && [sample][..0] == [];
    assert EventsOf([sample], GPU_UTIL) == [At(SECOND, 1.0), At(2 * SECOND, 1.0)];
  }

  lemma TimeBackAndForth(maxGap: Duration)
    requires maxGap >= SECOND
    ensures var events := BackAndForthEvents();
            ObservedTime(events, maxGap) == 2 * SECOND && Elapsed(events) == SECOND && Returns(events) == SECOND
                && Lost(events, maxGap) == 0
  {
    var events := BackAndForthEvents();
    var three, two, one := events[..3], events[..2], events[..1];
    assert three[..2] == two && two[..1] == one && one[..0] == [];
    assert ObservedTime(one, maxGap) == 0 && ObservedTime(two, maxGap) == SECOND
        && ObservedTime(three, maxGap) == SECOND;
    assert LastSeen(one) == Some(SECOND) && LastSeen(two) == Some(2 * SECOND) && LastSeen(three) == Some(SECOND);
    assert FirstSeen(one) == Some(SECOND) && FirstSeen(two) == Some(SECOND) && FirstSeen(three) == Some(SECOND);
    assert StepTo(one, 0) == 0 && StepTo(two, 1) == SECOND && StepTo(three, 2) == -SECOND
        && StepTo(events, 3) == SECOND;
    assert Returns(one) == 0 && Returns(two) == 0 && Returns(three) == SECOND;
    assert Lost(one, maxGap) == 0 && Lost(two, maxGap) == 0 && Lost(three, maxGap) == 0;
  }

  lemma SampledFirst(setup: Setup, before: seq<Op>, now: Time, observations: seq<Observation>)
    requires before == []
    ensures var ops := AndSampled(before, now, observations);
            && WellFormedRun(setup, ops, {"0"}) && Run(setup, ops).active == map["0" := Bare("0")]
            && OwnSamples(setup, ops, "0") == [SampleOf(Bare("0"), observations)]
  {
    var batch := BatchOf(Bare("0"), observations);
    BareIdentifier("0");
    BatchIsWellFormed(Bare("0"), observations, {"0"});
    CollectedNext(setup, before, now, batch, {"0"}, "0");
    SamplesOfOne("0", Bare("0"), observations);
    assert !Stays(INITIAL, batch.supported, "0") && [] + [SampleOf(Bare("0"), observations)]
        == [SampleOf(Bare("0"), observations)];
  }

  lemma SampledAgain(setup: Setup, before: seq<Op>, now: Time, observations: seq<Observation>)
    requires WellFormedRun(setup, before, {"0"}) && Run(setup, before).active == map["0" := Bare("0")]
    ensures var ops := AndSampled(before, now, observations);
            && WellFormedRun(setup, ops, {"0"}) && Run(setup, ops).active == map["0" := Bare("0")]
            && OwnSamples(setup, ops, "0") == OwnSamples(setup, before, "0") + [SampleOf(Bare("0"), observations)]
  {
    var batch := BatchOf(Bare("0"), observations);
    BareIdentifier("0");
    BatchIsWellFormed(Bare("0"), observations, {"0"});
    CollectedNext(setup, before, now, batch, {"0"}, "0");
    SamplesOfOne("0", Bare("0"), observations);
  }

  /** The second collection hands over timestamps of the first again: two seconds are counted in one. */
  lemma BackwardTimesOvercount(setup: Setup, now: Time)
    requires setup.maxGap(GPU_UTIL) >= SECOND
    ensures var ops := SameSecondTwice(now);
            && Reached(setup, ops, {"0"}, "0")
            && CounterValue(setup, ops, "0", ObservedSeconds(Utilization)) == 2.0
            && Elapsed(Events(setup, ops, "0", GPU_UTIL)) == SECOND
  {
    SampledFirst(setup, [], now, OneSecond());
    SampledAgain(setup, AndSampled([], now, OneSecond()), now + SECOND, OneSecond());
    OnlyOneIdentifier();
    EventsBackAndForth();
    TimeBackAndForth(setup.maxGap(GPU_UTIL));
    ObservedIsCountedTime(setup, SameSecondTwice(now), {"0"}, "0", GPU_UTIL);
  }

  // ----- A request across an absence -------------------------------------------------------

  function UtilAt(value: real, time: Time): seq<Observation> { [Observation(GPU_UTIL, time, value)] }

  function Busy(setup: Setup): UtilReading { UtilReading(setup.activeThreshold + 1.0, SECOND) }

  function Idle(setup: Setup): UtilReading { UtilReading(setup.activeThreshold, SECOND + setup.minRequestTime) }

  function Seen(r: UtilReading): SampleBatch { BatchOf(Bare("0"), UtilAt(r.util, r.at)) }

  function AndSeen(before: seq<Op>, now: Time, r: UtilReading): seq<Op> { AndCollected(before, now, Seen(r)) }

  function AndGone(before: seq<Op>, now: Time): seq<Op> { AndCollected(before, now, NOTHING) }

  /** A GPU is seen busy, leaves, returns and is seen idle. */
  function BusyGoneIdle(setup: Setup): seq<Op> {
    AndSeen(AndGone(AndSeen([], SECOND, Busy(setup)), 2 * SECOND), 3 * SECOND, Idle(setup))
  }

  lemma SeenIsWellFormed(r: UtilReading, ids: set<string>)
    requires "0" in ids
    ensures WellFormed(Seen(r), ids) && ByIdentifier(Seen(r).supported) == map["0" := Bare("0")]
    ensures SamplesOf("0", Seen(r).samples) == [SampleOf(Bare("0"), UtilAt(r.util, r.at))]
    ensures UtilsOf("0", Seen(r).samples) == [r]
  {
    var sample := SampleOf(Bare("0"), UtilAt(r.util, r.at));
    BareIdentifier("0");
    BatchIsWellFormed(Bare("0"), UtilAt(r.util, r.at), ids);
    SamplesOfOne("0", Bare("0"), UtilAt(r.util, r.at));
    assert UtilAt(r.util, r.at)[..0] == [] && UtilIn(UtilAt(r.util, r.at)) == [r];
    assert [sample][..0] == [];
  }

  lemma SeenAgain(setup: Setup, before: seq<Op>, now: Time, r: UtilReading)
    requires WellFormedRun(setup, before, {"0"}) && Run(setup, before).active == map[]
    ensures var ops := AndSeen(before, now, r);
            && WellFormedRun(setup, ops, {"0"}) && Run(setup, ops).active == map["0" := Bare("0")]
            && OwnSamples(setup, ops, "0") == [SampleOf(Bare("0"), UtilAt(r.util, r.at))]
            && BeforeLife(setup, ops, "0") == UtilHistory(before, "0")
                && UtilHistory(ops, "0") == UtilHistory(before, "0") + [r]
  {
    SeenIsWellFormed(r, {"0"});
    CollectedNext(setup, before, now, Seen(r), {"0"}, "0");
  }

  lemma Gone(setup: Setup, before: seq<Op>, now: Time)
    requires WellFormedRun(setup, before, {"0"})
    ensures var ops := AndGone(before, now);
            WellFormedRun(setup, ops, {"0"}) && Run(setup, ops).active == map[]
                && UtilHistory(ops, "0") == UtilHistory(before, "0")
  {
    NothingIsWellFormed({"0"});
    CollectedNext(setup, before, now, NOTHING, {"0"}, "0");
    assert UtilHistory(before, "0") + [] == UtilHistory(before, "0");
  }

  lemma OneRequest(rule: ActivityRule, busy: UtilReading, idle: UtilReading)
    requires rule.Above(busy) && !rule.Above(idle) && idle.at - busy.at >= rule.minRequestTime
    ensures rule.Requests([busy]) == 0 && rule.Requests([busy] + [idle]) == 1 && rule.Requests([idle]) == 0
  {
    assert [busy][..0] == [] && ([busy] + [idle])[..1] == [busy] && [idle][..0] == [];
  }

  lemma CountedRequests(setup: Setup, ops: seq<Op>, ids: set<string>, id: string, all: nat, before: nat)
    requires Reached(setup, ops, ids, id)
    requires all == setup.Rule().Requests(UtilHistory(ops, id))
    requires before == setup.Rule().Requests(BeforeLife(setup, ops, id))
    ensures CounterValue(setup, ops, id, RequestCount) == all as real - before as real
  {
    RequestsAreCounted(setup, ops, ids, id, RequestCount);
  }

  /** What a return at an idle reading makes of the request counter, after one busy reading in an earlier life. */
  lemma ReturnCounts(setup: Setup, before: seq<Op>, now: Time)
    requires WellFormedRun(setup, before, {"0"}) && Run(setup, before).active == map[]
    requires UtilHistory(before, "0") == [Busy(setup)]
    ensures var ops := AndSeen(before, now, Idle(setup));
            && Reached(setup, ops, {"0"}, "0")
            && OwnReadings(setup, ops, "0") == [Idle(setup)] && setup.Rule().Requests([Idle(setup)]) == 0
            && CounterValue(setup, ops, "0", RequestCount) == 1.0
  {
    var ops := AndSeen(before, now, Idle(setup));
    SeenAgain(setup, before, now, Idle(setup));
    SeenIsWellFormed(Idle(setup), {"0"});
    OnlyOneIdentifier();
    OneRequest(setup.Rule(), Busy(setup), Idle(setup));
    CountedRequests(setup, ops, {"0"}, "0", 1, 0);
  }

  /** The request that ends when the GPU is back spans its absence: the one reading of the new life is idle. */
  lemma RequestSpansAbsence(setup: Setup)
    ensures var ops := BusyGoneIdle(setup);
            && Reached(setup, ops, {"0"}, "0")
            && OwnReadings(setup, ops, "0") == [Idle(setup)] && setup.Rule().Requests([Idle(setup)]) == 0
            && CounterValue(setup, ops, "0", RequestCount) == 1.0
  {
    SeenAgain(setup, [], SECOND, Busy(setup));
    var busy := AndSeen([], SECOND, Busy(setup));
    assert UtilHistory([], "0") + [Busy(setup)] == [Busy(setup)];
    Gone(setup, busy, 2 * SECOND);
    ReturnCounts(setup, AndGone(busy, 2 * SECOND), 3 * SECOND);
  }

  // ----- A window under new labels ---------------------------------------------------------

  function Renamed(): GpuInfo { Bare("0").(name := "new") }

  /** The GPU is listed under a new name and could not be sampled. */
  function NewName(): SampleBatch { SampleBatch([], [Renamed()], [Failure(Renamed(), "fast")]) }

  function AndRenamed(before: seq<Op>, now: Time): seq<Op> { AndCollected(before, now, NewName()) }

  function AndPublished(before: seq<Op>): seq<Op> { before + [PublishWindows([Renamed()])] }

  /** A GPU is seen, gets another name, and is published before it is seen again. */
  function SeenRenamedPublished(r: UtilReading): seq<Op> {
    AndPublished(AndRenamed(AndSeen([], SECOND, r), 2 * SECOND))
  }

  lemma RenamedIdentifier()
    ensures StableIdentifier(Renamed()) == "0" && !Blank(Renamed().index) && !SameIdentity(Bare("0"), Renamed())
  {
    BareIdentifier("0");
    assert |"new"| != |""|;
  }

  lemma NewNameIsWellFormed()
    ensures WellFormed(NewName(), {"0"}) && ByIdentifier(NewName().supported) == map["0" := Renamed()]
    ensures Lists([Renamed()], map["0" := Renamed()])
  {
    RenamedIdentifier();
    BatchIsWellFormed(Renamed(), [], {"0"});
    assert [Renamed()][0] == Renamed();
  }

  lemma RenamedNext(setup: Setup, before: seq<Op>, now: Time)
    requires WellFormedRun(setup, before, {"0"}) && Run(setup, before).active == map["0" := Bare("0")]
    ensures var ops := AndRenamed(before, now);
            && WellFormedRun(setup, ops, {"0"}) && Run(setup, ops).active == map["0" := Renamed()]
            && OwnSamples(setup, ops, "0") == [] && OpenWindow(ops) == OpenWindow(before)
  {
    NewNameIsWellFormed();
    RenamedIdentifier();
    CollectedNext(setup, before, now, NewName(), {"0"}, "0");
    assert OpenWindow(before) + [] == OpenWindow(before);
  }

  lemma ShownAlone(value: Option<real>, shown: real)
    requires ShowsWindow(value, WindowMax(Utilization), [shown])
    ensures value == Some(shown)
  {
  }

  lemma PublishedNext(setup: Setup, before: seq<Op>, value: real)
    requires WellFormedRun(setup, before, {"0"}) && Run(setup, before).active == map["0" := Renamed()]
    requires ValuesFor(OpenWindow(before), WindowKey("0", Utilization)) == [value]
    ensures var ops := AndPublished(before);
            && WellFormedRun(setup, ops, {"0"}) && Run(setup, ops).active == map["0" := Renamed()]
            && OwnSamples(setup, ops, "0") == OwnSamples(setup, before, "0")
            && Lookup(Run(setup, ops).series, Series(WindowMax(Utilization), setup.LabelsOf(Renamed()))) == Some(value)
  {
    var ops := AndPublished(before);
    NewNameIsWellFormed();
    PublishedAfter(setup, before, [Renamed()], {"0"}, "0");
    assert ops[..|ops| - 1] == before;
    PublicationShowsTheOpenWindow(setup, ops, {"0"}, "0", WindowMax(Utilization));
    ShownAlone(Lookup(Run(setup, ops).series, Series(WindowMax(Utilization), setup.LabelsOf(Renamed()))), value);
  }

  /** The value seen before the renaming is published under the new labels, which have no sample of their own. */
  lemma WindowOutlivesRenaming(setup: Setup, r: UtilReading)
    ensures var ops := SeenRenamedPublished(r);
            && Reached(setup, ops, {"0"}, "0") && Run(setup, ops).active == map["0" := Renamed()]
            && OwnSamples(setup, ops, "0") == []
            && Lookup(Run(setup, ops).series, Series(WindowMax(Utilization), setup.LabelsOf(Renamed()))) == Some(r.util)
  {
    var seen := AndSeen([], SECOND, r);
    SeenAgain(setup, [], SECOND, r);
    RenamedNext(setup, seen, 2 * SECOND);
    OnlyOneIdentifier();
    OneEntry(r);
    PublishedNext(setup, AndRenamed(seen, 2 * SECOND), r.util);
  }

  lemma EntriesOfOne(info: GpuInfo, observations: seq<Observation>)
    ensures EntriesOf(BatchOf(info, observations).samples) == WindowEntries(StableIdentifier(info), map[], observations)
  {
    assert [SampleOf(info, observations)][..0] == [];
  }

  lemma EntryOfUtil(id: string, value: real, time: Time)
    ensures WindowEntries(id, map[], UtilAt(value, time)) == [WindowObservation(WindowKey(id, Utilization), value)]
  {
    assert UtilAt(value, time)[..0] == [];
  }

  lemma ValuesOfOne(key: WindowKey, value: real)
    ensures ValuesFor([WindowObservation(key, value)], key) == [value]
  {
    assert [WindowObservation(key, value)][..0] == [];
  }

  lemma OneEntry(r: UtilReading)
    ensures ValuesFor(OpenWindow(AndSeen([], SECOND, r)), WindowKey("0", Utilization)) == [r.util]
  {
    BareIdentifier("0");
    EntriesOfOne(Bare("0"), UtilAt(r.util, r.at));
    EntryOfUtil("0", r.util, r.at);
    ValuesOfOne(WindowKey("0", Utilization), r.util);
    OpenWindowOfOne(SECOND, Seen(r));
  }

  lemma OpenWindowOfOne(now: Time, batch: SampleBatch)
    ensures OpenWindow([] + [CollectBatch(now, batch)]) == EntriesOf(batch.samples)
  {
    assert ([] + [CollectBatch(now, batch)])[..0] == [];
  }
}
