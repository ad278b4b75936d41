/**
 Published windows over whole runs: which observations a published maximum and average are of, and
 the range they lie in.
 */
module Publication {
  import opened FieldSets
  import opened Clock
  import opened Identity
  import opened Aggregation
  import opened Decoding
  import opened History
  import opened Sampling
  import opened Tracker
  import opened Exporter
  import opened Steps
  import opened Runs
  import opened Isolation
  import opened Histories

  // ----- The observations of the open window -----------------------------------------------

  function WindowEntry(id: string, fields: FieldStates, o: Observation): seq<WindowObservation> {
    if Skipped(fields, o.fieldId) then []
    else [WindowObservation(WindowKey(id, AggregationForField(o.fieldId).value), o.value)]
  }

  function WindowEntries(id: string, fields: FieldStates, observations: seq<Observation>): seq<WindowObservation> {
    if observations == [] then []
    else WindowEntries(id, fields, observations[..|observations| - 1])
         + WindowEntry(id, fields, observations[|observations| - 1])
  }

  function SampleEntries(sample: GpuSample): seq<WindowObservation> {
    WindowEntries(StableIdentifier(sample.info), sample.fields, sample.observations)
  }

  function EntriesOf(samples: seq<GpuSample>): seq<WindowObservation> {
    if samples == [] then [] else EntriesOf(samples[..|samples| - 1]) + SampleEntries(samples[|samples| - 1])
  }

  /** What was observed since the last publication. */
  function OpenWindow(ops: seq<Op>): seq<WindowObservation> {
    if ops == [] then []
    else
      match ops[|ops| - 1]
      case CollectBatch(_, batch) => OpenWindow(ops[..|ops| - 1]) + EntriesOf(batch.samples)
      case CollectError => OpenWindow(ops[..|ops| - 1])
      case PublishWindows(_) => []
  }

  /** Every observation that entered a window, from the first batch on. */
  function AllEntries(ops: seq<Op>): seq<WindowObservation> {
    if ops == [] then []
    else AllEntries(ops[..|ops| - 1]) + if ops[|ops| - 1].CollectBatch? then EntriesOf(ops[|ops| - 1].batch.samples)
        else []
  }

  /** What each publication of the run published. */
  function PublishedSegments(ops: seq<Op>): seq<seq<WindowObservation>> {
    if ops == [] then []
    else PublishedSegments(ops[..|ops| - 1]) + if ops[|ops| - 1].PublishWindows? then [OpenWindow(ops[..|ops| - 1])]
        else []
  }

  /**
   In every run the published windows and the open one, end to end, are all that was observed:
   nothing lost, repeated or moved.
   */
  lemma {:induction false} PublicationsPartitionTheRun(ops: seq<Op>)
    ensures Flatten(PublishedSegments(ops)) + OpenWindow(ops) == AllEntries(ops)
  {
    if ops == [] {
    } else {
      var n := |ops| - 1;
      var published, open := PublishedSegments(ops[..n]), OpenWindow(ops[..n]);
      PublicationsPartitionTheRun(ops[..n]);
      match ops[n]
      case CollectBatch(_, batch) =>
        assert published + [] == published;
        Associative(Flatten(published), open, EntriesOf(batch.samples));
      case CollectError =>
        assert published + [] == published;
        assert AllEntries(ops[..n]) + [] == AllEntries(ops[..n]);
      case PublishWindows(_) =>
        FlattenAppend(published, open);
        assert AllEntries(ops[..n]) + [] == AllEntries(ops[..n]);
        assert Flatten(published + [open]) + [] == Flatten(published) + open;
    }
  }

  lemma OneMoreEntry(setup: Setup, st: State, info: GpuInfo, fields: FieldStates, o: Observation,
                     segment: seq<WindowObservation>)
    requires st.windows == WindowOf(segment)
    ensures ObserveOne(setup, st, info, fields, o).windows == WindowOf(segment
        + WindowEntry(StableIdentifier(info), fields, o))
  {
    if Skipped(fields, o.fieldId) {
      assert segment + [] == segment;
    } else {
      WindowAppended(segment, WindowObservation(WindowKey(StableIdentifier(info),
                                                          AggregationForField(o.fieldId).value), o.value));
    }
  }

  lemma WindowAppended(segment: seq<WindowObservation>, entry: WindowObservation)
    ensures WindowOf(segment + [entry]) == Recorded(WindowOf(segment), entry)
  {
    assert (segment + [entry])[..|segment|] == segment;
  }

  lemma {:induction false} ObservationsEnterTheWindow(setup: Setup, st: State, info: GpuInfo, fields: FieldStates,
                                                      observations: seq<Observation>, segment: seq<WindowObservation>)
    requires st.windows == WindowOf(segment)
    ensures ObserveAll(setup, st, info, fields, observations).windows
            == WindowOf(segment + WindowEntries(StableIdentifier(info), fields, observations))
  {
    if observations == [] {
      assert segment + [] == segment;
    } else {
      var n := |observations| - 1;
      var id := StableIdentifier(info);
      ObservationsEnterTheWindow(setup, st, info, fields, observations[..n], segment);
      OneMoreEntry(setup, ObserveAll(setup, st, info, fields, observations[..n]), info, fields, observations[n],
                   segment + WindowEntries(id, fields, observations[..n]));
      assert (segment + WindowEntries(id, fields, observations[..n])) + WindowEntry(id, fields, observations[n])
             == segment + WindowEntries(id, fields, observations);
    }
  }

  lemma SampleEntersTheWindow(setup: Setup, st: State, sample: GpuSample, segment: seq<WindowObservation>)
    requires st.windows == WindowOf(segment)
    ensures CollectSample(setup, st, sample).windows == WindowOf(segment + SampleEntries(sample))
  {
    var published := WithStatus(setup, st, sample);
    ObservationsEnterTheWindow(setup, published, sample.info, sample.fields, sample.observations, segment);
    CountersTouch(setup, ObserveSample(setup, st, sample), sample.info, sample.slots, setup.counters,
                  Series(CollectSuccess, setup.LabelsOf(sample.info)));
  }

  lemma EntriesOfLast(segment: seq<WindowObservation>, samples: seq<GpuSample>)
    requires samples != []
    ensures (segment + EntriesOf(samples[..|samples| - 1])) + SampleEntries(samples[|samples| - 1])
        == segment + EntriesOf(samples)
  {
    var n := |samples| - 1;
    Associative(segment, EntriesOf(samples[..n]), SampleEntries(samples[n]));
  }

  lemma {:induction false} SamplesEnterTheWindow(setup: Setup, st: State, samples: seq<GpuSample>,
                                                 segment: seq<WindowObservation>)
    requires st.windows == WindowOf(segment)
    ensures CollectSamples(setup, st, samples).windows == WindowOf(segment + EntriesOf(samples))
  {
    if samples == [] {
      assert segment + [] == segment;
    } else {
      var n := |samples| - 1;
      SamplesEnterTheWindow(setup, st, samples[..n], segment);
      SampleEntersTheWindow(setup, CollectSamples(setup, st, samples[..n]), samples[n], segment
          + EntriesOf(samples[..n]));
      EntriesOfLast(segment, samples);
    }
  }

  /** In every run the aggregator holds the statistics of what was observed since the last publication. */
  lemma {:induction false} WindowsHoldTheOpenWindow(setup: Setup, ops: seq<Op>)
    ensures Run(setup, ops).windows == WindowOf(OpenWindow(ops))
  {
    if ops == [] {
    } else {
      var n := |ops| - 1;
      WindowsHoldTheOpenWindow(setup, ops[..n]);
      match ops[n]
      case CollectBatch(now, batch) =>
        SamplesEnterTheWindow(setup, Begin(setup, Run(setup, ops[..n]), now, batch), batch.samples,
                              OpenWindow(ops[..n]));
      case CollectError =>
      case PublishWindows(order) =>
    }
  }

  // ----- What a publication shows ----------------------------------------------------------

  /** The gauge of a metric by a window; nothing without an observation. */
  function Shown(window: Windows, id: string, m: Metric): Option<real>
    requires WindowMetric(m)
  {
    var key := WindowKey(id, m.aggregate);
    if key !in window || window[key].count == 0 then None
    else Some(if m.WindowMax? then window[key].max else window[key].Avg())
  }

  lemma EveryAggregateIsPublished(a: Aggregate)
    ensures a in AllAggregates()
  {
  }

  lemma PublishedByOne(series: SeriesMap, labels: Labels, id: string, snapshot: Windows, s: Series)
    requires WindowMetric(s.metric)
    ensures Lookup(PublishGpu(series, labels, id, snapshot, AllAggregates()), s)
            == if s.labels == labels then Shown(snapshot, id, s.metric) else Lookup(series, s)
  {
    EveryAggregateIsPublished(s.metric.aggregate);
    PublishGpuTouches(series, labels, id, snapshot, AllAggregates(), s);
  }

  lemma PublishedLast(setup: Setup, series: SeriesMap, order: seq<GpuInfo>, snapshot: Windows, s: Series)
    requires WindowMetric(s.metric) && order != []
    ensures var n := |order| - 1;
            Lookup(PublishGpus(setup, series, order, snapshot), s)
            == if s.labels == setup.LabelsOf(order[n]) then Shown(snapshot, StableIdentifier(order[n]), s.metric)
               else Lookup(PublishGpus(setup, series, order[..n], snapshot), s)
  {
    var n := |order| - 1;
    PublishedByOne(PublishGpus(setup, series, order[..n], snapshot), setup.LabelsOf(order[n]),
                   StableIdentifier(order[n]), snapshot, s);
  }

  lemma {:induction false} PublishedInOrder(setup: Setup, series: SeriesMap, order: seq<GpuInfo>, snapshot: Windows,
                                            info: GpuInfo, m: Metric)
    requires WindowMetric(m)
    requires forall other :: other in order ==> other == info || setup.LabelsOf(other) != setup.LabelsOf(info)
    ensures Lookup(PublishGpus(setup, series, order, snapshot), Series(m, setup.LabelsOf(info)))
            == if info in order then Shown(snapshot, StableIdentifier(info), m)
                else Lookup(series, Series(m, setup.LabelsOf(info)))
  {
    if order == [] {
    } else {
      var n := |order| - 1;
      var rest, last := order[..n], order[n];
      assert last in order && forall other :: other in order <==> other in rest || other == last;
      PublishedLast(setup, series, order, snapshot, Series(m, setup.LabelsOf(info)));
      if last != info { PublishedInOrder(setup, series, rest, snapshot, info, m); }
    }
  }

  lemma ListedLabelsDiffer(setup: Setup, active: map<string, GpuInfo>, order: seq<GpuInfo>, ids: set<string>,
                           id: string)
    requires ActiveNamed(active, ids) && Lists(order, active) && id in active
    ensures active[id] in order
    ensures forall other :: other in order ==>
              other == active[id] || setup.LabelsOf(other) != setup.LabelsOf(active[id])
  {
    forall other | other in order && other != active[id] ensures setup.LabelsOf(other) != setup.LabelsOf(active[id]) {
      assert active[StableIdentifier(other)] == other;
      ActiveLabelsDiffer(setup, active, ids, StableIdentifier(other), id);
    }
  }

  ghost predicate ShowsWindow(value: Option<real>, m: Metric, values: seq<real>)
    requires WindowMetric(m)
  {
    if values == [] then value == None
    else value.Some? && (if m.WindowMax? then IsMaximum(value.value, values)
        else value.value == Sum(values) / |values| as real)
  }

  lemma ShownIsTheWindow(segment: seq<WindowObservation>, id: string, m: Metric)
    requires WindowMetric(m)
    ensures ShowsWindow(Shown(WindowOf(segment), id, m), m, ValuesFor(segment, WindowKey(id, m.aggregate)))
  {
    WindowMeaning(segment, WindowKey(id, m.aggregate));
  }

  /**
   A publication shows of every active GPU the maximum and the mean of the values observed since
   the publication before, and no gauge where there were none; then the open window is empty.
   */
  lemma PublicationShowsTheOpenWindow(setup: Setup, ops: seq<Op>, ids: set<string>, id: string, m: Metric)
    requires ops != [] && ops[|ops| - 1].PublishWindows? && WellFormedRun(setup, ops, ids) && WindowMetric(m)
    requires id in Run(setup, ops).active
    ensures var st := Run(setup, ops);
            && ShowsWindow(Lookup(st.series, Series(m, setup.LabelsOf(st.active[id]))), m,
                           ValuesFor(OpenWindow(ops[..|ops| - 1]), WindowKey(id, m.aggregate)))
            && st.windows == map[]
  {
    var before, order := ops[..|ops| - 1], ops[|ops| - 1].order;
    var st := Run(setup, before);
    EverythingBelongsToAnActiveGpu(setup, before, ids);
    WindowsHoldTheOpenWindow(setup, before);
    ListedLabelsDiffer(setup, st.active, order, ids, id);
    PublishedInOrder(setup, st.series, order, st.windows, st.active[id], m);
    ShownIsTheWindow(OpenWindow(before), id, m);
  }

  // ----- The first publication of a life ---------------------------------------------------

  ghost predicate NoPublication(ops: seq<Op>) { forall i :: 0 <= i < |ops| ==> !ops[i].PublishWindows? }

  lemma {:induction false} OpenWindowInParts(before: seq<Op>, life: seq<Op>)
    requires NoPublication(life)
    ensures OpenWindow(before + life) == OpenWindow(before) + OpenWindow(life)
  {
    if life == [] {
      assert before + life == before;
      assert OpenWindow(before) + [] == OpenWindow(before);
    } else {
      var n := |life| - 1;
      var all := before + life;
      assert all[..|all| - 1] == before + life[..n] && all[|all| - 1] == life[n];
      OpenWindowInParts(before, life[..n]);
      if life[n].CollectBatch? {
        Associative(OpenWindow(before), OpenWindow(life[..n]), EntriesOf(life[n].batch.samples));
      }
    }
  }

  lemma {:induction false} ValuesInParts(a: seq<WindowObservation>, b: seq<WindowObservation>, key: WindowKey)
    ensures ValuesFor(a + b, key) == ValuesFor(a, key) + ValuesFor(b, key)
  {
    if b == [] {
      assert a + b == a;
      assert ValuesFor(a, key) + [] == ValuesFor(a, key);
    } else {
      var n := |b| - 1;
      assert (a + b)[..|a + b| - 1] == a + b[..n] && (a + b)[|a + b| - 1] == b[n];
      ValuesInParts(a, b[..n], key);
      Associative(ValuesFor(a, key), ValuesFor(b[..n], key), if b[n].key == key then [b[n].value] else []);
    }
  }

  /** No entry of this identifier. */
  ghost predicate NoEntryOf(segment: seq<WindowObservation>, id: string) {
    forall i :: 0 <= i < |segment| ==> segment[i].key.gpuIndex != id
  }

  lemma {:induction false} NoEntryNoValues(segment: seq<WindowObservation>, id: string)
    ensures NoEntryOf(segment, id) <==> forall a :: ValuesFor(segment, WindowKey(id, a)) == []
  {
    if segment == [] {
    } else {
      var n := |segment| - 1;
      NoEntryNoValues(segment[..n], id);
      if segment[n].key.gpuIndex == id {
        assert segment[n].key == WindowKey(id, segment[n].key.metric);
        assert ValuesFor(segment, WindowKey(id, segment[n].key.metric)) != [];
      }
    }
  }

  /** The GPU appears, or changes its labels, in the first of these steps, and stays; nothing is published. */
  ghost predicate IsLife(setup: Setup, before: seq<Op>, life: seq<Op>, id: string) {
    && life != [] && life[0].CollectBatch? && NoPublication(life)
    && forall i :: 0 <= i < |life| && life[i].CollectBatch? ==>
         (Stays(Run(setup, before + life[..i]), life[i].batch.supported, id) <==> i > 0)
  }

  lemma LifeBefore(setup: Setup, before: seq<Op>, life: seq<Op>, id: string)
    requires IsLife(setup, before, life, id) && |life| > 1
    ensures IsLife(setup, before, life[..|life| - 1], id)
  {
    var n := |life| - 1;
    assert forall i :: 0 <= i < n ==> life[..n][i] == life[i] && life[..n][..i] == life[..i];
  }

  lemma {:induction false} ForeignEntriesNoValues(sample: GpuSample, observations: seq<Observation>, key: WindowKey)
    requires StableIdentifier(sample.info) != key.gpuIndex
    ensures ValuesFor(WindowEntries(StableIdentifier(sample.info), sample.fields, observations), key) == []
  {
    if observations == [] {
    } else {
      var n, id := |observations| - 1, StableIdentifier(sample.info);
      ForeignEntriesNoValues(sample, observations[..n], key);
      ValuesInParts(WindowEntries(id, sample.fields, observations[..n]),
                    WindowEntry(id, sample.fields, observations[n]), key);
    }
  }

  lemma {:induction false} EntriesInParts(a: seq<GpuSample>, b: seq<GpuSample>)
    ensures EntriesOf(a + b) == EntriesOf(a) + EntriesOf(b)
  {
    if b == [] {
      assert a + b == a;
    } else {
      var n := |b| - 1;
      assert (a + b)[..|a + b| - 1] == a + b[..n] && (a + b)[|a + b| - 1] == b[n];
      EntriesInParts(a, b[..n]);
      Associative(EntriesOf(a), EntriesOf(b[..n]), SampleEntries(b[n]));
    }
  }

  /** The values of a GPU in a batch are those of its own samples. */
  lemma {:induction false} ValuesOfMine(samples: seq<GpuSample>, key: WindowKey)
    ensures ValuesFor(EntriesOf(SamplesOf(key.gpuIndex, samples)), key) == ValuesFor(EntriesOf(samples), key)
  {
    if samples == [] {
    } else {
      var n, mine := |samples| - 1, Mine(key.gpuIndex, samples[|samples| - 1]);
      ValuesOfMine(samples[..n], key);
      EntriesInParts(SamplesOf(key.gpuIndex, samples[..n]), mine);
      ValuesInParts(EntriesOf(SamplesOf(key.gpuIndex, samples[..n])), EntriesOf(mine), key);
      ValuesInParts(EntriesOf(samples[..n]), SampleEntries(samples[n]), key);
      if mine == [] {
        ForeignEntriesNoValues(samples[n], samples[n].observations, key);
      } else {
        assert mine[..0] == [] && EntriesOf(mine) == SampleEntries(samples[n]);
      }
    }
  }

  /** What the last step of a life adds to the own samples and to the window. */
  lemma LifeOneMore(setup: Setup, before: seq<Op>, life: seq<Op>, id: string)
    requires IsLife(setup, before, life, id)
    ensures var n := |life| - 1;
            var own := OwnSamples(setup, before + life, id);
            if life[n].CollectBatch? then
              && own == (if n > 0 then OwnSamples(setup, before + life[..n], id) else [])
                  + SamplesOf(id, life[n].batch.samples)
              && OpenWindow(life) == OpenWindow(life[..n]) + EntriesOf(life[n].batch.samples)
            else n > 0 && own == OwnSamples(setup, before + life[..n], id) && OpenWindow(life) == OpenWindow(life[..n])
  {
    var n := |life| - 1;
    LastStep(setup, before, life, id);
    assert life[n].CollectBatch? ==>
             (Stays(Run(setup, before + life[..n]), life[n].batch.supported, id) <==> n > 0);
  }

  lemma LastStep(setup: Setup, before: seq<Op>, life: seq<Op>, id: string)
    requires life != [] && !life[|life| - 1].PublishWindows?
    ensures var n := |life| - 1;
            var kept := OwnSamples(setup, before + life[..n], id);
            OwnSamples(setup, before + life, id) ==
              if life[n].CollectError? then kept
              else (if Stays(Run(setup, before + life[..n]), life[n].batch.supported, id) then kept else [])
                   + SamplesOf(id, life[n].batch.samples)
  {
    var n, all := |life| - 1, before + life;
    assert all[..|all| - 1] == before + life[..n] && all[|all| - 1] == life[n];
  }

  /** What a life puts into the window under its identifier are the values of the GPU's own samples. */
  lemma {:induction false} LifeEntersOwnValues(setup: Setup, before: seq<Op>, life: seq<Op>, key: WindowKey)
    requires IsLife(setup, before, life, key.gpuIndex)
    ensures ValuesFor(OpenWindow(life), key)
        == ValuesFor(EntriesOf(OwnSamples(setup, before + life, key.gpuIndex)), key)
  {
    var n := |life| - 1;
    LifeOneMore(setup, before, life, key.gpuIndex);
    if n > 0 {
      LifeBefore(setup, before, life, key.gpuIndex);
      LifeEntersOwnValues(setup, before, life[..n], key);
    }
    if life[n].CollectBatch? {
      BatchEntersOwnValues(OpenWindow(life[..n]),
                           if n > 0 then OwnSamples(setup, before + life[..n], key.gpuIndex) else [],
                           life[n].batch.samples, key);
    }
  }

  lemma BatchEntersOwnValues(window: seq<WindowObservation>, own: seq<GpuSample>, samples: seq<GpuSample>,
                             key: WindowKey)
    requires ValuesFor(window, key) == ValuesFor(EntriesOf(own), key)
    ensures ValuesFor(window + EntriesOf(samples), key)
        == ValuesFor(EntriesOf(own + SamplesOf(key.gpuIndex, samples)), key)
  {
    ValuesOfMine(samples, key);
    ValuesInParts(window, EntriesOf(samples), key);
    EntriesInParts(own, SamplesOf(key.gpuIndex, samples));
    ValuesInParts(EntriesOf(own), EntriesOf(SamplesOf(key.gpuIndex, samples)), key);
  }

  /** The values of a GPU's own samples since it appeared. */
  function OwnValues(setup: Setup, ops: seq<Op>, key: WindowKey): seq<real> {
    ValuesFor(EntriesOf(OwnSamples(setup, ops, key.gpuIndex)), key)
  }

  /**
   The first publication of a life shows, of every metric, the values left in the window under the
   identifier before the GPU appeared, followed by those of its own samples. It shows its own values
   alone exactly when the window was open without an entry of the identifier.
   */
  lemma FirstPublicationShowsOwnValuesExactly(setup: Setup, before: seq<Op>, life: seq<Op>, order: seq<GpuInfo>,
                                              ids: set<string>, id: string)
    requires IsLife(setup, before, life, id)
    requires WellFormedRun(setup, before + life + [PublishWindows(order)], ids)
    requires id in Run(setup, before + life + [PublishWindows(order)]).active
    ensures var st := Run(setup, before + life + [PublishWindows(order)]);
            forall m :: WindowMetric(m) ==>
              ShowsWindow(Lookup(st.series, Series(m, setup.LabelsOf(st.active[id]))), m,
                          Published(setup, before, life, WindowKey(id, m.aggregate)))
    ensures (forall a :: Published(setup, before, life, WindowKey(id, a))
               == OwnValues(setup, before + life, WindowKey(id, a)))
            <==> NoEntryOf(OpenWindow(before), id)
  {
    var ops := before + life + [PublishWindows(order)];
    assert ops[..|ops| - 1] == before + life;
    var st := Run(setup, ops);
    forall m | WindowMetric(m)
      ensures ShowsWindow(Lookup(st.series, Series(m, setup.LabelsOf(st.active[id]))), m,
                          Published(setup, before, life, WindowKey(id, m.aggregate)))
    {
      PublicationShowsTheOpenWindow(setup, ops, ids, id, m);
      OpenWindowOfLife(setup, before, life, WindowKey(id, m.aggregate));
    }
    OwnValuesExactly(OpenWindow(before), (a: Aggregate) => OwnValues(setup, before + life, WindowKey(id, a)), id);
  }

  /** The values left from before, then the own ones. */
  function Published(setup: Setup, before: seq<Op>, life: seq<Op>, key: WindowKey): seq<real> {
    ValuesFor(OpenWindow(before), key) + OwnValues(setup, before + life, key)
  }

  lemma OpenWindowOfLife(setup: Setup, before: seq<Op>, life: seq<Op>, key: WindowKey)
    requires IsLife(setup, before, life, key.gpuIndex)
    ensures ValuesFor(OpenWindow(before + life), key) == Published(setup, before, life, key)
  {
    OpenWindowInParts(before, life);
    ValuesInParts(OpenWindow(before), OpenWindow(life), key);
    LifeEntersOwnValues(setup, before, life, key);
  }

  /** Values after those of a window are alone exactly when the window has no entry of the identifier. */
  lemma OwnValuesExactly(window: seq<WindowObservation>, own: Aggregate -> seq<real>, id: string)
    ensures (forall a :: ValuesFor(window, WindowKey(id, a)) + own(a) == own(a)) <==> NoEntryOf(window, id)
  {
    NoEntryNoValues(window, id);
    forall a ensures ValuesFor(window, WindowKey(id, a)) + own(a) == own(a)
        <==> ValuesFor(window, WindowKey(id, a)) == []
    {
      assert |ValuesFor(window, WindowKey(id, a)) + own(a)| == |ValuesFor(window, WindowKey(id, a))| + |own(a)|;
      if ValuesFor(window, WindowKey(id, a)) == [] {
        assert [] + own(a) == own(a);
      }
    }
  }

  // ----- Ranges ----------------------------------------------------------------------------

  /** The range of the values of an aggregate; rates have no upper end. */
  function BoundsOf(a: Aggregate): Option<(real, real)> {
    if a.Utilization? || a.MemoryCopyUtil? || a.MemoryUsedPercent? then Some((0.0, 100.0))
    else if IsProfRatio(a) then Some((0.0, 1.0))
    else if a.PowerDraw? then Some((0.0, 1000000.0))
    else if a.Temperature? then Some((0.0, 150.0))
    else None
  }

  ghost predicate InBounds(a: Aggregate, value: real) {
    BoundsOf(a).Some? ==> BoundsOf(a).value.0 <= value <= BoundsOf(a).value.1
  }

  lemma RatioIsInBounds(f: FieldId, value: real)
    requires AggregationForField(f).Some? && IsProfRatio(AggregationForField(f).value) && InRange(f, value)
    ensures 0.0 <= value <= 1.0
  {
    RatioIds(f);
    RatioKind(f);
  }

  lemma RatioIds(f: FieldId)
    requires AggregationForField(f).Some? && IsProfRatio(AggregationForField(f).value)
    ensures f >= 1001 && f in ProfFields() && f !in {PROF_PCIE_TX_BYTES, PROF_PCIE_RX_BYTES, PROF_NVLINK_TX_BYTES,
                                                     PROF_NVLINK_RX_BYTES}
  {
  }

  lemma RatioKind(f: FieldId)
    requires f >= 1001 && f in ProfFields() && f !in {PROF_PCIE_TX_BYTES, PROF_PCIE_RX_BYTES, PROF_NVLINK_TX_BYTES,
                                                      PROF_NVLINK_RX_BYTES}
    ensures KindOf(f) == Some(Ratio01)
  {
  }

  lemma DecodedIsInBounds(f: FieldId, value: real)
    requires AggregationForField(f).Some? && InRange(f, value)
    ensures InBounds(AggregationForField(f).value, value)
  {
    if IsProfRatio(AggregationForField(f).value) {
      RatioIsInBounds(f, value);
    } else if BoundsOf(AggregationForField(f).value).Some? {
      assert f in {GPU_UTIL, MEM_COPY_UTIL, FB_USED_PERCENT, POWER_USAGE, GPU_TEMP};
    }
  }

  ghost predicate SegmentInBounds(segment: seq<WindowObservation>) {
    forall i :: 0 <= i < |segment| ==> InBounds(segment[i].key.metric, segment[i].value)
  }

  ghost predicate DecodedOp(op: Op) {
    op.CollectBatch? ==> forall s :: s in op.batch.samples ==> AllInRange(s.observations)
  }

  /** Every observation of the run came out of a converter. */
  ghost predicate DecodedRun(ops: seq<Op>) { forall i :: 0 <= i < |ops| ==> DecodedOp(ops[i]) }

  lemma {:induction false} EntriesInBounds(id: string, fields: FieldStates, observations: seq<Observation>)
    requires AllInRange(observations)
    ensures SegmentInBounds(WindowEntries(id, fields, observations))
  {
    if observations == [] {
    } else {
      var n := |observations| - 1;
      EntriesInBounds(id, fields, observations[..n]);
      if AggregationForField(observations[n].fieldId).Some? { DecodedIsInBounds(observations[n].fieldId,
          observations[n].value); }
    }
  }

  lemma {:induction false} SamplesInBounds(samples: seq<GpuSample>)
    requires forall s :: s in samples ==> AllInRange(s.observations)
    ensures SegmentInBounds(EntriesOf(samples))
  {
    if samples == [] {
    } else {
      var n := |samples| - 1;
      SamplesInBounds(samples[..n]);
      EntriesInBounds(StableIdentifier(samples[n].info), samples[n].fields, samples[n].observations);
    }
  }

  lemma {:induction false} OpenWindowInBounds(ops: seq<Op>)
    requires DecodedRun(ops)
    ensures SegmentInBounds(OpenWindow(ops))
  {
    if ops == [] {
    } else {
      var n := |ops| - 1;
      OpenWindowInBounds(ops[..n]);
      assert DecodedOp(ops[n]);
      if ops[n].CollectBatch? { SamplesInBounds(ops[n].batch.samples); }
    }
  }

  lemma {:induction false} ValuesInBounds(segment: seq<WindowObservation>, key: WindowKey, low: real, high: real)
    requires SegmentInBounds(segment) && BoundsOf(key.metric) == Some((low, high))
    ensures Within(ValuesFor(segment, key), low, high)
  {
    if segment == [] {
    } else {
      ValuesInBounds(segment[..|segment| - 1], key, low, high);
    }
  }

  lemma ShownInBounds(segment: seq<WindowObservation>, id: string, m: Metric)
    requires WindowMetric(m) && SegmentInBounds(segment) && Shown(WindowOf(segment), id, m).Some?
    ensures InBounds(m.aggregate, Shown(WindowOf(segment), id, m).value)
  {
    var key := WindowKey(id, m.aggregate);
    if BoundsOf(m.aggregate).Some? {
      var bounds := BoundsOf(m.aggregate).value;
      ValuesInBounds(segment, key, bounds.0, bounds.1);
      WindowWithinBounds(segment, key, bounds.0, bounds.1);
    }
  }

  ghost predicate GaugesInBounds(series: SeriesMap) {
    forall s :: s in series && WindowMetric(s.metric) ==> InBounds(s.metric.aggregate, series[s])
  }

  lemma {:induction false} PublishGpusInBounds(setup: Setup, series: SeriesMap, order: seq<GpuInfo>,
                                               segment: seq<WindowObservation>)
    requires GaugesInBounds(series) && SegmentInBounds(segment)
    ensures GaugesInBounds(PublishGpus(setup, series, order, WindowOf(segment)))
  {
    if order == [] {
    } else {
      var n := |order| - 1;
      var before := PublishGpus(setup, series, order[..n], WindowOf(segment));
      PublishGpusInBounds(setup, series, order[..n], segment);
      var id, labels := StableIdentifier(order[n]), setup.LabelsOf(order[n]);
      var after := PublishGpu(before, labels, id, WindowOf(segment), AllAggregates());
      forall s | s in after && WindowMetric(s.metric) ensures InBounds(s.metric.aggregate, after[s]) {
        PublishGpuTouches(before, labels, id, WindowOf(segment), AllAggregates(), s);
        if s.labels == labels && s.metric.aggregate in AllAggregates() { ShownInBounds(segment, id, s.metric); }
      }
    }
  }

  /** Gauges of windows change in publications only, or go with their GPU. */
  lemma CollectLeavesWindowGauges(setup: Setup, st: State, now: Time, batch: SampleBatch, s: Series)
    requires WindowMetric(s.metric)
    ensures var after := Collect(setup, st, now, batch).series; s in after ==> Lookup(after, s) == Lookup(st.series, s)
  {
    var gone := Outdated(st.active, ByIdentifier(batch.supported));
    var kept := Forget(setup, st, st.active, gone).series;
    ForgetTouches(setup, st, st.active, gone, s, "");
    ErrorsTouch(setup, kept, batch.failures, s);
    SuccessTouches(setup, ErrorsCounted(setup, kept, batch.failures), batch.supported,
                   FailedIdentifiers(batch.failures), s);
    SamplesLeaveWindowGauges(setup, Begin(setup, st, now, batch), batch.samples, s);
  }

  lemma {:induction false} SamplesLeaveWindowGauges(setup: Setup, st: State, samples: seq<GpuSample>, s: Series)
    requires WindowMetric(s.metric)
    ensures Lookup(CollectSamples(setup, st, samples).series, s) == Lookup(st.series, s)
  {
    if samples == [] {
    } else {
      var n := |samples| - 1;
      SamplesLeaveWindowGauges(setup, st, samples[..n], s);
      SampleTouches(setup, CollectSamples(setup, st, samples[..n]), samples[n], s);
    }
  }

  /**
   In every run over decoded observations every published maximum and average lies in the range of
   its metric: [0, 1] for profiling ratios, [0, 100] for percentages.
   */
  lemma {:induction false} PublishedValuesStayInRange(setup: Setup, ops: seq<Op>)
    requires DecodedRun(ops)
    ensures GaugesInBounds(Run(setup, ops).series)
  {
    if ops == [] {
    } else {
      var n := |ops| - 1;
      var st := Run(setup, ops[..n]);
      PublishedValuesStayInRange(setup, ops[..n]);
      match ops[n]
      case CollectBatch(now, batch) =>
        var after := Collect(setup, st, now, batch).series;
        forall s | s in after && WindowMetric(s.metric) ensures InBounds(s.metric.aggregate, after[s]) {
          CollectLeavesWindowGauges(setup, st, now, batch, s);
        }
      case CollectError =>
      case PublishWindows(order) =>
        WindowsHoldTheOpenWindow(setup, ops[..n]);
        OpenWindowInBounds(ops[..n]);
        PublishGpusInBounds(setup, st.series, order, OpenWindow(ops[..n]));
    }
  }
}
