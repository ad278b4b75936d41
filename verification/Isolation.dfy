/**
 Identity and state move together: in well-formed runs every series and every stored key belongs
 to an active GPU, and what is exported for a GPU is determined by its own samples alone.
 */
module Isolation {
  import opened FieldSets
  import opened Clock
  import opened Identity
  import opened Decoding
  import opened History
  import opened Sampling
  import opened Exporter
  import opened Steps
  import opened Runs

  // ----- Well-formed runs ------------------------------------------------------------------

  ghost predicate PairwiseSeparate(ids: set<string>) {
    forall a, b :: a in ids && b in ids && a != b ==> Separate(a, b)
  }

  /** Distinct identifiers, indexes present, samples and failures of listed GPUs only. */
  ghost predicate WellFormed(batch: SampleBatch, ids: set<string>) {
    && (forall i, j :: 0 <= i < j < |batch.supported|
          ==> StableIdentifier(batch.supported[i]) != StableIdentifier(batch.supported[j]))
    && (forall info :: info in batch.supported ==> !Blank(info.index) && StableIdentifier(info) in ids)
    && (forall s :: s in batch.samples ==> s.info in batch.supported)
    && (forall f :: f in batch.failures ==> f.info in batch.supported)
  }

  /** An order of the active GPUs. */
  ghost predicate Lists(order: seq<GpuInfo>, active: map<string, GpuInfo>) {
    && (forall info :: info in order ==> StableIdentifier(info) in active && active[StableIdentifier(info)] == info)
    && (forall id :: id in active ==> active[id] in order)
  }

  ghost predicate WellFormedOp(st: State, op: Op, ids: set<string>) {
    match op
    case CollectBatch(now, batch) => WellFormed(batch, ids)
    case CollectError => true
    case PublishWindows(order) => Lists(order, st.active)
  }

  ghost predicate WellFormedRun(setup: Setup, ops: seq<Op>, ids: set<string>) {
    ops == [] ||
    (WellFormedRun(setup, ops[..|ops| - 1], ids) && WellFormedOp(Run(setup, ops[..|ops| - 1]), ops[|ops| - 1], ids))
  }

  /** The states the theorems about one GPU are about: reached by a well-formed run, with the GPU active. */
  ghost predicate Reached(setup: Setup, ops: seq<Op>, ids: set<string>, id: string) {
    WellFormedRun(setup, ops, ids) && PairwiseSeparate(ids) && id in Run(setup, ops).active
  }

  // ----- Everything belongs to an active GPU -----------------------------------------------

  ghost predicate LabelsOfActive(setup: Setup, active: map<string, GpuInfo>, labels: Labels) {
    exists id :: id in active && labels == setup.LabelsOf(active[id])
  }

  ghost predicate KeyOfActive(active: map<string, GpuInfo>, key: string) {
    exists id, suffix :: id in active && key == Key(id, suffix)
  }

  ghost predicate ActiveNamed(active: map<string, GpuInfo>, ids: set<string>) {
    forall id :: id in active ==> StableIdentifier(active[id]) == id && !Blank(active[id].index) && id in ids
  }

  ghost predicate Tidy(setup: Setup, st: State, ids: set<string>) {
    && ActiveNamed(st.active, ids)
    && (forall s :: s in st.series ==> LabelsOfActive(setup, st.active, s.labels))
    && (forall key :: key in st.times ==> KeyOfActive(st.active, key))
    && (forall key :: key in st.hardware ==> KeyOfActive(st.active, key))
  }

  lemma {:induction false} ByIdentifierMeaning(current: seq<GpuInfo>)
    requires forall i, j :: 0 <= i < j < |current| ==> StableIdentifier(current[i]) != StableIdentifier(current[j])
    ensures forall info :: info in current ==>
              StableIdentifier(info) in ByIdentifier(current)
              && ByIdentifier(current)[StableIdentifier(info)] == info
    ensures forall id :: id in ByIdentifier(current) ==>
              StableIdentifier(ByIdentifier(current)[id]) == id && ByIdentifier(current)[id] in current
  {
    if current == [] {
    } else {
      var n := |current| - 1;
      ByIdentifierMeaning(current[..n]);
      LastBehind(current);
      forall info | info in current[..n] ensures StableIdentifier(info) != StableIdentifier(current[n]) {
        var i :| 0 <= i < n && current[i] == info;
      }
    }
  }

  lemma SameIdentitySameLabels(setup: Setup, a: GpuInfo, b: GpuInfo)
    requires SameIdentity(a, b)
    ensures setup.LabelsOf(a) == setup.LabelsOf(b)
  {
  }

  lemma TidyAfterReconcile(setup: Setup, st: State, batch: SampleBatch, ids: set<string>)
    requires Tidy(setup, st, ids) && WellFormed(batch, ids)
    ensures Tidy(setup, Reconcile(setup, st, batch.supported), ids)
  {
    var next := ByIdentifier(batch.supported);
    var gone := Outdated(st.active, next);
    var after := Reconcile(setup, st, batch.supported);
    ByIdentifierMeaning(batch.supported);
    forall s | s in after.series ensures LabelsOfActive(setup, next, s.labels) {
      ForgetTouches(setup, st, st.active, gone, s, "");
      var id :| id in st.active && s.labels == setup.LabelsOf(st.active[id]);
      assert id !in gone;
      SameIdentitySameLabels(setup, st.active[id], next[id]);
    }
    forall key | key in after.times || key in after.hardware ensures KeyOfActive(next, key) {
      ForgetTouches(setup, st, st.active, gone, Series(RequestCount, Labels("", "", "", "", "")), key);
      assert KeyOfActive(st.active, key);
      var id, suffix :| id in st.active && key == Key(id, suffix);
      OwnKeysDropped(id, suffix);
      assert id !in gone;
    }
  }

  lemma {:induction false} ObservedKeys(setup: Setup, st: State, info: GpuInfo, fields: FieldStates,
                                        observations: seq<Observation>, key: string)
    requires key in ObserveAll(setup, st, info, fields, observations).times
    ensures key in st.times || exists suffix :: key == Key(StableIdentifier(info), suffix)
  {
    if observations == [] {
    } else {
      var n := |observations| - 1;
      if key in ObserveAll(setup, st, info, fields, observations[..n]).times {
        ObservedKeys(setup, st, info, fields, observations[..n], key);
      } else {
        assert key == Key(StableIdentifier(info), Decimal(observations[n].fieldId));
      }
    }
  }

  lemma {:induction false} CountedKeys(setup: Setup, st: State, info: GpuInfo, slots: Slots, table: seq<CounterSpec>,
                                       key: string)
    requires key in CountAll(setup, st, info, slots, table).hardware
    ensures key in st.hardware || exists suffix :: key == Key(StableIdentifier(info), suffix)
  {
    if table == [] {
    } else {
      var n := |table| - 1;
      if key in CountAll(setup, st, info, slots, table[..n]).hardware {
        CountedKeys(setup, st, info, slots, table[..n], key);
      } else {
        assert key == Key(StableIdentifier(info), table[n].suffix);
      }
    }
  }

  lemma TidyAfterSample(setup: Setup, st: State, sample: GpuSample, ids: set<string>)
    requires Tidy(setup, st, ids)
    requires StableIdentifier(sample.info) in st.active && st.active[StableIdentifier(sample.info)] == sample.info
    ensures Tidy(setup, CollectSample(setup, st, sample), ids) && CollectSample(setup, st, sample).active == st.active
  {
    var after := CollectSample(setup, st, sample);
    SampleCreates(setup, st, sample, Series(RequestCount, Labels("", "", "", "", "")));
    forall s | s in after.series ensures LabelsOfActive(setup, after.active, s.labels) {
      SampleCreates(setup, st, sample, s);
    }
    forall key | key in after.times ensures KeyOfActive(after.active, key) {
      SampleTimeKeys(setup, st, sample, key);
    }
    forall key | key in after.hardware ensures KeyOfActive(after.active, key) {
      SampleHardwareKeys(setup, st, sample, key);
    }
  }

  lemma SampleTimeKeys(setup: Setup, st: State, sample: GpuSample, key: string)
    requires key in CollectSample(setup, st, sample).times
    ensures key in st.times || exists suffix :: key == Key(StableIdentifier(sample.info), suffix)
  {
    var published := WithStatus(setup, st, sample);
    CountersTouch(setup, ObserveSample(setup, st, sample), sample.info, sample.slots, setup.counters,
                  Series(RequestCount, Labels("", "", "", "", "")));
    ObservedKeys(setup, published, sample.info, sample.fields, sample.observations, key);
  }

  lemma SampleHardwareKeys(setup: Setup, st: State, sample: GpuSample, key: string)
    requires key in CollectSample(setup, st, sample).hardware
    ensures key in st.hardware || exists suffix :: key == Key(StableIdentifier(sample.info), suffix)
  {
    CountedKeys(setup, ObserveSample(setup, st, sample), sample.info, sample.slots, setup.counters, key);
    ObserveSampleTouches(setup, st, sample, Series(RequestCount, Labels("", "", "", "", "")));
  }

  lemma {:induction false} TidyAfterSamples(setup: Setup, st: State, samples: seq<GpuSample>, ids: set<string>)
    requires Tidy(setup, st, ids)
    requires forall s :: s in samples ==>
               StableIdentifier(s.info) in st.active && st.active[StableIdentifier(s.info)] == s.info
    ensures Tidy(setup, CollectSamples(setup, st, samples), ids)
    ensures CollectSamples(setup, st, samples).active == st.active
  {
    if samples == [] {
    } else {
      var n := |samples| - 1;
      TidyAfterSamples(setup, st, samples[..n], ids);
      assert samples[n] in samples;
      TidyAfterSample(setup, CollectSamples(setup, st, samples[..n]), samples[n], ids);
    }
  }

  lemma TidyAfterBegin(setup: Setup, st: State, now: Time, batch: SampleBatch, ids: set<string>)
    requires Tidy(setup, st, ids) && WellFormed(batch, ids)
    ensures var after := Begin(setup, st, now, batch);
            && Tidy(setup, after, ids) && after.active == ByIdentifier(batch.supported)
            && forall info :: info in batch.supported ==>
                 StableIdentifier(info) in after.active && after.active[StableIdentifier(info)] == info
  {
    TidyAfterReconcile(setup, st, batch, ids);
    ByIdentifierMeaning(batch.supported);
    var after := Begin(setup, st, now, batch);
    forall s | s in after.series ensures LabelsOfActive(setup, after.active, s.labels) {
      BeginCreates(setup, st, now, batch, s);
    }
  }

  /** Apart from what the reconciliation keeps, a collection begins with status series of GPUs in the batch. */
  lemma BeginCreates(setup: Setup, st: State, now: Time, batch: SampleBatch, s: Series)
    requires s in Begin(setup, st, now, batch).series
    ensures s in Reconcile(setup, st, batch.supported).series
        || (exists f :: f in batch.failures && s.labels == setup.LabelsOf(f.info))
        || exists info :: info in batch.supported && s.labels == setup.LabelsOf(info)
  {
    var kept := Reconcile(setup, st, batch.supported).series;
    ErrorsTouch(setup, kept, batch.failures, s);
    SuccessTouches(setup, ErrorsCounted(setup, kept, batch.failures), batch.supported,
                   FailedIdentifiers(batch.failures), s);
  }

  lemma TidyAfterPublish(setup: Setup, st: State, order: seq<GpuInfo>, ids: set<string>)
    requires Tidy(setup, st, ids) && Lists(order, st.active)
    ensures Tidy(setup, Publish(setup, st, order), ids)
  {
    var after := Publish(setup, st, order);
    forall s | s in after.series ensures LabelsOfActive(setup, after.active, s.labels) {
      PublishTouches(setup, st.series, order, st.windows, s);
    }
  }

  /** After every step of a well-formed run each GPU-labelled series and each stored key belongs to an active GPU. */
  lemma {:induction false} EverythingBelongsToAnActiveGpu(setup: Setup, ops: seq<Op>, ids: set<string>)
    requires WellFormedRun(setup, ops, ids)
    ensures Tidy(setup, Run(setup, ops), ids)
  {
    if ops == [] {
    } else {
      var st := Run(setup, ops[..|ops| - 1]);
      EverythingBelongsToAnActiveGpu(setup, ops[..|ops| - 1], ids);
      match ops[|ops| - 1]
      case CollectBatch(now, batch) =>
        TidyAfterBegin(setup, st, now, batch, ids);
        TidyAfterSamples(setup, Begin(setup, st, now, batch), batch.samples, ids);
      case CollectError =>
      case PublishWindows(order) =>
        TidyAfterPublish(setup, st, order, ids);
    }
  }

  // ----- Removing one GPU leaves the others alone ------------------------------------------

  /** Labels of two active GPUs differ. */
  lemma ActiveLabelsDiffer(setup: Setup, active: map<string, GpuInfo>, ids: set<string>, a: string, b: string)
    requires ActiveNamed(active, ids) && a in active && b in active && a != b
    ensures setup.LabelsOf(active[a]) != setup.LabelsOf(active[b])
  {
    if setup.LabelsOf(active[a]) == setup.LabelsOf(active[b]) {
      LabelsDetermineIdentifier(active[a], active[b], setup.hostname);
    }
  }

  /**
   Reconciling with a batch deletes nothing of a GPU that stays as it was, and everything of one
   that is gone or relabelled.
   */
  lemma ReconcileIsExact(setup: Setup, st: State, batch: SampleBatch, ids: set<string>, id: string, metric: Metric,
                         suffix: string)
    requires Tidy(setup, st, ids) && WellFormed(batch, ids) && PairwiseSeparate(ids) && id in st.active
    ensures var after := Reconcile(setup, st, batch.supported);
            var s, key := Series(metric, setup.LabelsOf(st.active[id])), Key(id, suffix);
            if id in Outdated(st.active, ByIdentifier(batch.supported))
            then s !in after.series && key !in after.hardware && key !in after.times
            else Lookup(after.series, s) == Lookup(st.series, s)
                 && Lookup(after.hardware, key) == Lookup(st.hardware, key)
                 && Lookup(after.times, key) == Lookup(st.times, key)
  {
    var gone := Outdated(st.active, ByIdentifier(batch.supported));
    var s, key := Series(metric, setup.LabelsOf(st.active[id])), Key(id, suffix);
    ForgetTouches(setup, st, st.active, gone, s, key);
    OwnKeysDropped(id, suffix);
    if id !in gone {
      forall other | other in gone ensures s.labels != setup.LabelsOf(st.active[other]) && !Dropped(other, key) {
        ActiveLabelsDiffer(setup, st.active, ids, id, other);
        if Dropped(other, key) { DroppedKeyIsOwnOrNotSeparate(other, id, suffix); }
      }
    }
  }

  // ----- There are such runs ---------------------------------------------------------------

  /** A GPU known by its index only. */
  function Bare(index: string): GpuInfo { GpuInfo(0, index, "", "", "", 0.0, None) }

  lemma BareIdentifier(index: string)
    requires index != "" && !IsSpace(index[0]) && !IsSpace(index[|index| - 1]) && index[0] != '<'
    ensures StableIdentifier(Bare(index)) == index && !Blank(index)
  {
    assert ValidString(index) == index && ValidString("") == "";
  }

  lemma OneCollectionIsWellFormed(setup: Setup, now: Time, batch: SampleBatch, ids: set<string>, info: GpuInfo)
    requires WellFormed(batch, ids) && info in batch.supported
    ensures WellFormedRun(setup, [CollectBatch(now, batch)], ids)
    ensures StableIdentifier(info) in Run(setup, [CollectBatch(now, batch)]).active
  {
    var ops := [CollectBatch(now, batch)];
    assert ops[..0] == [];
    assert WellFormedRun(setup, ops[..0], ids);
    EverythingBelongsToAnActiveGpu(setup, ops[..0], ids);
    TidyAfterBegin(setup, INITIAL, now, batch, ids);
    TidyAfterSamples(setup, Begin(setup, INITIAL, now, batch), batch.samples, ids);
  }

  /** Two GPUs known by index, listed together. */
  function TwoListed(): SampleBatch { SampleBatch([], [Bare("0"), Bare("1")], [Failure(Bare("0"), "fast")]) }

  lemma TwoListedIsWellFormed()
    ensures WellFormed(TwoListed(), {"0", "1"}) && StableIdentifier(Bare("0")) == "0"
    ensures StableIdentifier(Bare("1")) == "1"
    ensures Bare("0") in TwoListed().supported && Bare("1") in TwoListed().supported
  {
    BareIdentifier("0");
    BareIdentifier("1");
    assert "0"[0] != "1"[0];
    assert TwoListed().supported[0] == Bare("0") && TwoListed().supported[1] == Bare("1");
  }

  lemma TwoIdentifiersAreSeparate()
    ensures PairwiseSeparate({"0", "1"})
  {
    assert |"0" + ":"| == 2 && |"1" + ":"| == 2;
  }

  /** Well-formed runs exist, here one with two GPUs active. */
  lemma WellFormedRunsExist(setup: Setup, now: Time)
    ensures Reached(setup, [CollectBatch(now, TwoListed())], {"0", "1"}, "0")
    ensures Reached(setup, [CollectBatch(now, TwoListed())], {"0", "1"}, "1")
  {
    TwoListedIsWellFormed();
    TwoIdentifiersAreSeparate();
    OneCollectionIsWellFormed(setup, now, TwoListed(), {"0", "1"}, Bare("0"));
    OneCollectionIsWellFormed(setup, now, TwoListed(), {"0", "1"}, Bare("1"));
  }
}
