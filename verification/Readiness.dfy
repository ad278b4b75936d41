/**
 Readiness over whole runs, and what a batch of the client says about completeness.
 */
module Readiness {
  import opened FieldSets
  import opened Clock
  import opened Identity
  import opened Sampling
  import opened Exporter
  import opened Steps
  import opened Runs
  import opened Isolation

  // ----- Batches ---------------------------------------------------------------------------

  function Identifiers(infos: seq<GpuInfo>): set<string> { set info | info in infos :: StableIdentifier(info) }

  ghost predicate DistinctIdentifiers(infos: seq<GpuInfo>) {
    forall i, j :: 0 <= i < j < |infos| ==> StableIdentifier(infos[i]) != StableIdentifier(infos[j])
  }

  lemma {:induction false} IdentifierCount(infos: seq<GpuInfo>)
    ensures |Identifiers(infos)| <= |infos|
    ensures DistinctIdentifiers(infos) ==> |Identifiers(infos)| == |infos|
  {
    if infos == [] {
    } else {
      var n := |infos| - 1;
      IdentifierCount(infos[..n]);
      LastBehind(infos);
      assert Identifiers(infos) == Identifiers(infos[..n]) + {StableIdentifier(infos[n])};
      if DistinctIdentifiers(infos) {
        assert StableIdentifier(infos[n]) !in Identifiers(infos[..n]);
      }
    }
  }

  lemma {:induction false} FailedIdentifiersAre(failures: seq<Failure>)
    ensures FailedIdentifiers(failures) == Identifiers(FailedInfos(failures))
    ensures FailedInfos(failures) == [] <==> failures == []
  {
    if failures == [] {
    } else {
      var n := |failures| - 1;
      var before, last := FailedInfos(failures[..n]), failures[n].info;
      FailedIdentifiersAre(failures[..n]);
      LastBehind(failures);
      assert FailedIdentifiers(failures) == FailedIdentifiers(failures[..n]) + {StableIdentifier(last)};
      assert Identifiers(before + [last]) == Identifiers(before) + {StableIdentifier(last)};
    }
  }

  lemma {:induction false} AsManyInfosAsSamples(samples: seq<GpuSample>)
    ensures |SampledInfos(samples)| == |samples|
  {
    if samples == [] {
    } else {
      AsManyInfosAsSamples(samples[..|samples| - 1]);
    }
  }

  lemma UnionAtMost(a: set<string>, b: set<string>, whole: set<string>)
    requires whole <= a + b
    ensures |whole| <= |a| + |b|
  {
    var rest := whole - a;
    assert whole == whole * a + rest && whole * a !! rest;
    Within(whole * a, a);
    Within(rest, b);
  }

  lemma {:induction false} Within(part: set<string>, whole: set<string>)
    requires part <= whole
    ensures |part| <= |whole|
  {
    if part == {} {
    } else {
      var x :| x in part;
      Within(part - {x}, whole - {x});
    }
  }

  /** With distinct identifiers no discovered GPU escapes: each is collected or counted as failed. */
  lemma DiscoveredAreCollectedOrFailed(batch: SampleBatch, gpuIds: seq<nat>)
    requires Accounts(batch, gpuIds) && DistinctIdentifiers(batch.supported)
    ensures |batch.supported| <= |batch.samples| + |FailedIdentifiers(batch.failures)|
  {
    var sampled := SampledInfos(batch.samples);
    FailedIdentifiersAre(batch.failures);
    AsManyInfosAsSamples(batch.samples);
    IdentifierCount(batch.supported);
    IdentifierCount(sampled);
    UnionAtMost(Identifiers(sampled), FailedIdentifiers(batch.failures), Identifiers(batch.supported));
  }

  /** A batch of the client is complete exactly when some GPU was listed and nothing failed. */
  lemma CompleteExactly(batch: SampleBatch, gpuIds: seq<nat>)
    requires Accounts(batch, gpuIds)
    ensures Complete(batch) <==> gpuIds != [] && batch.failures == []
  {
    AsManyInfosAsSamples(batch.samples);
    FailedIdentifiersAre(batch.failures);
    var failed := FailedInfos(batch.failures);
    if failed != [] {
      assert failed[0] in failed;
      assert StableIdentifier(failed[0]) in Identifiers(failed);
    }
  }

  // ----- Readiness -------------------------------------------------------------------------

  /** The latest collection that was tried, whether it got a batch or not. */
  function LatestAttempt(ops: seq<Op>): Option<Op> {
    if ops == [] then None
    else if ops[|ops| - 1].PublishWindows? then LatestAttempt(ops[..|ops| - 1])
    else Some(ops[|ops| - 1])
  }

  lemma PublishKeepsHealth(setup: Setup, st: State, order: seq<GpuInfo>)
    ensures Publish(setup, st, order).health == st.health
  {
  }

  lemma {:induction false} SamplesKeepHealth(setup: Setup, st: State, samples: seq<GpuSample>)
    ensures CollectSamples(setup, st, samples).health == st.health
  {
    if samples == [] {
    } else {
      var n := |samples| - 1;
      SamplesKeepHealth(setup, st, samples[..n]);
      SampleCreates(setup, CollectSamples(setup, st, samples[..n]), samples[n],
                    Series(RequestCount, Labels("", "", "", "", "")));
    }
  }

  lemma CollectMarks(setup: Setup, st: State, now: Time, batch: SampleBatch)
    ensures Collect(setup, st, now, batch).health == Marked(st.health, now, batch)
  {
    SamplesKeepHealth(setup, Begin(setup, st, now, batch), batch.samples);
  }

  /** Some GPU was listed, all of them were collected, and nothing failed. */
  predicate AllWell(batch: SampleBatch) {
    batch.supported != [] && |batch.samples| == |batch.supported| && batch.failures == []
  }

  lemma CompleteMeansAllWell(batch: SampleBatch)
    ensures Complete(batch) <==> AllWell(batch)
  {
    if batch.failures != [] {
      assert batch.failures[0] in batch.failures;
      assert StableIdentifier(batch.failures[0].info) in FailedIdentifiers(batch.failures);
    } else {
      assert FailedIdentifiers(batch.failures) == {};
    }
  }

  predicate IsComplete(attempt: Op) { attempt.CollectBatch? && AllWell(attempt.batch) }

  /** When the latest complete attempt was made; Go's zero time if there was none. */
  function LatestCompletion(ops: seq<Op>): Time {
    if ops == [] then ZERO_TIME
    else if IsComplete(ops[|ops| - 1]) then ops[|ops| - 1].now
    else LatestCompletion(ops[..|ops| - 1])
  }

  /** The attempts that failed or were not complete. */
  function IncompleteAttempts(ops: seq<Op>): nat {
    if ops == [] then 0
    else
      var last := ops[|ops| - 1];
      IncompleteAttempts(ops[..|ops| - 1]) + if last.PublishWindows? || IsComplete(last) then 0 else 1
  }

  /** What the gauges of the exporter itself say about the latest attempt. */
  ghost predicate Reports(health: Health, attempt: Option<Op>) {
    match attempt
    case Some(CollectBatch(_, batch)) =>
      && health.up && health.complete == AllWell(batch)
      && health.discovered == |batch.supported| && health.collected == |batch.samples|
      && health.failed == |FailedIdentifiers(batch.failures)|
      && health.lastGpuCount == if AllWell(batch) then |batch.supported| else 0
    case _ =>
      && !health.up && !health.complete && health.lastGpuCount == 0
      && health.discovered == health.collected == health.failed == 0
  }

  /** Readiness by what was attempted. */
  ghost predicate ReadyBy(setup: Setup, attempt: Option<Op>, now: Time) {
    match attempt
    case Some(CollectBatch(at, batch)) => AllWell(batch) && at != ZERO_TIME && now - at <= setup.maxAge
    case _ => false
  }

  /**
   In every run the exporter's own gauges report the latest attempt, the time of the last success is
   that of the latest complete one, and errors count the incomplete ones.
   */
  lemma {:induction false} HealthInEveryRun(setup: Setup, ops: seq<Op>)
    ensures var health := Run(setup, ops).health;
            && Reports(health, LatestAttempt(ops))
            && health.lastSuccess == LatestCompletion(ops) && health.errors == IncompleteAttempts(ops)
  {
    if ops == [] {
    } else {
      var st := Run(setup, ops[..|ops| - 1]);
      HealthInEveryRun(setup, ops[..|ops| - 1]);
      match ops[|ops| - 1]
      case CollectBatch(now, batch) =>
        CollectMarks(setup, st, now, batch);
        CompleteMeansAllWell(batch);
      case CollectError =>
      case PublishWindows(order) => PublishKeepsHealth(setup, st, order);
    }
  }

  lemma {:induction false} CompletionOfLatestAttempt(ops: seq<Op>)
    requires LatestAttempt(ops).Some? && IsComplete(LatestAttempt(ops).value)
    ensures LatestCompletion(ops) == LatestAttempt(ops).value.now
  {
    if ops[|ops| - 1].PublishWindows? {
      CompletionOfLatestAttempt(ops[..|ops| - 1]);
    }
  }

  /**
   In every run the exporter is ready exactly when the latest collection attempt was complete and is
   not older than the maximum age; earlier successes never make up for it.
   */
  lemma ReadyMeansLatestAttemptComplete(setup: Setup, ops: seq<Op>, now: Time)
    ensures Ready(setup, Run(setup, ops).health, now) <==> ReadyBy(setup, LatestAttempt(ops), now)
  {
    HealthInEveryRun(setup, ops);
    if LatestAttempt(ops).Some? && IsComplete(LatestAttempt(ops).value) {
      CompletionOfLatestAttempt(ops);
    }
  }

  /** The maximum age is five collection intervals, and at least five seconds. */
  lemma MaxAgeIsFiveIntervals(config: Config, hostname: string)
    ensures var interval := if config.scrapeInterval > 0 then config.scrapeInterval else DEFAULT_SCRAPE_INTERVAL;
            var age := SetupFor(config, hostname).maxAge;
            age >= 5 * interval && age >= 5 * SECOND && (age == 5 * interval || age == 5 * SECOND)
  {
  }

  // ----- Status of one GPU -----------------------------------------------------------------

  lemma SuccessOfLast(setup: Setup, series: SeriesMap, supported: seq<GpuInfo>, failed: set<string>, s: Series)
    requires supported != [] && s.metric.CollectSuccess?
    ensures var n := |supported| - 1;
            Lookup(SuccessSet(setup, series, supported, failed), s)
            == if s.labels == setup.LabelsOf(supported[n])
                then Some(BoolReal(StableIdentifier(supported[n]) !in failed))
               else Lookup(SuccessSet(setup, series, supported[..n], failed), s)
  {
  }

  /** Of the listed GPUs only this one has its labels. */
  ghost predicate OnlyItsLabels(setup: Setup, supported: seq<GpuInfo>, info: GpuInfo) {
    forall i :: 0 <= i < |supported| ==> supported[i] == info || setup.LabelsOf(supported[i]) != setup.LabelsOf(info)
  }

  lemma {:induction false} SuccessOf(setup: Setup, series: SeriesMap, supported: seq<GpuInfo>, failed: set<string>,
                                     info: GpuInfo)
    requires info in supported && OnlyItsLabels(setup, supported, info)
    ensures Lookup(SuccessSet(setup, series, supported, failed), Series(CollectSuccess, setup.LabelsOf(info)))
            == Some(BoolReal(StableIdentifier(info) !in failed))
  {
    var n := |supported| - 1;
    LastBehind(supported);
    SuccessOfLast(setup, series, supported, failed, Series(CollectSuccess, setup.LabelsOf(info)));
    if supported[n] != info {
      SuccessOf(setup, series, supported[..n], failed, info);
    }
  }

  function FailuresLike(setup: Setup, failures: seq<Failure>, labels: Labels, reason: string): nat {
    if failures == [] then 0
    else
      var n := |failures| - 1;
      FailuresLike(setup, failures[..n], labels, reason) +
      if failures[n].reason == reason && setup.LabelsOf(failures[n].info) == labels then 1 else 0
  }

  /** A collection adds to each error counter the number of its failures with those labels and that reason. */
  lemma {:induction false} ErrorsAreCounted(setup: Setup, series: SeriesMap, failures: seq<Failure>, labels: Labels,
                                            reason: string)
    ensures var s := Series(CollectionErrors(reason), labels);
            Get(ErrorsCounted(setup, series, failures), s) == Get(series, s)
                + FailuresLike(setup, failures, labels, reason) as real
  {
    if failures == [] {
    } else {
      ErrorsAreCounted(setup, series, failures[..|failures| - 1], labels, reason);
    }
  }

  lemma {:induction false} SamplesLeaveStatus(setup: Setup, st: State, samples: seq<GpuSample>, s: Series)
    requires CollectMetric(s.metric)
    ensures Lookup(CollectSamples(setup, st, samples).series, s) == Lookup(st.series, s)
  {
    if samples == [] {
    } else {
      var n := |samples| - 1;
      SamplesLeaveStatus(setup, st, samples[..n], s);
      SampleTouches(setup, CollectSamples(setup, st, samples[..n]), samples[n], s);
    }
  }

  lemma DistinctLabels(setup: Setup, batch: SampleBatch, ids: set<string>, info: GpuInfo)
    requires WellFormed(batch, ids) && info in batch.supported
    ensures OnlyItsLabels(setup, batch.supported, info)
  {
    forall other | other in batch.supported && setup.LabelsOf(other) == setup.LabelsOf(info) ensures other == info {
      LabelsDetermineIdentifier(other, info, setup.hostname);
      ByIdentifierMeaning(batch.supported);
    }
  }

  /**
   After a collection the status gauge of a listed GPU is 1 exactly when the batch has no failure of
   it, and 0 otherwise.
   */
  lemma StatusShowsFailures(setup: Setup, st: State, now: Time, batch: SampleBatch, ids: set<string>, info: GpuInfo)
    requires WellFormed(batch, ids) && info in batch.supported
    ensures Lookup(Collect(setup, st, now, batch).series, Series(CollectSuccess, setup.LabelsOf(info)))
            == Some(if exists f :: f in batch.failures && StableIdentifier(f.info) == StableIdentifier(info) then 0.0
                else 1.0)
  {
    var kept := Reconcile(setup, st, batch.supported).series;
    DistinctLabels(setup, batch, ids, info);
    SuccessOf(setup, ErrorsCounted(setup, kept, batch.failures), batch.supported, FailedIdentifiers(batch.failures),
              info);
    SamplesLeaveStatus(setup, Begin(setup, st, now, batch), batch.samples,
                       Series(CollectSuccess, setup.LabelsOf(info)));
  }
}
