# GPU metrics exporter: a verified model

The exporter reads NVIDIA GPU telemetry through DCGM and turns it into Prometheus series. The two
ends are foreign code; between them is a stateful pipeline whose promises are about whole runs.
This project models that pipeline and proves those promises.

| file | what it is about |
|---|---|
| `FieldSets`, `Clock`, `Identity`, `Aggregation`, `Decoding` | field lists, times, GPU identity and key strings, the field classes, the converters of raw values |
| `Negotiation` | the search for an acceptable field list, against any accept/reject oracle |
| `History` | reading one watcher: stable order, slots, availability, rate limit, staleness |
| `Sampling`, `Collections` | what one collection of the client comes to, and whole runs of it, without objects |
| `SampleSlots` | what every sample holds, in terms of the replies it was read from |
| `Client` | the client with its objects: watchers, DCGM handles, the batch |
| `Tracker` | window statistics and activity detection |
| `Integration`, `Counters` | time integrals over an event history, and hardware counter totals, without any stored state |
| `Exporter` | what each step of the exporter does to its state, as functions |
| `Steps`, `Runs`, `Isolation`, `Histories`, `PcieTotals`, `Requests`, `Publication`, `Readiness`, `Guarantees` | whole runs of collections and publications in any order |
| `NamedMetrics` | which field each metric is about, by name and not by the tables the exporter goes by |
| `Limits`, `LostReads` | runs that show what the source does not keep |
| `Timestamps` | from the engine's replies to events that go forward in time |
| `Service` | the exporter with its objects; every method is proved to do what `Exporter` says |
| `EndToEnd` | client and exporter together, and the theorems about runs for batches of the client |

How the model reads the source:

* Code that changes objects in place is a class (`Dcgm`, `FieldWatcher`, `GpuWatcher`, `DcgmClient`,
  `WindowAggregator`, `ActivityTracker`, `Metrics`, `Exporter`). Its methods keep the loops of the
  source and are proved against functions of the old state; the theorems about runs are about those
  functions. `Service.Exporter.OnTrack` says that the object is where a run of its own operations
  leads, so every theorem about `Runs.Run` is one about the object.
* DCGM is an oracle that gives a verdict on each attempt to watch a list (it may answer differently
  the next time), a set of live handles, and an arbitrary list of returned values. Destroying a
  handle may fail; the handle then counts as leaked, and a reliable engine never leaks.
* A series is a metric with its extra labels, together with the label tuple of the GPU. Times are
  nanoseconds since Go's zero time, so that `IsZero` is equality with 0; values are real numbers.
* A sample is a map from field to value; a missing entry is a nil pointer. Go's straight-line calls
  to `setGauge` and `observeHardwareCounter` are loops over a table of the same fields.

What the source does not keep. Each point gives the exact condition under which it does keep it,
and a concrete input on which it does not:

* the bisection equals the one-at-a-time scan if and only if acceptance is closed under prefixes
  (`Negotiation.BisectionIsGreedyExactly`); with an engine that takes the fast fields all together or
  not at all the search has all of them after one attempt, a scan the required one
  (`Limits.AllFastFieldsOrNone`);
* a label tuple names one GPU only when a UUID, a bus id or the index is there
  (`Identity.EqualLabelsSameIdentifierExactly`; `Identity.BlankGpusShareLabels`);
* deleting the state of GPU `a` takes a key of GPU `b` with it if and only if `a` and a colon begin
  `b`, or `a` is `b`, a colon and the beginning of a counter name up to a later colon
  (`Identity.PrefixDeletionExact`); neither takes a key of the other if and only if neither with a
  colon begins the other (`Identity.SeparateExactly`). In a run with the identifiers 0 and 0:1 a
  stored value of the one goes with the other, and a value read twice is counted twice
  (`Limits.ReconcilingCanReachAnother`);
* observed time is bounded by elapsed time if and only if the steps back are not longer than what
  resets and long gaps cut off (`Integration.ElapsedBoundExactly`); two seconds are counted in one
  when a collection hands over the second of the one before (`Limits.BackwardTimesOvercount`). With an
  engine that gives values since the time it is asked for, no timestamp goes back
  (`EndToEnd.ClientTimesGoForward`);
* a read reaches the batch if and only if the fast group is not polled or answers, or no other
  group gives a value (`Sampling.ReadIsDeliveredExactly`). Otherwise its values are in no later batch
  while the GPU stays listed (`Collections.ReadOnceOrLost`; a new watcher would ask from one interval
  back); `LostReads.FailingFastGroupDropsARead` and `LostReads.DroppedForGood` are such a run;
* a decoded power limit lies in (0, 1000000] if and only if it is not an integer below one
  (`Decoding.PowerLimitInRangeExactly`; `Decoding.NegativePowerLimitIsDecoded`);
* the request counters of a GPU count the requests of its own readings if and only if it appeared
  inactive, or its first reading not above the threshold ends a request both ways or neither way:
  counted from before it appeared, and from its first own reading (`Requests.OwnRequestsExactly`). It
  appears active if and only if the last reading under its identifier was above the threshold
  (`Requests.LifeBeginsActiveExactly`), so a request can span an absence
  (`Limits.RequestSpansAbsence`);
* the first publication after a GPU appears shows the values of its own samples alone if and only if
  the window was open without a value of the identifier
  (`Publication.FirstPublicationShowsOwnValuesExactly`; `Limits.WindowOutlivesRenaming`).

A well-formed run (`Isolation.WellFormedRun`) is one whose batches have distinct identifiers,
present indexes, samples and failures of listed GPUs only, and whose identifiers are pairwise
separate where a theorem says so. `EndToEnd.ClientRunsAreWellFormed` shows that the runs of a client,
collections and publications in any order, are of this kind as soon as the identifiers are distinct,
and `Isolation.WellFormedRunsExist` gives such a run with two active GPUs. The theorems named
`EndToEnd.Client...` and `EndToEnd.HonestClient...` are about these runs: they assume identifiers that
do not collide, and where they say so timestamps that do not go back, or an engine that gives values
since the time it is asked for. `EndToEnd.Together` ties both objects to such a run, and every method
there keeps it.

## Model

| member | source | states |
|---|---|---|
| `FieldSets.AppendFields` | dcgm_client.go:703-719 | the appended list keeps the first one in front and adds each new field once, in order |
| `FieldSets.AppendedInParts` | dcgm_client.go:703-719 | appending in two parts is appending at once |
| `FieldSets.MonitoredFields` | dcgm_client.go:465-472 | the monitored fields are duplicate-free and exactly those of all lists |
| `FieldSets.RequestedFieldsInGroup` | dcgm_client.go:688-701 | a metric group yields exactly the requested fields it offers, in requested order |
| `FieldSets.SelectBestProfilingFields` | dcgm_client.go:677-686 | the chosen group is the first that offers the most requested fields; empty exactly when none offers any |
| `Negotiation.BisectIsSound` | dcgm_client.go:635-659 | for any oracle: result duplicate-free, required fields in front, only candidates added, and either the required list or a list an attempt accepted |
| `Negotiation.BisectEqualsGreedy` | dcgm_client.go:635-659 | for a prefix-closed acceptance the bisection returns the same sequence as trying candidates one at a time |
| `Negotiation.BisectionIsGreedyExactly` | dcgm_client.go:635-659 | bisection and scan agree on all inputs if and only if acceptance is closed under prefixes |
| `Negotiation.SearchFindsWhatScanMisses` | dcgm_client.go:635-659 | for every required list and two or more further candidates: an engine that takes all or none gives the search everything at once and the scan the required ones only |
| `Limits.AllFastFieldsOrNone` | dcgm_client.go:585-593 | the same with the client's own fast fields |
| `Negotiation.NothingOmittedCouldBeAdded` | dcgm_client.go:635-659 | for a downward-closed acceptance no omitted candidate could be added to the result and still be accepted |
| `Negotiation.AttemptsAreLinear` | dcgm_client.go:637-657 | n candidates take at most 2n-1 attempts, for any oracle |
| `Negotiation.AttemptsReachTheBound` | dcgm_client.go:637-657 | an engine that accepts nothing makes it exactly 2n-1 |
| `Negotiation.AttemptsWithFewBadFields` | dcgm_client.go:637-657 | with k bad fields among n candidates at most 1 + 2k*ceil(log2 n) attempts |
| `Negotiation.GreedyKeepsSomething` | dcgm_client.go:635-659 | the scan keeps something if and only if some candidate is accepted alone, with no condition on acceptance |
| `Sampling.SteadyWatcherIsGreedy` | dcgm_client.go:574-633 | with a steady, prefix-closed engine a new watcher has exactly the greedy groups in order; no accepted group is lost between negotiation and subscription |
| `Sampling.OptionalGroupIffAnyField` | dcgm_client.go:585-619 | for a steady, prefix-closed engine: a watcher exists if and only if the required fields are accepted, and then it has an operational or reliability group if and only if some candidate of that list is accepted alone, and a profiling group if and only if some legacy rate is, or the best offer is accepted as a whole |
| `Sampling.FastGroupComesFirst` | dcgm_client.go:585-593 | whatever the engine answers, a watcher starts with the fast group, which holds the required fields |
| `Sampling.EveryGroupIsOfOneClass` | dcgm_client.go:587-618 | every group watches fields of one class at the interval of that class |
| `Sampling.ReadIsDeliveredExactly` | dcgm_client.go:263-288 | in terms of groups and replies before the call: what is read reaches the batch if and only if no fast group is polled and fails, or no polled group gives a decodable value of this GPU |
| `Sampling.EveryReadMovesOn` | dcgm_client.go:794-814 | delivered or not, every group moves on as its own reply says |
| `LostReads.FailingFastGroupDropsARead` | dcgm_client.go:263-288 | a run of two collections of a client: the second reads a temperature and its batch has no sample |
| `LostReads.DroppedForGood` | dcgm_client.go:802-814 | nor does any later batch have it, while the GPU stays listed and the engine honours the time it is asked from |
| `Sampling.CollectionAccounts` | dcgm_client.go:224-292 | every batch lists every GPU, samples or fails each, samples all when there is no failure; watchers of listed GPUs only; observations in range |
| `Sampling.IdentityAsReported` | dcgm_client.go:348-385 | identifier, labels, memory and power limit of a GPU in terms of what the device reports |
| `Collections.EveryBatchAccounts` | dcgm_client.go:224-292 | the same for every batch of every run of the client |
| `Collections.IdentitiesFollowTheList` | dcgm_client.go:301-346 | an identity stays while its GPU is listed, comes only from a query that succeeded, and goes with the watcher of a GPU that is not listed |
| `Collections.ReportedAvailabilityIsSound` | dcgm_client.go:794-850 | in every run of the client, through watchers made, failed, dropped and made again, a field reported available is supported and has succeeded |
| `Collections.WatcherLivesByItsRounds` | dcgm_client.go:235-288 | while its GPU stays listed, a watcher is where the rounds of its own reads lead, through any collections |
| `Collections.ClientPollsAreRateLimited` | dcgm_client.go:797-800 | over any collections of the client while the watcher lives, actual polls of a group are at least its interval apart and `lastPoll` is the last of them |
| `Collections.ReadOnceOrLost` | dcgm_client.go:263-288 | what a watcher has read once is in no later batch, so a read that was dropped is never made up for |
| `SampleSlots.ReadFillsSlots` | dcgm_client.go:794-850 | over all groups of a read: every slot is the decoding of the last OK value among the replies of the polled groups, or what it held; the observations of a field are all its decodable values, in order |
| `SampleSlots.SampleHoldsItsRead` | dcgm_client.go:255-288 | a GPU with a watcher gives no sample exactly when the fast group fails; otherwise one, whose slots are what was read, else what the identity told; free memory falls back on total less used, not below nothing; its field states are those of the watcher after the read |
| `SampleSlots.BatchHoldsWhatWasRead` | dcgm_client.go:224-292 | the samples of a batch are, in order, those of the turns that deliver, and each holds what its turn read |
| `SampleSlots.FailuresHaveTheirReason` | dcgm_client.go:235-288 | a batch reports a failure exactly when an identity was not known and could not be queried, a GPU has no watcher, or a group of it was polled and failed; the reason says which |
| `SampleSlots.BatchGivesReplied` | dcgm_client.go:224-292 | the values of a slot under an identifier over a batch are the last OK values of its replies, decoded, turn by turn |
| `Client.Dcgm.Destroy` | dcgm_client.go:730-741 | a destroy takes the handle out of use, whether or not the engine lets go of it |
| `Client.DcgmClient.CreateWatcher` | dcgm_client.go:743-785 | a subscription exists exactly when the engine accepts all steps; whichever step fails, no new handle stays in use |
| `Client.DcgmClient.AddBatch` | dcgm_client.go:637-657 | the in-place search finds what `Negotiation.Bisect` says, with as many attempts, and leaves no probe behind |
| `Client.DcgmClient.WatchableOptionalFields` | dcgm_client.go:635-659 | required fields deduplicated, then the search over the candidates |
| `Client.DcgmClient.CreateGroups` | dcgm_client.go:585-618 | the groups made are those of the plan, unpolled, and their handles are the only new ones in use |
| `Client.DcgmClient.AddProfilingGroup` | dcgm_client.go:611-619 | the profiling fields of the best metric group are tried as a whole, once, or not at all |
| `Client.DcgmClient.EnsureWatcher` | dcgm_client.go:574-633 | the watcher map changes as `Sampling.Ensured` says; the handles in use stay exactly those of the watchers |
| `Client.DcgmClient.SupportedStates` | dcgm_client.go:580-583 | every monitored field starts unseen, and exactly the watched ones supported |
| `Client.DcgmClient.RemoveMissingGpus` | dcgm_client.go:301-326 | exactly the watchers, and identities, of GPUs no longer listed go, with their handles |
| `Client.DcgmClient.Close` | dcgm_client.go:179-191 | afterwards no watcher and no handle in use; with a reliable engine none live |
| `Client.DcgmClient.CachedGpuInfo` | dcgm_client.go:328-346 | a cached identity is returned unchanged; a queried one is cached; a failed query changes nothing |
| `Client.DcgmClient.IdentifyGpu` | dcgm_client.go:237-250 | without an identity the GPU is listed as unknown, with an identity failure |
| `Client.DcgmClient.AbsorbValues` | dcgm_client.go:818-836 | the loop over sorted values does what `History.AbsorbAll` says |
| `Client.DcgmClient.PollFieldWatcher` | dcgm_client.go:796-848 | one turn of the poll loop is `History.PollGroup`: rate limit, failure, sorted values, staleness |
| `Client.DcgmClient.ReadWatcher` | dcgm_client.go:794-850 | all groups in order, each with its own reply |
| `Client.DcgmClient.ReadKnown` | dcgm_client.go:263-288 | reading one watcher leaves every other watcher as it was |
| `Client.DcgmClient.SampleGpu` | dcgm_client.go:235-288 | one turn of the loop of Samples is `Sampling.SampleTurn`, in the batch and in everything the client holds |
| `Client.DcgmClient.Samples` | dcgm_client.go:224-292 | an error changes nothing; otherwise batch and client are those of `Sampling.Sampled`, and handles stay conserved |
| `Decoding.DecodedExactly` | dcgm_client.go:865-1080 | for every field: a value decodes if and only if its status is OK, the field has a slot, and its payload is of the type and in the bounds of the field; it decodes to the reported number in the exported unit |
| `Decoding.MonitoredAreDecodable` | dcgm_client.go:387-472 | the client monitors exactly the fields a sample has a slot for |
| `Decoding.DecodedInRange` | dcgm_client.go:865-1080 | every decoded value lies in the range of its field |
| `Decoding.PowerLimitInRangeExactly` | dcgm_client.go:895-903 | a decoded power limit is positive and at most 1000000 if and only if it is not an integer below one |
| `Decoding.NegativePowerLimitIsDecoded` | dcgm_client.go:895-903 | an integer power limit of -1 is decoded |
| `History.StableSortCommutes` | dcgm_client.go:816-820 | sorting and then selecting is selecting and then sorting, for any selection |
| `History.StableSortIsStable` | dcgm_client.go:816 | values with equal timestamps keep their order |
| `History.AbsorbedFieldByField` | dcgm_client.go:818-836 | what a read does to a field depends on the values of that field of this GPU alone |
| `History.HistoryInTimestampOrder` | dcgm_client.go:816-836 | the observations of a field are its decodable values in stable timestamp order; its slot is the decoding of the last value with an OK status |
| `History.AvailableAfterPoll` | dcgm_client.go:816-848 | after a successful poll: available if and only if the last value decoded, or there was none, it was available and had succeeded at most two intervals before; the last success is the time of the last value that decoded |
| `History.QuietFieldExpires` | dcgm_client.go:794-850 | over rounds without a value of it a field keeps its last success, and stays available if and only if every poll of its group is answered at most two intervals after that |
| `History.AvailableForTwoIntervals` | dcgm_client.go:841-848 | when every poll is answered: available exactly until the group is polled more than two intervals after the last success |
| `History.UnavailableAfterFailedPoll` | dcgm_client.go:803-811 | after a failed poll no field of the group is available and no other field changed |
| `History.AvailabilitySoundInEveryRun` | dcgm_client.go:794-850 | over any polls of a watcher: available implies supported and a recorded success; supported never changes |
| `History.PollsAreRateLimited` | dcgm_client.go:797-800 | over any rounds of a watcher at any times: the rounds in which a group is really polled are at least one interval apart, `lastPoll` is the last of them, and n of them span n-1 intervals |
| `History.PolledOnceDue` | dcgm_client.go:797-800 | a round polls a group if and only if it was never polled or its interval has passed since the latest poll |
| `History.GroupAfterTurn` | dcgm_client.go:796-814 | kind, fields and interval of a group never change; it asks from the time the engine named next, when it answered and named one |
| `History.ReadGives` | dcgm_client.go:794-836 | an observation is read if and only if some group is polled, answers, and has a decodable value of this GPU for it |
| `History.ReadGivesSomething` | dcgm_client.go:794-836 | a read has observations if and only if some polled group gives one |
| `History.NothingIsReadTwice` | dcgm_client.go:802-814 | if DCGM honours the time it is asked from, an observation read once is read in no later round |
| `History.PollsKeepRange` | dcgm_client.go:829-834 | every observation a read appends is in the range of its field |
| `Identity.IdentifierByPrecedence` | exporter.go:652-660 | a known UUID is the identifier, without one a known bus id, without either the index, or gpu and the number |
| `Identity.KnownUuidKeepsIdentifier` | exporter.go:652-660 | a GPU with a known UUID keeps its identifier whatever becomes of its bus id, index, name and number |
| `Identity.KnownUuidsTellApart` | exporter.go:652-660 | different known UUIDs are different identifiers |
| `Identity.ValidMeaning` | dcgm_client.go:1437-1443 | a valid string is what is left without the space around it, and nothing when that begins with three angle brackets |
| `Identity.SameLabelsSameIdentity` | exporter.go:662-664 | for identities as the client reports them, a GPU is the same as before if and only if its label tuple is |
| `Identity.DecimalRoundTrip` | exporter.go:479 | reading the decimal digits of a number gives the number |
| `Identity.LabelsShowIdentity` | metrics.go:307-315 | the label tuple shows each part of the identity as reported, trimmed, and unknown for what is missing |
| `Identity.EqualLabelsSameIdentifierExactly` | exporter.go:652-660 | with equal label tuples: equal identifiers if and only if UUID or bus id known, or both indexes present, or both blank and equal ids |
| `Identity.LabelsDetermineIdentifier` | metrics.go:307-315 | with present indexes, label tuples determine identifiers |
| `Identity.BlankGpusShareLabels` | exporter.go:652-660 | two GPUs known by number only share their labels and are two GPUs |
| `Identity.ObservationKeysInjective` | exporter.go:479 | observation keys determine identifier and field, colons or not |
| `Identity.HardwareKeysInjective` | exporter.go:644-650 | hardware counter keys determine identifier and counter, for all 18 counters |
| `Identity.PrefixDeletionExact` | exporter.go:435-452 | over the keys the source forms: deleting one GPU reaches a key of another if and only if its identifier and a colon begin the other, or it names the beginning of a counter of it |
| `Identity.SeparateExactly` | exporter.go:435-452 | neither deletion reaches a key of the other GPU if and only if the identifiers are separate |
| `Aggregation.IntegralsHaveOneField` | exporter.go:548-595 | every integral is fed by one field |
| `Aggregation.FractionsMeasure` | exporter.go:666-681 | a percentage is a hundred times its fraction and a ratio is its fraction; outside their ranges they are cut off |
| `Clock.MicrosecondsAreKept` | dcgm_client.go:830-831 | timestamps differ by a thousand nanoseconds for each microsecond, and a million microseconds are a Unix second |
| `Tracker.WindowAggregator.Observe` | tracker.go:70-83 | the open window gains exactly this observation |
| `Tracker.WindowAggregator.Snapshot` | tracker.go:89-96 | the snapshot is the statistics of the open window, which is then empty |
| `Tracker.WindowMeaning` | tracker.go:70-83 | an entry exists exactly for observed keys and holds count, sum and a maximum that was observed |
| `Tracker.WindowWithinBounds` | tracker.go:51-58 | min <= average <= maximum |
| `Tracker.WindowsPartitionTheStream` | tracker.go:70-96 | over any interleaving each observation lands in exactly one snapshot or the open window, and each snapshot is the statistics of its segment |
| `Tracker.CountsAddUp` | tracker.go:70-96 | the counts of all snapshots and the open window add up to the number of observations |
| `Tracker.ActivityTracker.Observe` | tracker.go:123-146 | the stored state follows the history of the GPU, and the answer is that of the rule |
| `Tracker.ActivityRule.RequestMeansLongRun` | tracker.go:123-146 | the answer is true if and only if the reading ends a maximal run above the threshold that started at least the minimum time earlier |
| `Tracker.ActivityRule.RequestsFollowOn` | tracker.go:123-146 | readings after earlier ones end the requests they end alone, but for the first: with an active state before, that one counts from the start of the state |
| `Tracker.ActivityRule.RequestsFitInTime` | tracker.go:123-146 | with ordered times, requests times the minimum time never exceed the time since the first reading or since the active state before it |
| `Counters.TotalClosedForm` | exporter.go:454-473 | the total is the last raw value plus the raw value before each drop |
| `Counters.TotalAgainstLast` | exporter.go:454-473 | the total is at least the last raw value, and equal if and only if there was no drop |
| `Counters.ReadingsClosedForm` | exporter.go:454-473 | both for arbitrary raw values, negative ones being ignored |
| `Counters.TotalMonotone` | exporter.go:454-473 | more readings never lower the total |
| `Counters.MissingSamplesNeverOvercount` | exporter.go:454-473 | any subsequence of the readings totals at most what all of them do |
| `Integration.IntegralOfObservation` | exporter.go:475-492 | the interval since the stored timestamp is the counted gap before the observation |
| `Integration.ObservedTimeTelescopes` | exporter.go:475-492 | with timestamps that do not go back, counted gaps never exceed last minus first |
| `Integration.ObservedAndLostIsElapsedAndReturns` | exporter.go:475-492 | for every event history, resets and long gaps included: counted time plus time cut off is elapsed time plus the steps back |
| `Integration.ReturnsMeanBackward` | exporter.go:482 | there are no steps back if and only if no timestamp goes back |
| `Integration.ElapsedBoundExactly` | exporter.go:475-492 | counted time is at most elapsed time if and only if the steps back are not longer than the time cut off |
| `Limits.BackwardTimesOvercount` | exporter.go:475-492 | two collections hand over the same two readings, each in order: the observed-seconds counter says 2.0 though they span one second |
| `Integration.IntegralBetween` | exporter.go:286-299 | an integral lies between the bounds of the weights that contribute, times the observed time; observations that add nothing may have any value |
| `Steps.CountedAdds` | exporter.go:276-299 | what one observation adds to each series, and that it touches no other |
| `Steps.SampleTouches` | exporter.go:162-233 | a sample touches series of its own labels only, and no window or status gauge |
| `Steps.GaugesShowTheSlots` | exporter.go:168-230 | after a sample a gauge shows its slot, or what it showed before when the slot is empty |
| `NamedMetrics.GaugeOfField` | exporter.go:168-230 | every slot but those that feed hardware counters and the PCIe rates has a gauge that shows it |
| `NamedMetrics.PcieGauges` | exporter.go:212-216 | the PCIe gauges show the profiling rate, else the legacy rate of the same direction |
| `NamedMetrics.StatusAsSampled` | exporter.go:235-244 | after a sample the status series of a field are one or zero for supported and available, and the Unix second of the last success |
| `Steps.ReplacedRatesFeedNothing` | exporter.go:268-270 | while a profiling PCIe rate is available the legacy one feeds nothing, stored timestamp included |
| `Runs.TriangleInEveryRun` | exporter.go:261-301 | in every reachable state, for every label tuple: f*active <= weighted <= active + f*(observed - active) and 0 <= active <= observed |
| `NamedMetrics.TriangleInPercent` | exporter.go:261-301 | the same in per cent: threshold times active <= 100 times weighted <= 100 times active plus threshold times the rest |
| `Isolation.EverythingBelongsToAnActiveGpu` | exporter.go:414-452 | after every step every GPU-labelled series and stored key belongs to an active GPU |
| `Isolation.ReconcileIsExact` | exporter.go:414-452 | reconciling deletes everything of a GPU that is gone or relabelled and nothing of any other |
| `Limits.ReconcilingCanReachAnother` | exporter.go:414-452 | a run of two collections, with the table of 18 counters: GPU 0 goes, the stored energy value of GPU 0:1 goes with it, and the counter shows twice the value that was read |
| `Isolation.ActiveLabelsDiffer` | metrics.go:281-315 | two active GPUs never share a label tuple |
| `Histories.NewGpuStartsEmpty` | exporter.go:414-433 | nothing is kept under the labels or keys of a GPU that is new, or new under its labels |
| `Histories.CountersAreIntegrals` | exporter.go:261-301 | in every run each integrated counter of an active GPU is the integral over its own events since it appeared, and the stored timestamp is the last of them |
| `NamedMetrics.FedExactly` | exporter.go:548-595 | which field feeds which aggregate, for all aggregates; a legacy PCIe rate only while the profiling one is not available |
| `NamedMetrics.TimedCounters` | exporter.go:286-293 | observed and weighted seconds of utilization and of every profiling share are integrals over the events of its own field |
| `NamedMetrics.ActiveByUtilization` | exporter.go:282-285 | active seconds are the time observed with utilization above the threshold |
| `NamedMetrics.EnergyByPower` | exporter.go:297-299 | estimated energy is the integral of the power |
| `NamedMetrics.LinkTotalByRate` | exporter.go:294-296 | NVLink byte totals are the integrals of the rates of their direction |
| `Histories.HardwareCountersAreTotals` | exporter.go:303-354 | in every run series and stored previous value of a hardware counter agree: total and last value of the GPU's own raw values |
| `NamedMetrics.EventTotals` | exporter.go:303-320 | which slot the energy, replay and ECC counters total |
| `NamedMetrics.PageTotals` | exporter.go:321-332 | which slot the retired page and remapped row counters total |
| `NamedMetrics.ViolationTotals` | exporter.go:333-354 | which slot each violation counter totals |
| `Histories.SampleIsTaken` | exporter.go:303-354 | from any state, one sample moves series and stored value by the raw values it has |
| `PcieTotals.PcieTotalsAreTwoIntegrals` | exporter.go:268-301 | in every run a PCIe byte total is the integral of the legacy rate over its observations not replaced, plus the integral of the profiling rate |
| `Guarantees.ObservedIsCountedTime` | exporter.go:475-492 | in every run observed seconds are the sum of exactly the counted gaps, at most the elapsed time if and only if steps back are not longer than the time cut off, and always so when timestamps do not go back |
| `Guarantees.WeightedIsBetweenFractions` | exporter.go:286-293 | weighted seconds lie between the smallest and largest contributing fraction of observed seconds, whatever the observations that add nothing |
| `NamedMetrics.WeightedMeasuresValues` | exporter.go:286-293 | a hundred times weighted seconds are the integral of the utilization over the counted time, and weighted seconds of a profiling share that of the share, when contributing values are within scale |
| `NamedMetrics.WeightedBetweenValues` | exporter.go:286-293 | with contributing values between two bounds within scale: bound times observed <= scale times weighted <= bound times observed |
| `Guarantees.EnergyIsBounded` | exporter.go:297-299 | with timestamps that do not go back, estimated energy is at most a million watts times the elapsed time |
| `Guarantees.HardwareClosedForm` | exporter.go:454-473 | series and stored value exist together; the series is the last reading plus the reading before each drop |
| `Requests.ActivityOfAllReadings` | exporter.go:276-280 | in every run the stored activity of an identifier is that of all its readings |
| `Requests.RequestsAreCounted` | exporter.go:276-280 | in every run both request counters count the requests that ended since the GPU appeared |
| `Requests.HistoryIsBeforeAndOwn` | exporter.go:276-280 | in every run the readings under an identifier are those before the GPU appeared, then those of its own samples |
| `Requests.CountedByOwnReadings` | exporter.go:276-280 | in every run both request counters are the requests of the own readings, one more when the first idle reading ends a request from before, one less when it ends an own one |
| `Requests.OwnRequestsExactly` | exporter.go:276-280 | a request counter is the number of requests of the own readings if and only if the GPU appeared inactive or that reading ends a request both ways or neither way |
| `Requests.CountedRequestsFitInTime` | exporter.go:276-280 | with own readings in order, the counted requests fit into the time since the GPU appeared: since its first reading, or since it was found active |
| `Requests.LifeBeginsActiveExactly` | exporter.go:414-452 | when a batch begins, the stored activity of an identifier is active if and only if its last reading in any earlier life was above the threshold |
| `Limits.RequestSpansAbsence` | exporter.go:276-280 | a GPU leaves busy and returns with one idle reading: its own readings have no request, its counter says one |
| `Publication.WindowsHoldTheOpenWindow` | exporter.go:273 | in every run the aggregator holds the statistics of what was observed since the last publication |
| `Publication.PublicationShowsTheOpenWindow` | exporter.go:117-141 | a publication shows of every active GPU the maximum and mean since the one before, no gauge where there were no values, and leaves the window empty |
| `NamedMetrics.PublicationShowsFields` | exporter.go:117-141 | a publication shows of each aggregate the maximum and mean of the values observed of its own field since the one before |
| `Publication.PublishedValuesStayInRange` | exporter.go:117-141 | in every run over decoded observations published values stay in [0,1] for ratios and [0,100] for percentages |
| `Publication.PublicationsPartitionTheRun` | exporter.go:117-141 | over any run the published windows, then the open one, are the window entries of all batches in order |
| `Publication.LifeEntersOwnValues` | exporter.go:261-275 | from the batch in which a GPU appears on, what enters the window under its identifier are the values of its own samples |
| `Publication.FirstPublicationShowsOwnValuesExactly` | exporter.go:117-141 | the first publication after a GPU appears shows the values left in the window, then those of its own samples; the own ones alone if and only if the window had no entry of the identifier |
| `Limits.WindowOutlivesRenaming` | exporter.go:117-141 | a value seen before a relabelling is published under the new labels, of which there is no sample |
| `Readiness.DiscoveredAreCollectedOrFailed` | exporter.go:356-377 | with distinct identifiers discovered <= collected + failed |
| `Readiness.CompleteExactly` | exporter.go:361 | a client batch is complete if and only if some GPU was listed and nothing failed |
| `Readiness.CompleteMeansAllWell` | exporter.go:361 | a batch is complete if and only if some GPU was listed, as many were sampled, and nothing failed |
| `Readiness.HealthInEveryRun` | exporter.go:356-397 | in every run the health gauges report the latest attempt, the last success is the latest complete attempt, and errors count the incomplete ones |
| `Readiness.ReadyMeansLatestAttemptComplete` | exporter.go:533-546 | in every run: ready if and only if the latest attempt listed and collected its GPUs without failure and is recent enough |
| `Readiness.MaxAgeIsFiveIntervals` | exporter.go:541-544 | the maximum age is the larger of five intervals and five seconds |
| `Readiness.StatusShowsFailures` | exporter.go:399-412 | after a collection the status gauge of a GPU is 1 if and only if the batch has no failure of it |
| `Readiness.ErrorsAreCounted` | exporter.go:401-406 | each error counter grows by the number of its failures |
| `Service.Metrics.DeleteGpu` | metrics.go:281-288 | exactly the series with these labels go |
| `Service.Exporter.ObservationInterval` | exporter.go:475-492 | interval and stored timestamp are those of the model |
| `Service.Exporter.ProcessObservation` | exporter.go:263-300 | one turn of the loop changes the whole state as `Exporter.ObserveOne` says |
| `Service.Exporter.ProcessObservations` | exporter.go:261-301 | the observations of a sample, in order |
| `Service.Exporter.ResetUnavailableFields` | exporter.go:246-259 | exactly the supported, unavailable fields lose their stored timestamp |
| `Service.StatusMeaning` | exporter.go:235-244 | what each field status series shows after publishing |
| `Service.Exporter.PublishFieldStatus` | exporter.go:235-244 | the status of every field is published, in whatever order the map is gone through |
| `Service.Exporter.SetGauges` | exporter.go:168-230 | every present slot of all the gauges is shown, the others are left alone |
| `Service.Exporter.ObserveHardwareCounter` | exporter.go:454-473 | total and stored value change as the model says; negative values change nothing |
| `Service.Exporter.ObserveReliabilityCounters` | exporter.go:303-354 | every counter of the table of 18 that has a value |
| `Service.Exporter.DeleteGpuState` | exporter.go:435-452 | exactly the keys with this prefix go, from both maps |
| `Service.Exporter.ReconcileGpus` | exporter.go:414-433 | everything of outdated GPUs goes, whatever the order of the map, and the listed ones become active |
| `Service.Exporter.MarkCollection` | exporter.go:356-383 | the health fields and gauges after a batch |
| `Service.Exporter.MarkCollectFailure` | exporter.go:385-397 | a failed attempt is one step of the run: never ready after it, errors one more than the incomplete attempts before, and the last success still the latest complete attempt |
| `Service.Exporter.PublishGpuCollectionStatus` | exporter.go:399-412 | errors counted, then the status of every listed GPU |
| `Service.Exporter.Collect` | exporter.go:143-160 | a collection is one step of a run |
| `Service.Exporter.PublishWindow` | exporter.go:117-141 | a publication is one step of a run, for some order of the active GPUs, and empties the window |
| `Service.Exporter.Ready` | exporter.go:533-546 | the answer is true if and only if the latest attempt of the object's own run was complete and is recent enough |
| `EndToEnd.ClientBatchesAreWellFormed` | exporter.go:152-158 | a client batch with distinct identifiers is well-formed and decoded |
| `EndToEnd.ClientRunsAreDecoded` | exporter.go:152-158 | every run of collections and publications over a client holds decoded observations only |
| `EndToEnd.ClientRunsAreWellFormed` | exporter.go:152-158 | and is well-formed when the identifiers of each collection are distinct and publications go through the active GPUs |
| `EndToEnd.ClientGaugesStayInRange` | exporter.go:117-141 | from raw values to published windows: in every run of a client, ratios stay in [0,1] and percentages in [0,100], with no condition |
| `EndToEnd.ClientObservedIsCountedTime` | exporter.go:475-492 | observed seconds of a client's GPU are the counted gaps, with the same exact bound by elapsed time |
| `EndToEnd.ClientEnergyIsBounded` | exporter.go:297-299 | estimated energy of a client's GPU is at most a million watts over the elapsed time when timestamps do not go back |
| `Timestamps.PlannedApart` | dcgm_client.go:574-633 | whatever the engine answers, a new watcher has at most one group for a field listed once |
| `Timestamps.StandardListsAreApart` | dcgm_client.go:387-463 | every field is in the list of one class at most |
| `Timestamps.PollsAscend` | dcgm_client.go:794-836 | what a read gives of a field is in time order, from the time its group asked from, before the time it will ask from |
| `EndToEnd.ClientTimesGoForward` | dcgm_client.go:794-836 | through watchers made and dropped, lost reads and GPUs that leave and return: with an engine that gives values since the time it is asked for, the events of every field of a GPU go forward |
| `EndToEnd.HonestClientNeverOvercounts` | exporter.go:475-492 | then observed seconds never exceed the elapsed time |
| `EndToEnd.HonestClientEnergyIsBounded` | exporter.go:297-299 | and estimated energy is at most a million watts over the elapsed time |
| `EndToEnd.ClientWeightedMeasuresValues` | exporter.go:286-293 | in every run of a client weighted seconds measure the values themselves, with no condition on them |
| `EndToEnd.OwnSlotsAreReplied` | dcgm_client.go:224-292 | over any collections the slots of a GPU's own samples are the last OK values its replies gave, decoded |
| `EndToEnd.ClientHardwareClosedForm` | exporter.go:303-354 | series and stored value of every named counter of a client's GPU in closed form of what the replies gave of its field: the last reading plus the reading before each drop |
| `EndToEnd.CollectFrom` | exporter.go:143-160 | a collection from host to series: client and exporter both take the step the model says, whatever state and run they are at |
| `EndToEnd.StartTogether` | dcgm_client.go:160-177 | a new client and a new exporter are where the empty run leads |
| `EndToEnd.CollectTogether` | exporter.go:143-160 | after a collection both objects are where one more beat leads |
| `EndToEnd.PublishTogether` | exporter.go:117-141 | after a publication too, for some order of the active GPUs |
| `EndToEnd.ReadyMeansNothingFailed` | exporter.go:533-546 | after any collections and publications: ready if and only if the latest collection listed some GPU, reported no failure and is recent enough |
| `EndToEnd.GapsAreTenWatchIntervals` | exporter.go:494-505 | the longest gap of a field is ten intervals of whatever group the client watches it with |

## Left out

- The DCGM library and CGO: only the verdict of each attempt, the handle set and the returned values are there. The verdict does not depend on the random group names.
- Prometheus registration, gathering and text output: a series is an entry of a map.
- HTTP server, signals, logging, environment parsing, static driver and build information, collection duration.
- Close running at the same time as a collection, and the tickers: collections and publications are atomic and come in any order.
- IEEE rounding, NaN, infinities and DCGM's blank bit patterns beyond "a value or nothing".
- Overflow of 64-bit durations and the saturation of `time.Sub`.
- Trimming of white space outside Latin-1 in DCGM strings.
- Service.Exporter.SetGauges: leaves out the clock event gauges and the deprecated second names of the two maximum temperatures, further gauges of the same kind.
- The PCIe byte totals over one stretch of time: both rates may count a stretch in which the source switches from one to the other, and `PcieTotals.PcieTotalsAreTwoIntegrals` does not exclude it.
- `sampleInterval` and `maxSampleGap`: not on the live path.
- The clock is read once for a collection; the source reads it again when it makes a watcher and when it marks the collection.
- A cached identity without a watcher outlives its GPU's disappearance, as in the source, which goes through the watchers only.
- Collections.ReportedAvailabilityIsSound: requires that DCGM answers a poll with fields of the polled group only, at times other than Go's zero time, which the source does not check.
- Guarantees.EnergyIsBounded: requires timestamps that do not go back, because the source stores one that does and counts on from there; `Integration.ObservedAndLostIsElapsedAndReturns` says by how much time a step back raises the count, and `EndToEnd.ClientTimesGoForward` when there is none.
- Collections.ReadOnceOrLost: requires that DCGM returns values at or after the time it is asked from, names a later next time, and that one group watches the field; the source relies on this and does not check it.
- Requests.CountedRequestsFitInTime: requires own readings in time order, after the active state they may begin with, for the same reason.
- EndToEnd.ClientTimesGoForward: requires that DCGM returns values at or after the time it is asked from and before the next time it names, and that no other GPU goes by the identifier.
- Isolation.ReconcileIsExact: requires pairwise separate identifiers, because the source deletes by key prefix; `Identity.PrefixDeletionExact` says exactly when that reaches another GPU.
