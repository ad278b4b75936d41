/**
 What a sample of the client holds, in terms of the replies it was read from: every slot, the states
 of its fields and its observations.
 */
module SampleSlots {
  import opened FieldSets
  import opened Clock
  import opened Identity
  import opened Decoding
  import opened History
  import opened Sampling
  import opened Collections
  import opened Histories

  // ----- The values a read gets ------------------------------------------------------------

  /** The values of a field of a GPU from the groups that are polled and answer, each group's in timestamp order. */
  function ValuesRead(gpuId: nat, groups: seq<Group>, replies: nat -> PollReply, now: Time, f: FieldId): seq<RawValue>
    decreases |groups|
  {
    if groups == [] then []
    else
      var n := |groups| - 1;
      ValuesRead(gpuId, groups[..n], replies, now, f)
      + if Due(groups[n].lastPoll, groups[n].interval, now) && replies(n).PollValues?
        then StableSort(Filter(OfField(gpuId, f), replies(n).values)) else []
  }

  lemma {:induction false} ValuesReadAreOfField(gpuId: nat, groups: seq<Group>, replies: nat -> PollReply, now: Time,
                                               f: FieldId)
    ensures forall v :: v in ValuesRead(gpuId, groups, replies, now, f) ==> v.fieldId == f
    decreases |groups|
  {
    if groups == [] {
    } else {
      var n := |groups| - 1;
      ValuesReadAreOfField(gpuId, groups[..n], replies, now, f);
      if replies(n).PollValues? {
        var own := Filter(OfField(gpuId, f), replies(n).values);
        forall v | v in StableSort(own) ensures v.fieldId == f {
          SortKeepsMembers(own, v);
          FilterMembers(OfField(gpuId, f), replies(n).values, v);
        }
      }
    }
  }

  lemma {:induction false} SlotAfterInParts(before: Option<real>, a: seq<RawValue>, b: seq<RawValue>)
    ensures SlotAfter(before, a + b) == SlotAfter(SlotAfter(before, a), b)
  {
    if b == [] {
      assert a + b == a;
    } else {
      assert (a + b)[..|a + b| - 1] == a + b[..|b| - 1];
      SlotAfterInParts(before, a, b[..|b| - 1]);
    }
  }

  lemma {:induction false} DecodedInParts(a: seq<RawValue>, b: seq<RawValue>)
    ensures Decoded(a + b) == Decoded(a) + Decoded(b)
  {
    if b == [] {
      assert a + b == a;
    } else {
      assert (a + b)[..|a + b| - 1] == a + b[..|b| - 1];
      DecodedInParts(a, b[..|b| - 1]);
      Associative(Decoded(a), Decoded(b[..|b| - 1]), ObservationOf(b[|b| - 1]));
    }
  }

  /** The slot of a field after these values: their last decoding with an OK status, or what it held. */
  function SlotBy(before: Option<real>, f: FieldId, values: seq<RawValue>): Option<real> {
    if HasSlot(f) then SlotAfter(before, values) else before
  }

  lemma PollFillsSlot(gpuId: nat, g: Group, p: Progress, reply: PollReply, now: Time, f: FieldId)
    ensures var own := if Due(g.lastPoll, g.interval, now) && reply.PollValues?
                       then StableSort(Filter(OfField(gpuId, f), reply.values)) else [];
            var after := PollGroup(gpuId, g, p, reply, now).progress;
            && Slot(after.slots, f) == SlotBy(Slot(p.slots, f), f, own)
            && ObservationsOf(f, after.observations) == ObservationsOf(f, p.observations) + Decoded(own)
  {
    KindIffSlot(f);
    if Due(g.lastPoll, g.interval, now) && reply.PollValues? {
      HistoryInTimestampOrder(Reading(p.states, p.slots, p.observations, {}), gpuId, reply.values, f);
    } else {
      assert ObservationsOf(f, p.observations) + [] == ObservationsOf(f, p.observations);
    }
  }

  /** A read fills every slot from the replies of the polled groups, and appends their observations. */
  lemma {:induction false} ReadFillsSlots(gpuId: nat, groups: seq<Group>, p: Progress, replies: nat -> PollReply,
                                          now: Time, f: FieldId)
    ensures var own := ValuesRead(gpuId, groups, replies, now, f);
            var after := PollGroups(gpuId, groups, p, replies, now).1;
            && Slot(after.slots, f) == SlotBy(Slot(p.slots, f), f, own)
            && ObservationsOf(f, after.observations) == ObservationsOf(f, p.observations) + Decoded(own)
    decreases |groups|
  {
    if groups == [] {
      assert ObservationsOf(f, p.observations) + [] == ObservationsOf(f, p.observations);
    } else {
      var n := |groups| - 1;
      var before := PollGroups(gpuId, groups[..n], p, replies, now).1;
      var own := ValuesRead(gpuId, groups[..n], replies, now, f);
      var more := if Due(groups[n].lastPoll, groups[n].interval, now) && replies(n).PollValues?
                  then StableSort(Filter(OfField(gpuId, f), replies(n).values)) else [];
      ReadFillsSlots(gpuId, groups[..n], p, replies, now, f);
      PollFillsSlot(gpuId, groups[n], before, replies(n), now, f);
      SlotAfterInParts(Slot(p.slots, f), own, more);
      DecodedInParts(own, more);
      Associative(ObservationsOf(f, p.observations), Decoded(own), Decoded(more));
    }
  }

  // ----- One sample ------------------------------------------------------------------------

  /** What the identity of a GPU tells before anything is read. */
  function IdentitySlot(info: GpuInfo, f: FieldId): Option<real> {
    if f == FB_TOTAL && info.memoryTotalBytes > 0.0 then Some(info.memoryTotalBytes)
    else if f == POWER_MGMT_LIMIT then info.powerLimitWatts
    else None
  }

  /** Free memory: as read, or else what total and used leave, never less than nothing. */
  function FreeMemory(read: Option<real>, total: Option<real>, used: Option<real>): Option<real> {
    if read.Some? || total.None? || used.None? then read
    else if total.value >= used.value then Some(total.value - used.value)
    else Some(0.0)
  }

  /** What the replies make of the slot of a field. */
  function ReadSlot(info: GpuInfo, gpuId: nat, groups: seq<Group>, replies: nat -> PollReply, now: Time,
                    f: FieldId): Option<real> {
    SlotBy(IdentitySlot(info, f), f, ValuesRead(gpuId, groups, replies, now, f))
  }

  /** The slots and observations of a sample are those of the read of these groups. */
  ghost predicate HoldsRead(sample: GpuSample, info: GpuInfo, gpuId: nat, groups: seq<Group>,
                            replies: nat -> PollReply, now: Time) {
    && sample.info == info
    && (forall f :: f != FB_FREE ==> Slot(sample.slots, f) == ReadSlot(info, gpuId, groups, replies, now, f))
    && Slot(sample.slots, FB_FREE) == FreeMemory(ReadSlot(info, gpuId, groups, replies, now, FB_FREE),
                                                 ReadSlot(info, gpuId, groups, replies, now, FB_TOTAL),
                                                 ReadSlot(info, gpuId, groups, replies, now, FB_USED))
    && (forall f :: ObservationsOf(f, sample.observations) == Decoded(ValuesRead(gpuId, groups, replies, now, f)))
  }

  lemma StartingSlots(info: GpuInfo, f: FieldId)
    ensures Slot(EmptySample(info).slots, f) == IdentitySlot(info, f)
  {
  }

  lemma FreeMemoryFilled(slots: Slots, f: FieldId)
    ensures Slot(WithFreeMemory(slots), f)
         == if f == FB_FREE then FreeMemory(Slot(slots, f), Slot(slots, FB_TOTAL), Slot(slots, FB_USED))
            else Slot(slots, f)
  {
  }

  /**
   The sample of a GPU with a watcher: none exactly when the fast group fails; otherwise one, which
   holds what was read and the states of the watcher after the read.
   */
  lemma SampleHoldsItsRead(view: ClientView, gpuId: nat, info: GpuInfo, replies: nat -> PollReply, now: Time)
    requires gpuId in view.watchers
    ensures var groups, y := view.watchers[gpuId].groups, YieldOf(view, gpuId, info, replies, now);
            && (y.samples == [] <==> FastFails(groups, replies, now))
            && (y.samples != [] ==>
                  && |y.samples| == 1 && HoldsRead(y.samples[0], info, gpuId, groups, replies, now)
                  && y.samples[0].fields == y.view.watchers[gpuId].states)
  {
    var groups, start := view.watchers[gpuId].groups,
        Progress(view.watchers[gpuId].states, EmptySample(info).slots, [], []);
    var p := Read(gpuId, view.watchers[gpuId], info, replies, now).1;
    FailuresAre(gpuId, groups, start, replies, now, "fast");
    forall f ensures Slot(p.slots, f) == ReadSlot(info, gpuId, groups, replies, now, f)
                 && ObservationsOf(f, p.observations) == Decoded(ValuesRead(gpuId, groups, replies, now, f))
    {
      ReadFillsSlots(gpuId, groups, start, replies, now, f);
      StartingSlots(info, f);
      assert [] + Decoded(ValuesRead(gpuId, groups, replies, now, f))
          == Decoded(ValuesRead(gpuId, groups, replies, now, f));
    }
    forall f ensures Slot(WithFreeMemory(p.slots), f)
                  == if f == FB_FREE then FreeMemory(Slot(p.slots, f), Slot(p.slots, FB_TOTAL), Slot(p.slots, FB_USED))
                     else Slot(p.slots, f)
    {
      FreeMemoryFilled(p.slots, f);
    }
  }

  // ----- Every sample of a batch -----------------------------------------------------------

  /** The client when it comes to position n of the list, the GPU identified and watched if that could be done. */
  function AtTurn(engine: Engine, view: ClientView, c: Collection, n: nat): ClientView
    requires c.host.devices.Some? && n < |c.host.devices.value|
  {
    var gpuIds := c.host.devices.value;
    Prepared(engine, SampleTurns(engine, view, gpuIds[..n], c.host, c.now).view, gpuIds[n], n, c.host, c.now)
  }

  function InfoAtTurn(engine: Engine, view: ClientView, c: Collection, n: nat): GpuInfo
    requires c.host.devices.Some? && n < |c.host.devices.value|
  {
    var gpuIds := c.host.devices.value;
    InfoFor(SampleTurns(engine, view, gpuIds[..n], c.host, c.now).view.devices, gpuIds[n], c.host.device(n))
  }

  /** The turn at position n gives a sample: there is a watcher, and its fast group does not fail. */
  ghost predicate Delivers(engine: Engine, view: ClientView, c: Collection, n: nat)
    requires c.host.devices.Some? && n < |c.host.devices.value|
  {
    var gpuId, watchers := c.host.devices.value[n], AtTurn(engine, view, c, n).watchers;
    gpuId in watchers && !FastFails(watchers[gpuId].groups, RepliesAt(c.host, n), c.now)
  }

  /** The sample is that of the turn at position n, and holds what that turn read. */
  ghost predicate IsOfTurn(engine: Engine, view: ClientView, c: Collection, n: nat, sample: GpuSample)
    requires c.host.devices.Some? && n < |c.host.devices.value|
  {
    var gpuIds := c.host.devices.value;
    var after := SampleTurns(engine, view, gpuIds[..n + 1], c.host, c.now).view.watchers;
    && Delivers(engine, view, c, n)
    && HoldsRead(sample, InfoAtTurn(engine, view, c, n), gpuIds[n],
                 AtTurn(engine, view, c, n).watchers[gpuIds[n]].groups, RepliesAt(c.host, n), c.now)
    && gpuIds[n] in after && sample.fields == after[gpuIds[n]].states
  }

  /** The samples of the batch before position n. */
  function SamplesUpTo(engine: Engine, view: ClientView, c: Collection, n: nat): seq<GpuSample>
    requires c.host.devices.Some? && n <= |c.host.devices.value|
  {
    SampleTurns(engine, view, c.host.devices.value[..n], c.host, c.now).batch.samples
  }

  lemma TurnGivesItsSample(engine: Engine, view: ClientView, c: Collection, n: nat)
    requires c.host.devices.Some? && n < |c.host.devices.value|
    ensures var before, after := SamplesUpTo(engine, view, c, n), SamplesUpTo(engine, view, c, n + 1);
            if Delivers(engine, view, c, n)
            then |after| == |before| + 1 && after == before + [after[|before|]]
                 && IsOfTurn(engine, view, c, n, after[|before|])
            else after == before
  {
    var gpuIds := c.host.devices.value;
    var prepared, info := AtTurn(engine, view, c, n), InfoAtTurn(engine, view, c, n);
    assert gpuIds[..n + 1][..n] == gpuIds[..n];
    if gpuIds[n] in prepared.watchers {
      SampleHoldsItsRead(prepared, gpuIds[n], info, RepliesAt(c.host, n), c.now);
    }
  }

  /** The positions of the list that give a sample, up to n. */
  ghost function Delivering(engine: Engine, view: ClientView, c: Collection, n: nat): seq<nat>
    requires c.host.devices.Some? && n <= |c.host.devices.value|
  {
    if n == 0 then []
    else Delivering(engine, view, c, n - 1) + if Delivers(engine, view, c, n - 1) then [n - 1] else []
  }

  /** These samples are, one by one, those of these turns. */
  ghost predicate AreOfTurns(engine: Engine, view: ClientView, c: Collection, samples: seq<GpuSample>, turns: seq<nat>,
                             n: nat)
    requires c.host.devices.Some? && n <= |c.host.devices.value|
  {
    && |samples| == |turns|
    && forall k :: 0 <= k < |turns| ==> turns[k] < n && IsOfTurn(engine, view, c, turns[k], samples[k])
  }

  lemma OneMoreOfTurns(engine: Engine, view: ClientView, c: Collection, samples: seq<GpuSample>, turns: seq<nat>,
                       n: nat, sample: GpuSample)
    requires c.host.devices.Some? && n < |c.host.devices.value|
    requires AreOfTurns(engine, view, c, samples, turns, n) && IsOfTurn(engine, view, c, n, sample)
    ensures AreOfTurns(engine, view, c, samples + [sample], turns + [n], n + 1)
  {
  }

  lemma NextIsOfTurn(engine: Engine, view: ClientView, c: Collection, n: nat, before: seq<GpuSample>,
                     turns: seq<nat>, after: seq<GpuSample>)
    requires c.host.devices.Some? && n < |c.host.devices.value|
    requires before == SamplesUpTo(engine, view, c, n) && after == SamplesUpTo(engine, view, c, n + 1)
    requires AreOfTurns(engine, view, c, before, turns, n)
    ensures AreOfTurns(engine, view, c, after, turns + if Delivers(engine, view, c, n) then [n] else [], n + 1)
  {
    TurnGivesItsSample(engine, view, c, n);
    if Delivers(engine, view, c, n) {
      OneMoreOfTurns(engine, view, c, before, turns, n, after[|before|]);
    } else {
      assert turns + [] == turns;
    }
  }

  lemma {:induction false} SamplesAreOfTurns(engine: Engine, view: ClientView, c: Collection, n: nat)
    requires c.host.devices.Some? && n <= |c.host.devices.value|
    ensures AreOfTurns(engine, view, c, SamplesUpTo(engine, view, c, n), Delivering(engine, view, c, n), n)
  {
    if n == 0 {
    } else {
      SamplesAreOfTurns(engine, view, c, n - 1);
      NextIsOfTurn(engine, view, c, n - 1, SamplesUpTo(engine, view, c, n - 1), Delivering(engine, view, c, n - 1),
                   SamplesUpTo(engine, view, c, n));
    }
  }

  /**
   The samples of a batch are, in order, those of the turns that deliver; each holds what its turn
   read and the states its watcher has after the read.
   */
  lemma BatchHoldsWhatWasRead(engine: Engine, view: ClientView, c: Collection)
    requires c.host.devices.Some?
    ensures var n := |c.host.devices.value|;
            AreOfTurns(engine, view, c, Collected(engine, view, c).batch.samples, Delivering(engine, view, c, n), n)
  {
    var gpuIds := c.host.devices.value;
    assert gpuIds[..|gpuIds|] == gpuIds;
    SamplesAreOfTurns(engine, view, c, |gpuIds|);
  }

  // ----- Every failure of a batch ----------------------------------------------------------

  /** Why the turn at position n fails, as it is counted: no identity, no watcher, or a group that failed. */
  ghost predicate FailsFor(engine: Engine, view: ClientView, c: Collection, n: nat, reason: string)
    requires c.host.devices.Some? && n < |c.host.devices.value|
  {
    var gpuIds, watchers := c.host.devices.value, AtTurn(engine, view, c, n).watchers;
    || (reason == "identity" && c.host.device(n).None?
        && gpuIds[n] !in SampleTurns(engine, view, gpuIds[..n], c.host, c.now).view.devices)
    || (reason == "watch" && gpuIds[n] !in watchers)
    || (gpuIds[n] in watchers
        && exists i :: 0 <= i < |watchers[gpuIds[n]].groups| && watchers[gpuIds[n]].groups[i].kind == reason
             && Fails(watchers[gpuIds[n]].groups[i], c.host.history(n, i), c.now))
  }

  lemma FailuresOfKinds(info: GpuInfo, kinds: seq<string>, failure: Failure)
    ensures failure in FailuresOf(info, kinds) <==> failure.info == info && failure.reason in kinds
  {
    var failures := FailuresOf(info, kinds);
    if failure.info == info && failure.reason in kinds {
      var i :| 0 <= i < |kinds| && kinds[i] == failure.reason;
      assert failures[i] == failure;
    }
  }

  lemma YieldFails(view: ClientView, gpuId: nat, info: GpuInfo, replies: nat -> PollReply, now: Time, failure: Failure)
    ensures failure in YieldOf(view, gpuId, info, replies, now).failures <==>
            && failure.info == info
            && if gpuId !in view.watchers then failure.reason == "watch"
               else var groups := view.watchers[gpuId].groups;
                    exists i :: 0 <= i < |groups| && groups[i].kind == failure.reason
                                && Fails(groups[i], replies(i), now)
  {
    if gpuId in view.watchers {
      var watcher := view.watchers[gpuId];
      FailuresAre(gpuId, watcher.groups, Progress(watcher.states, EmptySample(info).slots, [], []), replies, now,
                  failure.reason);
      FailuresOfKinds(info, Read(gpuId, watcher, info, replies, now).1.failures, failure);
    }
  }

  /** Some turn before position n fails with this failure. */
  ghost predicate FailsBefore(engine: Engine, view: ClientView, c: Collection, n: nat, failure: Failure)
    requires c.host.devices.Some? && n <= |c.host.devices.value|
  {
    exists k :: 0 <= k < n && failure.info == InfoAtTurn(engine, view, c, k)
                && FailsFor(engine, view, c, k, failure.reason)
  }

  /** The failures of the batch before position n. */
  function FailuresUpTo(engine: Engine, view: ClientView, c: Collection, n: nat): seq<Failure>
    requires c.host.devices.Some? && n <= |c.host.devices.value|
  {
    SampleTurns(engine, view, c.host.devices.value[..n], c.host, c.now).batch.failures
  }

  lemma TurnFails(engine: Engine, view: ClientView, c: Collection, n: nat, failure: Failure)
    requires c.host.devices.Some? && n < |c.host.devices.value|
    ensures failure in FailuresUpTo(engine, view, c, n + 1) <==>
            || failure in FailuresUpTo(engine, view, c, n)
            || (failure.info == InfoAtTurn(engine, view, c, n) && FailsFor(engine, view, c, n, failure.reason))
  {
    var gpuIds := c.host.devices.value;
    assert gpuIds[..n + 1][..n] == gpuIds[..n];
    YieldFails(AtTurn(engine, view, c, n), gpuIds[n], InfoAtTurn(engine, view, c, n), RepliesAt(c.host, n), c.now,
               failure);
  }

  lemma FailsOneMore(engine: Engine, view: ClientView, c: Collection, n: nat, failure: Failure)
    requires c.host.devices.Some? && n < |c.host.devices.value|
    ensures FailsBefore(engine, view, c, n + 1, failure) <==>
            || FailsBefore(engine, view, c, n, failure)
            || (failure.info == InfoAtTurn(engine, view, c, n) && FailsFor(engine, view, c, n, failure.reason))
  {
  }

  /** The failures before position n are those of the turns before it. */
  ghost predicate Reported(engine: Engine, view: ClientView, c: Collection, n: nat, failure: Failure)
    requires c.host.devices.Some? && n <= |c.host.devices.value|
  {
    failure in FailuresUpTo(engine, view, c, n) <==> FailsBefore(engine, view, c, n, failure)
  }

  lemma ReportedNext(engine: Engine, view: ClientView, c: Collection, n: nat, failure: Failure)
    requires c.host.devices.Some? && n < |c.host.devices.value| && Reported(engine, view, c, n, failure)
    ensures Reported(engine, view, c, n + 1, failure)
  {
    TurnFails(engine, view, c, n, failure);
    FailsOneMore(engine, view, c, n, failure);
  }

  lemma {:induction false} TurnsFail(engine: Engine, view: ClientView, c: Collection, n: nat, failure: Failure)
    requires c.host.devices.Some? && n <= |c.host.devices.value|
    ensures Reported(engine, view, c, n, failure)
  {
    if n == 0 {
    } else {
      TurnsFail(engine, view, c, n - 1, failure);
      ReportedNext(engine, view, c, n - 1, failure);
    }
  }

  /**
   A batch reports a failure of a GPU exactly when its identity was not known and could not be queried,
   it has no watcher, or a group of its watcher was polled and failed; the reason says which.
   */
  lemma FailuresHaveTheirReason(engine: Engine, view: ClientView, c: Collection, failure: Failure)
    requires c.host.devices.Some?
    ensures failure in Collected(engine, view, c).batch.failures <==>
            FailsBefore(engine, view, c, |c.host.devices.value|, failure)
  {
    var gpuIds := c.host.devices.value;
    assert gpuIds[..|gpuIds|] == gpuIds;
    TurnsFail(engine, view, c, |gpuIds|, failure);
  }

  // ----- A slot over a batch ---------------------------------------------------------------

  /** The value of a slot, if it has one. */
  function ValueIn(slots: Slots, f: FieldId): seq<real> { if f in slots then [slots[f]] else [] }

  /** The values of a slot over samples. */
  function SlotValues(samples: seq<GpuSample>, f: FieldId): seq<real> {
    if samples == [] then []
    else SlotValues(samples[..|samples| - 1], f) + ValueIn(samples[|samples| - 1].slots, f)
  }

  /** The last value of a field that the replies give, decoded. */
  function RepliedValue(gpuId: nat, groups: seq<Group>, replies: nat -> PollReply, now: Time, f: FieldId): seq<real> {
    var last := SlotAfter(None, ValuesRead(gpuId, groups, replies, now, f));
    if last.Some? then [last.value] else []
  }

  /** What the replies to the turn at position n give of a field under an identifier, if it is delivered. */
  ghost function RepliedAt(engine: Engine, view: ClientView, c: Collection, n: nat, id: string, f: FieldId): seq<real>
    requires c.host.devices.Some? && n < |c.host.devices.value|
  {
    var gpuId := c.host.devices.value[n];
    if Delivers(engine, view, c, n) && StableIdentifier(InfoAtTurn(engine, view, c, n)) == id
    then RepliedValue(gpuId, AtTurn(engine, view, c, n).watchers[gpuId].groups, RepliesAt(c.host, n), c.now, f)
    else []
  }

  /** What the replies of a collection give of a field under an identifier, turn by turn, as far as it is delivered. */
  ghost function RepliedValues(engine: Engine, view: ClientView, c: Collection, n: nat, id: string,
                               f: FieldId): seq<real>
    requires c.host.devices.Some? && n <= |c.host.devices.value|
  {
    if n == 0 then []
    else RepliedValues(engine, view, c, n - 1, id, f) + RepliedAt(engine, view, c, n - 1, id, f)
  }

  /** A field of which neither the identity nor another field tells anything. */
  predicate OnlyRead(f: FieldId) { HasSlot(f) && f != FB_FREE && f != FB_TOTAL && f != POWER_MGMT_LIMIT }

  lemma ValueOfSample(sample: GpuSample, info: GpuInfo, gpuId: nat, groups: seq<Group>, replies: nat -> PollReply,
                      now: Time, f: FieldId)
    requires OnlyRead(f) && HoldsRead(sample, info, gpuId, groups, replies, now)
    ensures ValueIn(sample.slots, f) == RepliedValue(gpuId, groups, replies, now, f)
  {
    assert Slot(sample.slots, f) == ReadSlot(info, gpuId, groups, replies, now, f);
  }

  lemma SlotValuesOfMine(samples: seq<GpuSample>, sample: GpuSample, id: string, f: FieldId)
    ensures SlotValues(SamplesOf(id, samples + [sample]), f)
         == SlotValues(SamplesOf(id, samples), f)
            + if StableIdentifier(sample.info) == id then ValueIn(sample.slots, f) else []
  {
    assert (samples + [sample])[..|samples|] == samples;
    var mine := SamplesOf(id, samples);
    if StableIdentifier(sample.info) == id {
      assert (mine + [sample])[..|mine|] == mine;
    } else {
      assert mine + [] == mine && SlotValues(mine, f) + [] == SlotValues(mine, f);
    }
  }

  lemma NextGivesReplied(engine: Engine, view: ClientView, c: Collection, n: nat, id: string, f: FieldId,
                         before: seq<GpuSample>, after: seq<GpuSample>)
    requires c.host.devices.Some? && n < |c.host.devices.value| && OnlyRead(f)
    requires before == SamplesUpTo(engine, view, c, n) && after == SamplesUpTo(engine, view, c, n + 1)
    ensures SlotValues(SamplesOf(id, after), f) == SlotValues(SamplesOf(id, before), f)
        + RepliedAt(engine, view, c, n, id, f)
  {
    TurnGivesItsSample(engine, view, c, n);
    if Delivers(engine, view, c, n) {
      var sample, gpuId := after[|before|], c.host.devices.value[n];
      SlotValuesOfMine(before, sample, id, f);
      ValueOfSample(sample, InfoAtTurn(engine, view, c, n), gpuId, AtTurn(engine, view, c, n).watchers[gpuId].groups,
                    RepliesAt(c.host, n), c.now, f);
    } else {
      assert SlotValues(SamplesOf(id, before), f) + [] == SlotValues(SamplesOf(id, before), f);
    }
  }

  lemma {:induction false} TurnsGiveReplied(engine: Engine, view: ClientView, c: Collection, n: nat, id: string,
                                            f: FieldId)
    requires c.host.devices.Some? && n <= |c.host.devices.value| && OnlyRead(f)
    ensures SlotValues(SamplesOf(id, SamplesUpTo(engine, view, c, n)), f) == RepliedValues(engine, view, c, n, id, f)
  {
    if n == 0 {
    } else {
      TurnsGiveReplied(engine, view, c, n - 1, id, f);
      NextGivesReplied(engine, view, c, n - 1, id, f, SamplesUpTo(engine, view, c, n - 1),
                       SamplesUpTo(engine, view, c, n));
    }
  }

  /** The values of a slot over a batch are what its replies gave, decoded. */
  lemma BatchGivesReplied(engine: Engine, view: ClientView, c: Collection, id: string, f: FieldId)
    requires c.host.devices.Some? && OnlyRead(f)
    ensures SlotValues(SamplesOf(id, Collected(engine, view, c).batch.samples), f)
         == RepliedValues(engine, view, c, |c.host.devices.value|, id, f)
  {
    var gpuIds := c.host.devices.value;
    assert gpuIds[..|gpuIds|] == gpuIds;
    TurnsGiveReplied(engine, view, c, |gpuIds|, id, f);
  }
}
