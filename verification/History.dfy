/**
 Reading one watcher group: the returned history in timestamp order, the observations and slots
 it yields, and the availability of each field (readWatcher, dcgm_client.go).
 */
module History {
  import opened FieldSets
  import opened Identity
  import opened Clock
  import opened Decoding

  // ----- The stable sort -------------------------------------------------------------------

  function Insert(x: RawValue, sorted: seq<RawValue>): seq<RawValue> {
    if sorted == [] || x.ts <= sorted[0].ts then [x] + sorted else [sorted[0]] + Insert(x, sorted[1..])
  }

  /** sort.SliceStable by timestamp. */
  function StableSort(values: seq<RawValue>): seq<RawValue> {
    if values == [] then [] else Insert(values[0], StableSort(values[1..]))
  }

  ghost predicate Sorted(values: seq<RawValue>) {
    forall i, j :: 0 <= i < j < |values| ==> values[i].ts <= values[j].ts
  }

  function Filter(keep: RawValue -> bool, values: seq<RawValue>): seq<RawValue> {
    if values == [] then []
    else (if keep(values[0]) then [values[0]] else []) + Filter(keep, values[1..])
  }

  lemma {:induction false} FilterMembers(keep: RawValue -> bool, values: seq<RawValue>, v: RawValue)
    ensures v in Filter(keep, values) <==> v in values && keep(v)
  {
    if values == [] {
    } else {
      FilterMembers(keep, values[1..], v);
      assert values == [values[0]] + values[1..];
    }
  }

  lemma FilterCons(keep: RawValue -> bool, x: RawValue, rest: seq<RawValue>)
    ensures Filter(keep, [x] + rest) == if keep(x) then [x] + Filter(keep, rest) else Filter(keep, rest)
  {
    assert ([x] + rest)[1..] == rest;
  }

  lemma InsertBehind(x: RawValue, head: RawValue, rest: seq<RawValue>)
    requires x.ts > head.ts
    ensures Insert(x, [head] + rest) == [head] + Insert(x, rest)
  {
    assert ([head] + rest)[1..] == rest;
  }

  lemma {:induction false} InsertSorted(x: RawValue, sorted: seq<RawValue>)
    requires Sorted(sorted)
    ensures Sorted(Insert(x, sorted))
    ensures forall v :: v in Insert(x, sorted) <==> v == x || v in sorted
  {
    if sorted != [] && x.ts > sorted[0].ts {
      InsertSorted(x, sorted[1..]);
      var rest := Insert(x, sorted[1..]);
      forall j | 0 <= j < |rest| ensures sorted[0].ts <= rest[j].ts {
        assert rest[j] in rest;
        if rest[j] in sorted[1..] {
          var k :| 0 <= k < |sorted[1..]| && sorted[1..][k] == rest[j];
          assert sorted[0].ts <= sorted[k + 1].ts;
        }
      }
    }
  }

  lemma {:induction false} InsertFiltered(keep: RawValue -> bool, x: RawValue, sorted: seq<RawValue>)
    requires Sorted(sorted)
    ensures Filter(keep, Insert(x, sorted)) == if keep(x) then Insert(x, Filter(keep, sorted)) else Filter(keep, sorted)
  {
    if sorted == [] || x.ts <= sorted[0].ts {
      InsertedFirst(keep, x, sorted);
    } else {
      InsertFiltered(keep, x, sorted[1..]);
      InsertedLater(keep, x, sorted);
    }
  }

  lemma InsertedFirst(keep: RawValue -> bool, x: RawValue, sorted: seq<RawValue>)
    requires Sorted(sorted) && (sorted == [] || x.ts <= sorted[0].ts)
    ensures Filter(keep, Insert(x, sorted)) == if keep(x) then Insert(x, Filter(keep, sorted)) else Filter(keep, sorted)
  {
    FilterCons(keep, x, sorted);
    var kept := Filter(keep, sorted);
    if kept != [] {
      FilterMembers(keep, sorted, kept[0]);
      var k :| 0 <= k < |sorted| && sorted[k] == kept[0];
      assert sorted[0].ts <= sorted[k].ts;
    }
  }

  lemma InsertedLater(keep: RawValue -> bool, x: RawValue, sorted: seq<RawValue>)
    requires sorted != [] && x.ts > sorted[0].ts
    requires Filter(keep, Insert(x, sorted[1..])) == if keep(x) then Insert(x, Filter(keep, sorted[1..]))
        else Filter(keep, sorted[1..])
    ensures Filter(keep, Insert(x, sorted)) == if keep(x) then Insert(x, Filter(keep, sorted)) else Filter(keep, sorted)
  {
    FilterCons(keep, sorted[0], Insert(x, sorted[1..]));
    FilterCons(keep, sorted[0], sorted[1..]);
    assert sorted == [sorted[0]] + sorted[1..];
    if keep(sorted[0]) {
      InsertBehind(x, sorted[0], Filter(keep, sorted[1..]));
    }
  }

  lemma SortCons(x: RawValue, rest: seq<RawValue>)
    ensures StableSort([x] + rest) == Insert(x, StableSort(rest))
  {
    assert ([x] + rest)[1..] == rest;
  }

  /** The sort orders by timestamp, and sorting commutes with every filter; so it is stable and keeps all values. */
  lemma {:induction false} StableSortCommutes(keep: RawValue -> bool, values: seq<RawValue>)
    ensures Sorted(StableSort(values))
    ensures Filter(keep, StableSort(values)) == StableSort(Filter(keep, values))
  {
    if values == [] {
    } else {
      StableSortCommutes(keep, values[1..]);
      InsertSorted(values[0], StableSort(values[1..]));
      InsertFiltered(keep, values[0], StableSort(values[1..]));
      FilterCons(keep, values[0], values[1..]);
      assert values == [values[0]] + values[1..];
      SortCons(values[0], Filter(keep, values[1..]));
    }
  }

  lemma {:induction false} SortOfEqualTimes(values: seq<RawValue>, ts: int)
    requires forall i :: 0 <= i < |values| ==> values[i].ts == ts
    ensures StableSort(values) == values
  {
    if values == [] {
    } else {
      SortOfEqualTimes(values[1..], ts);
    }
  }

  function AtTime(ts: int): RawValue -> bool { (v: RawValue) => v.ts == ts }

  /** Values with the same timestamp come out in the order DCGM returned them. */
  lemma StableSortIsStable(values: seq<RawValue>, ts: int)
    ensures Filter(AtTime(ts), StableSort(values)) == Filter(AtTime(ts), values)
  {
    StableSortCommutes(AtTime(ts), values);
    var kept := Filter(AtTime(ts), values);
    forall i | 0 <= i < |kept| ensures kept[i].ts == ts { FilterMembers(AtTime(ts), values, kept[i]); }
    SortOfEqualTimes(Filter(AtTime(ts), values), ts);
  }

  lemma {:induction false} FilterSnoc(keep: RawValue -> bool, values: seq<RawValue>, x: RawValue)
    ensures Filter(keep, values + [x]) == Filter(keep, values) + (if keep(x) then [x] else [])
  {
    if values == [] {
      assert values + [x] == [x] && [x][1..] == [];
    } else {
      var all, last := values + [x], if keep(x) then [x] else [];
      assert all[1..] == values[1..] + [x] && all[0] == values[0];
      FilterSnoc(keep, values[1..], x);
      Associative(if keep(values[0]) then [values[0]] else [], Filter(keep, values[1..]), last);
    }
  }

  // ----- One successful read ---------------------------------------------------------------

  datatype FieldStatus = FieldStatus(supported: bool, available: bool, lastSuccess: Time)

  const UNSEEN := FieldStatus(false, false, ZERO_TIME)

  type FieldStates = map<FieldId, FieldStatus>

  function StatusOf(states: FieldStates, f: FieldId): FieldStatus { if f in states then states[f] else UNSEEN }

  datatype Observation = Observation(fieldId: FieldId, timestamp: Time, value: real)

  datatype Reading = Reading(states: FieldStates, slots: Slots, observations: seq<Observation>, seen: set<FieldId>)

  function ObservationOf(raw: RawValue): seq<Observation> {
    match Decode(raw)
    case Some(v) => [Observation(raw.fieldId, UnixMicro(raw.ts), v)]
    case None => []
  }

  function StatusAfter(status: FieldStatus, raw: RawValue): FieldStatus {
    if Decode(raw).Some? then status.(available := true, lastSuccess := UnixMicro(raw.ts))
        else status.(available := false)
  }

  /** The loop body over the sorted values. */
  function Absorb(r: Reading, gpuId: nat, raw: RawValue): Reading {
    if raw.entityId != gpuId then r
    else
      Reading(
        r.states[raw.fieldId := StatusAfter(StatusOf(r.states, raw.fieldId), raw)],
        Applied(r.slots, raw),
        r.observations + ObservationOf(raw),
        r.seen + {raw.fieldId})
  }

  function AbsorbAll(r: Reading, gpuId: nat, values: seq<RawValue>): Reading {
    if values == [] then r
    else Absorb(AbsorbAll(r, gpuId, values[..|values| - 1]), gpuId, values[|values| - 1])
  }

  /** The values of one field of one GPU. */
  function OfField(gpuId: nat, f: FieldId): RawValue -> bool { (v: RawValue) => v.entityId == gpuId && v.fieldId == f }

  function ObservationsOf(f: FieldId, observations: seq<Observation>): seq<Observation> {
    if observations == [] then []
    else (if observations[0].fieldId == f then [observations[0]] else []) + ObservationsOf(f, observations[1..])
  }

  function Decoded(values: seq<RawValue>): seq<Observation> {
    if values == [] then [] else Decoded(values[..|values| - 1]) + ObservationOf(values[|values| - 1])
  }

  /** A field's status after its values, in order. */
  function StatusAfterAll(status: FieldStatus, values: seq<RawValue>): FieldStatus {
    if values == [] then status
    else StatusAfter(StatusAfterAll(status, values[..|values| - 1]), values[|values| - 1])
  }

  /** What the slot of a field holds: the decoding of the last value with an OK status, or what it held before. */
  function SlotAfter(before: Option<real>, values: seq<RawValue>): Option<real> {
    if values == [] then before
    else if values[|values| - 1].statusOk then Decode(values[|values| - 1])
    else SlotAfter(before, values[..|values| - 1])
  }

  function Slot(slots: Slots, f: FieldId): Option<real> { if f in slots then Some(slots[f]) else None }

  lemma {:induction false} ObservationsOfInParts(f: FieldId, a: seq<Observation>, b: seq<Observation>)
    ensures ObservationsOf(f, a + b) == ObservationsOf(f, a) + ObservationsOf(f, b)
  {
    if a == [] {
      assert a + b == b;
    } else {
      assert (a + b)[1..] == a[1..] + b && (a + b)[0] == a[0];
      ObservationsOfInParts(f, a[1..], b);
      Associative(if a[0].fieldId == f then [a[0]] else [], ObservationsOf(f, a[1..]), ObservationsOf(f, b));
    }
  }

  /**
   `after` is `before` moved by the values `own` of field `f`, in the part of a reading that belongs
   to that field.
   */
  ghost predicate MovedBy(before: Reading, after: Reading, f: FieldId, own: seq<RawValue>) {
    && StatusOf(after.states, f) == StatusAfterAll(StatusOf(before.states, f), own)
    && (f in after.states <==> f in before.states || own != [])
    && Slot(after.slots, f) == (if KindOf(f).Some? then SlotAfter(Slot(before.slots, f), own)
        else Slot(before.slots, f))
    && ObservationsOf(f, after.observations) == ObservationsOf(f, before.observations) + Decoded(own)
    && (f in after.seen <==> f in before.seen || own != [])
  }

  lemma AbsorbMoves(r: Reading, gpuId: nat, raw: RawValue, f: FieldId)
    ensures MovedBy(r, Absorb(r, gpuId, raw), f, if OfField(gpuId, f)(raw) then [raw] else [])
  {
    if OfField(gpuId, f)(raw) {
      AbsorbMovesOwn(r, gpuId, raw);
    } else {
      AbsorbLeavesOther(r, gpuId, raw, f);
    }
  }

  lemma AbsorbMovesOwn(r: Reading, gpuId: nat, raw: RawValue)
    requires raw.entityId == gpuId
    ensures MovedBy(r, Absorb(r, gpuId, raw), raw.fieldId, [raw])
  {
    var f := raw.fieldId;
    ObservationsOfInParts(f, r.observations, ObservationOf(raw));
    assert [raw][..0] == [];
    assert Decoded([raw]) == ObservationOf(raw);
    assert StatusAfterAll(StatusOf(r.states, f), [raw]) == StatusAfter(StatusOf(r.states, f), raw);
    assert SlotAfter(Slot(r.slots, f), [raw]) == if raw.statusOk then Decode(raw) else Slot(r.slots, f);
  }

  lemma AbsorbLeavesOther(r: Reading, gpuId: nat, raw: RawValue, f: FieldId)
    requires raw.entityId != gpuId || raw.fieldId != f
    ensures MovedBy(r, Absorb(r, gpuId, raw), f, [])
  {
    ObservationsOfInParts(f, r.observations, ObservationOf(raw));
    assert ObservationsOf(f, r.observations) + [] == ObservationsOf(f, r.observations);
  }

  lemma MovedTwice(a: Reading, b: Reading, c: Reading, f: FieldId, first: seq<RawValue>, last: RawValue)
    requires MovedBy(a, b, f, first) && MovedBy(b, c, f, [last])
    ensures MovedBy(a, c, f, first + [last])
  {
    assert (first + [last])[..|first|] == first && [last][..0] == [];
    assert Decoded([last]) == ObservationOf(last);
    assert StatusAfterAll(StatusOf(b.states, f), [last]) == StatusAfter(StatusOf(b.states, f), last);
    assert SlotAfter(Slot(b.slots, f), [last]) == if last.statusOk then Decode(last) else Slot(b.slots, f);
  }

  /** What a read does to one field depends only on the values of that field of this GPU, in order. */
  lemma {:induction false} AbsorbedFieldByField(r: Reading, gpuId: nat, values: seq<RawValue>, f: FieldId)
    ensures MovedBy(r, AbsorbAll(r, gpuId, values), f, Filter(OfField(gpuId, f), values))
  {
    if values == [] {
    } else {
      var init, raw := values[..|values| - 1], values[|values| - 1];
      var before := AbsorbAll(r, gpuId, init);
      AbsorbedFieldByField(r, gpuId, init, f);
      AbsorbMoves(before, gpuId, raw, f);
      assert values == init + [raw];
      FilterSnoc(OfField(gpuId, f), init, raw);
      var own := Filter(OfField(gpuId, f), init);
      if OfField(gpuId, f)(raw) {
        MovedTwice(r, before, Absorb(before, gpuId, raw), f, own, raw);
      } else {
        assert own + [] == own;
        assert ObservationsOf(f, before.observations) + [] == ObservationsOf(f, before.observations);
      }
    }
  }

  /**
   History decoding keeps the order: the observations a read appends for a field are the decodable
   values of this GPU's field in stable timestamp order, and its slot follows the last of them with an OK status.
   */
  lemma HistoryInTimestampOrder(r: Reading, gpuId: nat, values: seq<RawValue>, f: FieldId)
    ensures var own := StableSort(Filter(OfField(gpuId, f), values));
            var after := AbsorbAll(r, gpuId, StableSort(values));
            && ObservationsOf(f, after.observations) == ObservationsOf(f, r.observations) + Decoded(own)
            && (KindOf(f).Some? ==> Slot(after.slots, f) == SlotAfter(Slot(r.slots, f), own))
            && (KindOf(f).None? ==> Slot(after.slots, f) == Slot(r.slots, f))
  {
    StableSortCommutes(OfField(gpuId, f), values);
    AbsorbedFieldByField(r, gpuId, StableSort(values), f);
  }

  // ----- A poll of a group -----------------------------------------------------------------

  /** A watcher group as the poll sees it; kind, fields and interval never change. */
  datatype Group = Group(kind: string, fields: seq<FieldId>, interval: Duration, since: Time, lastPoll: Time)

  datatype PollReply = PollError | PollValues(values: seq<RawValue>, next: Time)

  predicate Due(lastPoll: Time, interval: Duration, now: Time) { lastPoll == ZERO_TIME || now - lastPoll >= interval }

  /** Fields without a value in this read stay available for two intervals after their last success. */
  predicate Stale(status: FieldStatus, interval: Duration, now: Time) {
    status.lastSuccess == ZERO_TIME || now - status.lastSuccess > 2 * interval
  }

  function MarkedUnavailable(states: FieldStates, fields: set<FieldId>): FieldStates {
    states + map f | f in fields :: StatusOf(states, f).(available := false)
  }

  /** Marking one more field leaves everything about it but its availability. */
  lemma MarkedOneMore(states: FieldStates, fields: set<FieldId>, f: FieldId)
    ensures MarkedUnavailable(states, {}) == states
    ensures var marked := MarkedUnavailable(states, fields);
            && StatusOf(marked, f).lastSuccess == StatusOf(states, f).lastSuccess
            && MarkedUnavailable(states, fields + {f}) == marked[f := StatusOf(marked, f).(available := false)]
  {
    var marked := MarkedUnavailable(states, fields);
    var more := MarkedUnavailable(states, fields + {f});
    var updated := marked[f := StatusOf(marked, f).(available := false)];
    assert more.Keys == updated.Keys;
    forall g | g in more ensures more[g] == updated[g] {
    }
  }

  function StaleFields(states: FieldStates, fields: seq<FieldId>, seen: set<FieldId>, interval: Duration,
                       now: Time): set<FieldId> {
    set f | f in fields && f !in seen && Stale(StatusOf(states, f), interval, now)
  }

  datatype Progress = Progress(states: FieldStates, slots: Slots, observations: seq<Observation>, failures: seq<string>)

  datatype Polled = Polled(group: Group, progress: Progress)

  /** One turn of the loop over the groups. */
  function PollGroup(gpuId: nat, g: Group, p: Progress, reply: PollReply, now: Time): Polled {
    if !Due(g.lastPoll, g.interval, now) then Polled(g, p)
    else
      var polled := g.(lastPoll := now);
      match reply
      case PollError =>
        Polled(polled, p.(states := MarkedUnavailable(p.states, Elements(g.fields)), failures := p.failures + [g.kind]))
      case PollValues(values, next) =>
        var r := AbsorbAll(Reading(p.states, p.slots, p.observations, {}), gpuId, StableSort(values));
        var states := MarkedUnavailable(r.states, StaleFields(r.states, g.fields, r.seen, g.interval, now));
        Polled(if next == ZERO_TIME then polled else polled.(since := next),
               Progress(states, r.slots, r.observations, p.failures))
  }

  /** All groups of a watcher, in order, with one reply per group. */
  function PollGroups(gpuId: nat, groups: seq<Group>, p: Progress, replies: nat -> PollReply,
                      now: Time): (r: (seq<Group>, Progress))
    ensures |r.0| == |groups|
    decreases |groups|
  {
    if groups == [] then ([], p)
    else
      var n := |groups| - 1;
      var before := PollGroups(gpuId, groups[..n], p, replies, now);
      var last := PollGroup(gpuId, groups[n], before.1, replies(n), now);
      (before.0 + [last.group], last.progress)
  }

  /** The time of the last of these values that decodes, or else the time before. */
  function LastDecodedAt(before: Time, values: seq<RawValue>): Time {
    if values == [] then before
    else if Decode(values[|values| - 1]).Some? then UnixMicro(values[|values| - 1].ts)
    else LastDecodedAt(before, values[..|values| - 1])
  }

  /**
   After a successful poll, a field is available exactly when its last value decoded, or it had
   none, was available and succeeded at most two intervals ago. Its last success is the time of the
   last value that decoded.
   */
  lemma AvailableAfterPoll(gpuId: nat, g: Group, p: Progress, reply: PollReply, now: Time, f: FieldId)
    requires Due(g.lastPoll, g.interval, now) && reply.PollValues? && f in g.fields
    ensures var own := StableSort(Filter(OfField(gpuId, f), reply.values));
            var before := StatusOf(p.states, f);
            var after := StatusOf(PollGroup(gpuId, g, p, reply, now).progress.states, f);
            && after.supported == before.supported
            && (after.available <==>
                if own != [] then Decode(own[|own| - 1]).Some?
                else && before.available && before.lastSuccess != ZERO_TIME
                     && now - before.lastSuccess <= 2 * g.interval)
            && after.lastSuccess == LastDecodedAt(before.lastSuccess, own)
  {
    var own := StableSort(Filter(OfField(gpuId, f), reply.values));
    var r := AbsorbAll(Reading(p.states, p.slots, p.observations, {}), gpuId, StableSort(reply.values));
    StableSortCommutes(OfField(gpuId, f), reply.values);
    AbsorbedFieldByField(Reading(p.states, p.slots, p.observations, {}), gpuId, StableSort(reply.values), f);
    AbsorbedStatus(StatusOf(p.states, f), own);
    assert f in r.seen <==> own != [];
    assert StatusOf(MarkedUnavailable(r.states, StaleFields(r.states, g.fields, r.seen, g.interval, now)), f)
           == if own == [] && Stale(StatusOf(p.states, f), g.interval, now)
               then StatusOf(r.states, f).(available := false) else StatusOf(r.states, f);
  }

  lemma {:induction false} AbsorbedStatus(status: FieldStatus, own: seq<RawValue>)
    ensures StatusAfterAll(status, own).supported == status.supported
    ensures StatusAfterAll(status, own).lastSuccess == LastDecodedAt(status.lastSuccess, own)
    ensures if own == [] then StatusAfterAll(status, own) == status
            else StatusAfterAll(status, own).available == Decode(own[|own| - 1]).Some?
  {
    if own == [] {
    } else {
      AbsorbedStatus(status, own[..|own| - 1]);
    }
  }

  /** After a failed poll none of the group's fields is available, and no other field changed. */
  lemma UnavailableAfterFailedPoll(gpuId: nat, g: Group, p: Progress, now: Time, f: FieldId)
    requires Due(g.lastPoll, g.interval, now)
    ensures var after := StatusOf(PollGroup(gpuId, g, p, PollError, now).progress.states, f);
            after == if f in g.fields then StatusOf(p.states, f).(available := false) else StatusOf(p.states, f)
  {
  }

  // ----- Availability over all polls -------------------------------------------------------

  /** An available field is a watched one, and a success of it is on record. */
  ghost predicate AvailabilitySound(states: FieldStates, watched: set<FieldId>) {
    forall f :: f in states ==>
      && (states[f].supported <==> f in watched)
      && (states[f].available ==> states[f].supported && states[f].lastSuccess != ZERO_TIME)
  }

  /** DCGM answers with fields of the group it was asked for, at times other than Go's zero time. */
  ghost predicate ReplyWithin(reply: PollReply, gpuId: nat, fields: seq<FieldId>) {
    reply.PollValues? ==>
      forall v :: v in reply.values && v.entityId == gpuId ==> v.fieldId in fields && UnixMicro(v.ts) != ZERO_TIME
  }

  lemma {:induction false} AbsorbKeepsSound(r: Reading, gpuId: nat, values: seq<RawValue>, fields: seq<FieldId>,
                                            watched: set<FieldId>)
    requires AvailabilitySound(r.states, watched) && Elements(fields) <= watched <= r.states.Keys
    requires forall v :: v in values && v.entityId == gpuId ==> v.fieldId in fields && UnixMicro(v.ts) != ZERO_TIME
    ensures AvailabilitySound(AbsorbAll(r, gpuId, values).states, watched)
    ensures watched <= AbsorbAll(r, gpuId, values).states.Keys
  {
    if values == [] {
    } else {
      var init, raw := values[..|values| - 1], values[|values| - 1];
      AbsorbKeepsSound(r, gpuId, init, fields, watched);
      assert raw in values;
      if raw.entityId == gpuId {
        assert raw.fieldId in Elements(fields);
      }
    }
  }

  lemma PollKeepsSound(gpuId: nat, g: Group, p: Progress, reply: PollReply, now: Time, watched: set<FieldId>)
    requires AvailabilitySound(p.states, watched) && Elements(g.fields) <= watched <= p.states.Keys
    requires ReplyWithin(reply, gpuId, g.fields)
    ensures var after := PollGroup(gpuId, g, p, reply, now).progress.states;
            AvailabilitySound(after, watched) && watched <= after.Keys
  {
    if Due(g.lastPoll, g.interval, now) && reply.PollValues? {
      var values := StableSort(reply.values);
      forall v | v in values && v.entityId == gpuId ensures v.fieldId in g.fields && UnixMicro(v.ts) != ZERO_TIME {
        SortKeepsMembers(reply.values, v);
      }
      var r := Reading(p.states, p.slots, p.observations, {});
      AbsorbKeepsSound(r, gpuId, values, g.fields, watched);
      var read := AbsorbAll(r, gpuId, values);
      forall f | f in StaleFields(read.states, g.fields, read.seen, g.interval, now) ensures f in read.states {
        assert f in Elements(g.fields);
      }
    } else {
      forall f | f in g.fields ensures f in p.states {
        assert f in Elements(g.fields);
      }
    }
  }

  lemma {:induction false} SortKeepsMembers(values: seq<RawValue>, v: RawValue)
    ensures v in StableSort(values) <==> v in values
  {
    if values == [] {
    } else {
      SortKeepsMembers(values[1..], v);
      StableSortCommutes(AtTime(0), values[1..]);
      InsertSorted(values[0], StableSort(values[1..]));
    }
  }

  /** Whatever a watcher is told, poll after poll, no field becomes available that is not watched or never succeeded. */
  lemma {:induction false} AllPollsKeepSound(gpuId: nat, groups: seq<Group>, p: Progress, replies: nat -> PollReply,
                                             now: Time, watched: set<FieldId>)
    requires AvailabilitySound(p.states, watched) && watched <= p.states.Keys
    requires forall i :: 0 <= i < |groups| ==>
               Elements(groups[i].fields) <= watched
               && ReplyWithin(replies(i), gpuId, groups[i].fields)
    ensures var after := PollGroups(gpuId, groups, p, replies, now).1.states;
            AvailabilitySound(after, watched) && watched <= after.Keys
    decreases |groups|
  {
    if groups == [] {
    } else {
      var n := |groups| - 1;
      AllPollsKeepSound(gpuId, groups[..n], p, replies, now, watched);
      var before := PollGroups(gpuId, groups[..n], p, replies, now);
      assert groups[n] in groups;
      PollKeepsSound(gpuId, groups[n], before.1, replies(n), now, watched);
    }
  }

  /** A poll never changes what a group watches. */
  lemma {:induction false} PollsKeepFields(gpuId: nat, groups: seq<Group>, p: Progress, replies: nat -> PollReply,
                                           now: Time)
    ensures forall i :: 0 <= i < |groups| ==> PollGroups(gpuId, groups, p, replies, now).0[i].fields == groups[i].fields
    decreases |groups|
  {
    if groups == [] {
    } else {
      PollsKeepFields(gpuId, groups[..|groups| - 1], p, replies, now);
    }
  }

  /** One collection as a watcher sees it. */
  datatype Round = Round(slots: Slots, replies: nat -> PollReply, now: Time)

  /** The groups and field states of a watcher after these collections. */
  function AfterRounds(gpuId: nat, groups: seq<Group>, states: FieldStates,
                       rounds: seq<Round>): (r: (seq<Group>, FieldStates))
    ensures |r.0| == |groups|
  {
    if rounds == [] then (groups, states)
    else
      var before := AfterRounds(gpuId, groups, states, rounds[..|rounds| - 1]);
      var round := rounds[|rounds| - 1];
      var after := PollGroups(gpuId, before.0, Progress(before.1, round.slots, [], []), round.replies, round.now);
      (after.0, after.1.states)
  }

  /**
   In every run of a watcher whose replies stay within the polled groups, an available field is a
   supported one and has a recorded success.
   */
  lemma {:induction false} AvailabilitySoundInEveryRun(gpuId: nat, groups: seq<Group>, states: FieldStates,
                                                       rounds: seq<Round>, watched: set<FieldId>)
    requires AvailabilitySound(states, watched) && watched <= states.Keys
    requires forall i :: 0 <= i < |groups| ==> Elements(groups[i].fields) <= watched
    requires forall k, i :: 0 <= k < |rounds| && 0 <= i < |groups|
               ==> ReplyWithin(rounds[k].replies(i), gpuId, groups[i].fields)
    ensures var after := AfterRounds(gpuId, groups, states, rounds);
            && AvailabilitySound(after.1, watched) && watched <= after.1.Keys
            && forall i :: 0 <= i < |groups| ==> after.0[i].fields == groups[i].fields
  {
    if rounds == [] {
    } else {
      var n := |rounds| - 1;
      AvailabilitySoundInEveryRun(gpuId, groups, states, rounds[..n], watched);
      var before := AfterRounds(gpuId, groups, states, rounds[..n]);
      var p := Progress(before.1, rounds[n].slots, [], []);
      PollsKeepFields(gpuId, before.0, p, rounds[n].replies, rounds[n].now);
      AllPollsKeepSound(gpuId, before.0, p, rounds[n].replies, rounds[n].now, watched);
    }
  }

  ghost predicate AllInRange(observations: seq<Observation>) {
    forall i :: 0 <= i < |observations| ==> InRange(observations[i].fieldId, observations[i].value)
  }

  lemma {:induction false} AbsorbKeepsRange(r: Reading, gpuId: nat, values: seq<RawValue>)
    requires AllInRange(r.observations)
    ensures AllInRange(AbsorbAll(r, gpuId, values).observations)
  {
    if values == [] {
    } else {
      AbsorbKeepsRange(r, gpuId, values[..|values| - 1]);
      if Decode(values[|values| - 1]).Some? { DecodedInRange(values[|values| - 1]); }
    }
  }

  /** Every observation the polls append is in the range of its field. */
  lemma {:induction false} PollsKeepRange(gpuId: nat, groups: seq<Group>, p: Progress, replies: nat -> PollReply,
                                          now: Time)
    requires AllInRange(p.observations)
    ensures AllInRange(PollGroups(gpuId, groups, p, replies, now).1.observations)
    decreases |groups|
  {
    if groups == [] {
    } else {
      var n := |groups| - 1;
      PollsKeepRange(gpuId, groups[..n], p, replies, now);
      var before := PollGroups(gpuId, groups[..n], p, replies, now);
      if Due(groups[n].lastPoll, groups[n].interval, now) && replies(n).PollValues? {
        AbsorbKeepsRange(Reading(before.1.states, before.1.slots, before.1.observations, {}), gpuId,
                         StableSort(replies(n).values));
      }
    }
  }

  // ----- Poll spacing ----------------------------------------------------------------------

  /** What a turn of the loop makes of a group; nothing read for the other groups enters. */
  function NextGroup(g: Group, reply: PollReply, now: Time): Group {
    if !Due(g.lastPoll, g.interval, now) then g
    else if reply.PollError? || reply.next == ZERO_TIME then g.(lastPoll := now)
    else g.(lastPoll := now, since := reply.next)
  }

  lemma {:induction false} GroupsMoveAlone(gpuId: nat, groups: seq<Group>, p: Progress, replies: nat -> PollReply,
                                           now: Time)
    ensures var after := PollGroups(gpuId, groups, p, replies, now).0;
            forall i :: 0 <= i < |groups| ==> after[i] == NextGroup(groups[i], replies(i), now)
    decreases |groups|
  {
    if groups == [] {
    } else {
      GroupsMoveAlone(gpuId, groups[..|groups| - 1], p, replies, now);
    }
  }

  /**
   What a turn of the loop makes of a group: its kind, fields and interval stay; when it is due it is
   polled now; and it asks from the time the engine named next, when it answered and named one.
   */
  lemma GroupAfterTurn(gpuId: nat, groups: seq<Group>, p: Progress, replies: nat -> PollReply, now: Time, i: nat)
    requires i < |groups|
    ensures var g, after := groups[i], PollGroups(gpuId, groups, p, replies, now).0[i];
            var polled := g.lastPoll == ZERO_TIME || now - g.lastPoll >= g.interval;
            && after.kind == g.kind && after.fields == g.fields && after.interval == g.interval
            && after.lastPoll == (if polled then now else g.lastPoll)
            && after.since == (if polled && replies(i).PollValues? && replies(i).next != ZERO_TIME then replies(i).next
                               else g.since)
  {
    GroupsMoveAlone(gpuId, groups, p, replies, now);
  }

  lemma RoundMovesGroup(gpuId: nat, groups: seq<Group>, states: FieldStates, rounds: seq<Round>, i: nat)
    requires rounds != [] && i < |groups|
    ensures var n := |rounds| - 1;
            AfterRounds(gpuId, groups, states, rounds).0[i]
            == NextGroup(AfterRounds(gpuId, groups, states, rounds[..n]).0[i], rounds[n].replies(i), rounds[n].now)
  {
    var n := |rounds| - 1;
    var before := AfterRounds(gpuId, groups, states, rounds[..n]);
    GroupsMoveAlone(gpuId, before.0, Progress(before.1, rounds[n].slots, [], []), rounds[n].replies, rounds[n].now);
  }

  /** The times of the rounds in which group i is really polled: it is due by what it recorded before. */
  function PollTimes(gpuId: nat, groups: seq<Group>, states: FieldStates, rounds: seq<Round>, i: nat): seq<Time>
    requires i < |groups|
  {
    if rounds == [] then []
    else
      var n := |rounds| - 1;
      var g := AfterRounds(gpuId, groups, states, rounds[..n]).0[i];
      PollTimes(gpuId, groups, states, rounds[..n], i) + if Due(g.lastPoll, g.interval, rounds[n].now)
          then [rounds[n].now] else []
  }

  ghost predicate Spaced(polls: seq<Time>, interval: Duration) {
    forall i :: 0 < i < |polls| ==> polls[i] - polls[i - 1] >= interval
  }

  /** The polls of a group follow on its last poll and are spaced, and the last of them is on record. */
  ghost predicate RateLimited(g: Group, after: Group, polls: seq<Time>) {
    && after.interval == g.interval && after.kind == g.kind && after.fields == g.fields
    && Spaced(polls, g.interval)
    && (if polls == [] then after.lastPoll == g.lastPoll
        else after.lastPoll == polls[|polls| - 1] && (g.lastPoll != ZERO_TIME ==> polls[0] - g.lastPoll >= g.interval))
  }

  ghost predicate Timed(rounds: seq<Round>) { forall k :: 0 <= k < |rounds| ==> rounds[k].now != ZERO_TIME }

  lemma {:induction false} RoundsAreRateLimited(gpuId: nat, groups: seq<Group>, states: FieldStates,
                                                rounds: seq<Round>, i: nat)
    requires i < |groups| && Timed(rounds)
    ensures RateLimited(groups[i], AfterRounds(gpuId, groups, states, rounds).0[i],
                        PollTimes(gpuId, groups, states, rounds, i))
    ensures forall t :: t in PollTimes(gpuId, groups, states, rounds, i) ==> t != ZERO_TIME
  {
    if rounds == [] {
    } else {
      var n := |rounds| - 1;
      RoundsAreRateLimited(gpuId, groups, states, rounds[..n], i);
      RoundMovesGroup(gpuId, groups, states, rounds, i);
      var before := PollTimes(gpuId, groups, states, rounds[..n], i);
      var g := AfterRounds(gpuId, groups, states, rounds[..n]).0[i];
      OneMorePoll(groups[i], g, before, rounds[n].replies(i), rounds[n].now);
    }
  }

  lemma OneMorePoll(start: Group, g: Group, polls: seq<Time>, reply: PollReply, now: Time)
    requires RateLimited(start, g, polls) && now != ZERO_TIME && forall t :: t in polls ==> t != ZERO_TIME
    ensures RateLimited(start, NextGroup(g, reply, now), polls + if Due(g.lastPoll, g.interval, now) then [now] else [])
  {
    if !Due(g.lastPoll, g.interval, now) {
      assert polls + [] == polls;
    } else if polls != [] {
      assert polls[|polls| - 1] in polls;
      assert (polls + [now])[0] == polls[0];
    }
  }

  /** The latest of these polls, or the one before them. */
  function LatestPoll(before: Time, polls: seq<Time>): Time { if polls == [] then before else polls[|polls| - 1] }

  /** A round polls a group exactly when it was never polled or its interval has passed since. */
  lemma PolledOnceDue(gpuId: nat, groups: seq<Group>, states: FieldStates, rounds: seq<Round>, i: nat)
    requires rounds != [] && i < |groups| && Timed(rounds)
    ensures var n := |rounds| - 1;
            var polls := PollTimes(gpuId, groups, states, rounds[..n], i);
            var latest := LatestPoll(groups[i].lastPoll, polls);
            PollTimes(gpuId, groups, states, rounds, i) ==
              if latest == ZERO_TIME || rounds[n].now - latest >= groups[i].interval then polls + [rounds[n].now]
              else polls
  {
    var n := |rounds| - 1;
    RoundsAreRateLimited(gpuId, groups, states, rounds[..n], i);
    assert PollTimes(gpuId, groups, states, rounds[..n], i) + [] == PollTimes(gpuId, groups, states, rounds[..n], i);
  }

  lemma {:induction false} SpacedPollsTakeTime(polls: seq<Time>, interval: Duration)
    requires polls != [] && Spaced(polls, interval)
    ensures (|polls| - 1) * interval <= polls[|polls| - 1] - polls[0]
  {
    if |polls| > 1 {
      var before := polls[..|polls| - 1];
      SpacedPollsTakeTime(before, interval);
      assert (|polls| - 1) * interval == (|before| - 1) * interval + interval;
    }
  }

  /**
   Over any rounds of a watcher, whatever their times, even going back: the real polls of a group are
   at least an interval apart, so that n of them span at least n - 1 intervals.
   */
  lemma PollsAreRateLimited(gpuId: nat, groups: seq<Group>, states: FieldStates, rounds: seq<Round>, i: nat)
    requires i < |groups| && Timed(rounds)
    ensures var polls := PollTimes(gpuId, groups, states, rounds, i);
            && RateLimited(groups[i], AfterRounds(gpuId, groups, states, rounds).0[i], polls)
            && (polls != [] ==> (|polls| - 1) * groups[i].interval <= polls[|polls| - 1] - polls[0])
  {
    RoundsAreRateLimited(gpuId, groups, states, rounds, i);
    var polls := PollTimes(gpuId, groups, states, rounds, i);
    if polls != [] {
      SpacedPollsTakeTime(polls, groups[i].interval);
    }
  }

  // ----- A field that gets no value --------------------------------------------------------

  /** Only group i watches field f. */
  ghost predicate WatchedOnlyBy(groups: seq<Group>, f: FieldId, i: nat) {
    forall j :: 0 <= j < |groups| && f in groups[j].fields ==> j == i
  }

  /** The reply has no value of this field of the GPU. */
  ghost predicate SilentAbout(reply: PollReply, gpuId: nat, f: FieldId) {
    reply.PollValues? ==> forall v :: v in reply.values && v.entityId == gpuId ==> v.fieldId != f
  }

  lemma NothingFiltered(values: seq<RawValue>, gpuId: nat, f: FieldId)
    requires forall v :: v in values && v.entityId == gpuId ==> v.fieldId != f
    ensures Filter(OfField(gpuId, f), values) == []
  {
    var own := Filter(OfField(gpuId, f), values);
    if own != [] {
      FilterMembers(OfField(gpuId, f), values, own[0]);
    }
  }

  lemma PollLeavesStatus(gpuId: nat, g: Group, p: Progress, reply: PollReply, now: Time, f: FieldId)
    requires f !in g.fields && SilentAbout(reply, gpuId, f)
    ensures StatusOf(PollGroup(gpuId, g, p, reply, now).progress.states, f) == StatusOf(p.states, f)
  {
    if Due(g.lastPoll, g.interval, now) && reply.PollValues? {
      NothingFiltered(reply.values, gpuId, f);
      StableSortCommutes(OfField(gpuId, f), reply.values);
      AbsorbedFieldByField(Reading(p.states, p.slots, p.observations, {}), gpuId, StableSort(reply.values), f);
    }
  }

  /** A poll that does not end the availability of a field whose last success was then. */
  ghost predicate Spares(g: Group, reply: PollReply, now: Time, lastSuccess: Time) {
    Due(g.lastPoll, g.interval, now) ==>
      reply.PollValues? && lastSuccess != ZERO_TIME && now - lastSuccess <= 2 * g.interval
  }

  lemma QuietPoll(gpuId: nat, g: Group, p: Progress, reply: PollReply, now: Time, f: FieldId)
    requires f in g.fields && SilentAbout(reply, gpuId, f)
    ensures var before := StatusOf(p.states, f);
            StatusOf(PollGroup(gpuId, g, p, reply, now).progress.states, f)
            == before.(available := before.available && Spares(g, reply, now, before.lastSuccess))
  {
    if Due(g.lastPoll, g.interval, now) && reply.PollValues? {
      NothingFiltered(reply.values, gpuId, f);
      AvailableAfterPoll(gpuId, g, p, reply, now, f);
    }
  }

  lemma {:induction false} QuietRead(gpuId: nat, groups: seq<Group>, p: Progress, replies: nat -> PollReply, now: Time,
                                     i: nat, f: FieldId)
    requires WatchedOnlyBy(groups, f, i) && forall j :: 0 <= j < |groups| ==> SilentAbout(replies(j), gpuId, f)
    ensures var before := StatusOf(p.states, f);
            StatusOf(PollGroups(gpuId, groups, p, replies, now).1.states, f)
            == if i < |groups| && f in groups[i].fields
               then before.(available := before.available && Spares(groups[i], replies(i), now, before.lastSuccess))
               else before
    decreases |groups|
  {
    if groups == [] {
    } else {
      var n := |groups| - 1;
      var before := PollGroups(gpuId, groups[..n], p, replies, now).1;
      QuietRead(gpuId, groups[..n], p, replies, now, i, f);
      if f in groups[n].fields {
        QuietPoll(gpuId, groups[n], before, replies(n), now, f);
      } else {
        PollLeavesStatus(gpuId, groups[n], before, replies(n), now, f);
      }
    }
  }

  lemma {:induction false} RoundsKeepFields(gpuId: nat, groups: seq<Group>, states: FieldStates, rounds: seq<Round>)
    ensures var after := AfterRounds(gpuId, groups, states, rounds).0;
            forall j :: 0 <= j < |groups| ==>
              after[j].fields == groups[j].fields && after[j].interval == groups[j].interval
  {
    if rounds == [] {
    } else {
      var n := |rounds| - 1;
      RoundsKeepFields(gpuId, groups, states, rounds[..n]);
      forall j | 0 <= j < |groups|
        ensures var g := AfterRounds(gpuId, groups, states, rounds).0[j];
                g.fields == groups[j].fields && g.interval == groups[j].interval
      {
        RoundMovesGroup(gpuId, groups, states, rounds, j);
      }
    }
  }

  /** No reply of these rounds has a value of the field, which group i alone watches. */
  ghost predicate Quiet(gpuId: nat, groups: seq<Group>, rounds: seq<Round>, i: nat, f: FieldId) {
    && i < |groups| && f in groups[i].fields && WatchedOnlyBy(groups, f, i)
    && forall k, j :: 0 <= k < |rounds| && 0 <= j < |groups| ==> SilentAbout(rounds[k].replies(j), gpuId, f)
  }

  /** Round k spares the availability of a field of group i. */
  ghost predicate RoundSpares(gpuId: nat, groups: seq<Group>, states: FieldStates, rounds: seq<Round>, i: nat, k: nat,
                              lastSuccess: Time)
    requires i < |groups| && k < |rounds|
  {
    Spares(AfterRounds(gpuId, groups, states, rounds[..k]).0[i], rounds[k].replies(i), rounds[k].now, lastSuccess)
  }

  lemma QuietRound(gpuId: nat, groups: seq<Group>, states: FieldStates, rounds: seq<Round>, i: nat, f: FieldId)
    requires rounds != [] && Quiet(gpuId, groups, rounds, i, f)
    ensures var n := |rounds| - 1;
            var before := StatusOf(AfterRounds(gpuId, groups, states, rounds[..n]).1, f);
            && StatusOf(AfterRounds(gpuId, groups, states, rounds).1, f)
                == before.(available := before.available
                           && RoundSpares(gpuId, groups, states, rounds, i, n, before.lastSuccess))
            && Quiet(gpuId, groups, rounds[..n], i, f)
  {
    var n := |rounds| - 1;
    var (now, states') := AfterRounds(gpuId, groups, states, rounds[..n]);
    RoundsKeepFields(gpuId, groups, states, rounds[..n]);
    QuietRead(gpuId, now, Progress(states', rounds[n].slots, [], []), rounds[n].replies, rounds[n].now, i, f);
  }

  /** Every round spares it. */
  ghost predicate AllSpare(gpuId: nat, groups: seq<Group>, states: FieldStates, rounds: seq<Round>, i: nat,
                           lastSuccess: Time)
    requires i < |groups|
  {
    forall k :: 0 <= k < |rounds| ==> RoundSpares(gpuId, groups, states, rounds, i, k, lastSuccess)
  }

  lemma AllSpareOneMore(gpuId: nat, groups: seq<Group>, states: FieldStates, rounds: seq<Round>, i: nat,
                        lastSuccess: Time)
    requires rounds != [] && i < |groups|
    ensures var n := |rounds| - 1;
            AllSpare(gpuId, groups, states, rounds, i, lastSuccess) <==>
            AllSpare(gpuId, groups, states, rounds[..n], i, lastSuccess)
            && RoundSpares(gpuId, groups, states, rounds, i, n, lastSuccess)
  {
    var n := |rounds| - 1;
    forall k | 0 <= k < n
      ensures RoundSpares(gpuId, groups, states, rounds[..n], i, k, lastSuccess)
          <==> RoundSpares(gpuId, groups, states, rounds, i, k, lastSuccess)
    {
      assert rounds[..n][..k] == rounds[..k] && rounds[..n][k] == rounds[k];
    }
  }

  /**
   Over rounds without a value of it, a field keeps its last success, and stays available exactly as
   long as every poll of its group is answered, at most two intervals after that.
   */
  lemma {:induction false} QuietFieldExpires(gpuId: nat, groups: seq<Group>, states: FieldStates, rounds: seq<Round>,
                                             i: nat, f: FieldId)
    requires Quiet(gpuId, groups, rounds, i, f)
    ensures var before, after := StatusOf(states, f), StatusOf(AfterRounds(gpuId, groups, states, rounds).1, f);
            && after.supported == before.supported && after.lastSuccess == before.lastSuccess
            && (after.available <==>
                before.available && AllSpare(gpuId, groups, states, rounds, i, before.lastSuccess))
  {
    if rounds == [] {
    } else {
      QuietRound(gpuId, groups, states, rounds, i, f);
      QuietFieldExpires(gpuId, groups, states, rounds[..|rounds| - 1], i, f);
      AllSpareOneMore(gpuId, groups, states, rounds, i, StatusOf(states, f).lastSuccess);
    }
  }

  /** None of these times is later than that much after the first. */
  ghost predicate AllWithin(times: seq<Time>, from: Time, span: Duration) {
    forall k :: 0 <= k < |times| ==> times[k] - from <= span
  }

  lemma {:induction false} AnsweredSpare(gpuId: nat, groups: seq<Group>, states: FieldStates, rounds: seq<Round>,
                                         i: nat, lastSuccess: Time)
    requires i < |groups| && lastSuccess != ZERO_TIME
    requires forall k :: 0 <= k < |rounds| ==> rounds[k].replies(i).PollValues?
    ensures AllSpare(gpuId, groups, states, rounds, i, lastSuccess) <==>
            AllWithin(PollTimes(gpuId, groups, states, rounds, i), lastSuccess, 2 * groups[i].interval)
  {
    if rounds == [] {
    } else {
      var n := |rounds| - 1;
      AnsweredSpare(gpuId, groups, states, rounds[..n], i, lastSuccess);
      AllSpareOneMore(gpuId, groups, states, rounds, i, lastSuccess);
      RoundsKeepFields(gpuId, groups, states, rounds[..n]);
      var g, before := AfterRounds(gpuId, groups, states, rounds[..n]).0[i],
          PollTimes(gpuId, groups, states, rounds[..n], i);
      OneMoreWithin(before, rounds[n].now, lastSuccess, 2 * groups[i].interval);
      assert before + [] == before;
    }
  }

  lemma OneMoreWithin(times: seq<Time>, last: Time, from: Time, span: Duration)
    ensures AllWithin(times + [last], from, span) <==> AllWithin(times, from, span) && last - from <= span
  {
    var all := times + [last];
    assert forall k :: 0 <= k < |times| ==> all[k] == times[k];
    assert all[|times|] == last;
  }

  /**
   When every poll is answered, a field without a value stays available exactly until its group is
   polled more than two intervals after its last success.
   */
  lemma AvailableForTwoIntervals(gpuId: nat, groups: seq<Group>, states: FieldStates, rounds: seq<Round>, i: nat,
                                 f: FieldId)
    requires Quiet(gpuId, groups, rounds, i, f) && StatusOf(states, f).lastSuccess != ZERO_TIME
    requires forall k :: 0 <= k < |rounds| ==> rounds[k].replies(i).PollValues?
    ensures StatusOf(AfterRounds(gpuId, groups, states, rounds).1, f).available <==>
            && StatusOf(states, f).available
            && AllWithin(PollTimes(gpuId, groups, states, rounds, i), StatusOf(states, f).lastSuccess,
                         2 * groups[i].interval)
  {
    QuietFieldExpires(gpuId, groups, states, rounds, i, f);
    AnsweredSpare(gpuId, groups, states, rounds, i, StatusOf(states, f).lastSuccess);
  }

  // ----- What a read gives -----------------------------------------------------------------

  /** The group really fails in this read. */
  predicate Fails(g: Group, reply: PollReply, now: Time) { Due(g.lastPoll, g.interval, now) && reply.PollError? }

  /** The group gives a value of this GPU that can be decoded. */
  predicate Gives(g: Group, reply: PollReply, gpuId: nat, now: Time) {
    && Due(g.lastPoll, g.interval, now) && reply.PollValues?
    && exists v :: v in reply.values && v.entityId == gpuId && Decode(v).Some?
  }

  lemma {:induction false} FailuresAre(gpuId: nat, groups: seq<Group>, p: Progress, replies: nat -> PollReply,
                                       now: Time, kind: string)
    ensures kind in PollGroups(gpuId, groups, p, replies, now).1.failures <==>
            kind in p.failures || exists i :: 0 <= i < |groups| && groups[i].kind == kind
                                    && Fails(groups[i], replies(i), now)
    decreases |groups|
  {
    if groups == [] {
    } else {
      var n := |groups| - 1;
      FailuresAre(gpuId, groups[..n], p, replies, now, kind);
      assert forall i :: 0 <= i < n ==> groups[..n][i] == groups[i];
    }
  }

  /** A reading holds an observation exactly when it held it before or some value of the GPU decodes to it. */
  lemma {:induction false} AbsorbedFrom(r: Reading, gpuId: nat, values: seq<RawValue>, o: Observation)
    ensures o in AbsorbAll(r, gpuId, values).observations <==>
            o in r.observations || exists v :: v in values && v.entityId == gpuId && ObservationOf(v) == [o]
  {
    if values == [] {
    } else {
      var n := |values| - 1;
      AbsorbedFrom(r, gpuId, values[..n], o);
      LastBehind(values);
    }
  }

  /** An observation a group gives in a read. */
  predicate GivesObservation(g: Group, reply: PollReply, gpuId: nat, now: Time, o: Observation) {
    && Due(g.lastPoll, g.interval, now) && reply.PollValues?
    && exists v :: v in reply.values && v.entityId == gpuId && ObservationOf(v) == [o]
  }

  lemma PollGives(gpuId: nat, g: Group, p: Progress, reply: PollReply, now: Time, o: Observation)
    ensures o in PollGroup(gpuId, g, p, reply, now).progress.observations <==>
            o in p.observations || GivesObservation(g, reply, gpuId, now, o)
  {
    if Due(g.lastPoll, g.interval, now) && reply.PollValues? {
      AbsorbedFrom(Reading(p.states, p.slots, p.observations, {}), gpuId, StableSort(reply.values), o);
      forall v ensures v in StableSort(reply.values) <==> v in reply.values {
        SortKeepsMembers(reply.values, v);
      }
    }
  }

  /** The observations of a read are exactly those its groups give. */
  lemma {:induction false} ReadGives(gpuId: nat, groups: seq<Group>, p: Progress, replies: nat -> PollReply, now: Time,
                                     o: Observation)
    ensures o in PollGroups(gpuId, groups, p, replies, now).1.observations <==>
            o in p.observations || exists i :: 0 <= i < |groups|
                                     && GivesObservation(groups[i], replies(i), gpuId, now, o)
    decreases |groups|
  {
    if groups == [] {
    } else {
      var n := |groups| - 1;
      ReadGives(gpuId, groups[..n], p, replies, now, o);
      PollGives(gpuId, groups[n], PollGroups(gpuId, groups[..n], p, replies, now).1, replies(n), now, o);
      assert forall i :: 0 <= i < n ==> groups[..n][i] == groups[i];
    }
  }

  /** A read gives something exactly when one of its groups does. */
  lemma ReadGivesSomething(gpuId: nat, groups: seq<Group>, p: Progress, replies: nat -> PollReply, now: Time)
    requires p.observations == []
    ensures PollGroups(gpuId, groups, p, replies, now).1.observations != [] <==>
            exists i :: 0 <= i < |groups| && Gives(groups[i], replies(i), gpuId, now)
  {
    var read := PollGroups(gpuId, groups, p, replies, now).1.observations;
    if read != [] {
      ReadGives(gpuId, groups, p, replies, now, read[0]);
      var i :| 0 <= i < |groups| && GivesObservation(groups[i], replies(i), gpuId, now, read[0]);
      assert Gives(groups[i], replies(i), gpuId, now);
    }
    if i :| 0 <= i < |groups| && Gives(groups[i], replies(i), gpuId, now) {
      var v :| v in replies(i).values && v.entityId == gpuId && Decode(v).Some?;
      assert GivesObservation(groups[i], replies(i), gpuId, now, ObservationOf(v)[0]);
      ReadGives(gpuId, groups, p, replies, now, ObservationOf(v)[0]);
    }
  }

  // ----- Nothing is read twice -------------------------------------------------------------

  /** The engine gives values since the time it is asked for, and names a time behind all of them for the next poll. */
  ghost predicate Honours(g: Group, reply: PollReply) {
    reply.PollValues? ==>
      && reply.next != ZERO_TIME && g.since <= reply.next
      && forall v :: v in reply.values ==> g.since <= UnixMicro(v.ts) < reply.next
  }

  /** Replies to a read: each within the fields of its group, and since the time of that group. */
  ghost predicate HonestRead(gpuId: nat, groups: seq<Group>, replies: nat -> PollReply) {
    forall i :: 0 <= i < |groups| ==> Honours(groups[i], replies(i)) && ReplyWithin(replies(i), gpuId, groups[i].fields)
  }

  ghost predicate HonestRounds(gpuId: nat, groups: seq<Group>, states: FieldStates, rounds: seq<Round>) {
    rounds == [] ||
    (var n := |rounds| - 1;
     && HonestRounds(gpuId, groups, states, rounds[..n])
     && HonestRead(gpuId, AfterRounds(gpuId, groups, states, rounds[..n]).0, rounds[n].replies))
  }

  /** What a round reads. */
  function ObservedIn(gpuId: nat, watcher: (seq<Group>, FieldStates), round: Round): seq<Observation> {
    PollGroups(gpuId, watcher.0, Progress(watcher.1, round.slots, [], []), round.replies, round.now).1.observations
  }

  lemma GivenIsBehind(g: Group, reply: PollReply, gpuId: nat, now: Time, o: Observation)
    requires GivesObservation(g, reply, gpuId, now, o) && Honours(g, reply) && ReplyWithin(reply, gpuId, g.fields)
    ensures o.fieldId in g.fields && g.since <= o.timestamp < NextGroup(g, reply, now).since
  {
  }

  lemma {:induction false} SinceNeverGoesBack(gpuId: nat, groups: seq<Group>, states: FieldStates, rounds: seq<Round>,
                                              i: nat)
    requires i < |groups| && HonestRounds(gpuId, groups, states, rounds)
    ensures var after := AfterRounds(gpuId, groups, states, rounds).0[i];
            && groups[i].since <= after.since
            && after.fields == groups[i].fields
  {
    if rounds == [] {
    } else {
      SinceNeverGoesBack(gpuId, groups, states, rounds[..|rounds| - 1], i);
      RoundMovesGroup(gpuId, groups, states, rounds, i);
    }
  }

  lemma {:induction false} HonestPrefix(gpuId: nat, groups: seq<Group>, states: FieldStates, rounds: seq<Round>, k: nat)
    requires k < |rounds| && HonestRounds(gpuId, groups, states, rounds)
    ensures HonestRounds(gpuId, groups, states, rounds[..k])
    ensures HonestRead(gpuId, AfterRounds(gpuId, groups, states, rounds[..k]).0, rounds[k].replies)
  {
    var n := |rounds| - 1;
    if k < n {
      HonestPrefix(gpuId, groups, states, rounds[..n], k);
      assert rounds[..n][..k] == rounds[..k];
    }
  }

  /** What lies before the time a group is asked since is not read in any later round. */
  lemma BehindIsNotRead(gpuId: nat, groups: seq<Group>, states: FieldStates, rounds: seq<Round>, i: nat,
                        o: Observation, k: nat)
    requires i < |groups| && WatchedOnlyBy(groups, o.fieldId, i) && o.timestamp < groups[i].since
    requires HonestRounds(gpuId, groups, states, rounds) && k < |rounds|
    ensures o !in ObservedIn(gpuId, AfterRounds(gpuId, groups, states, rounds[..k]), rounds[k])
  {
    var (now, states') := AfterRounds(gpuId, groups, states, rounds[..k]);
    HonestPrefix(gpuId, groups, states, rounds, k);
    forall j | 0 <= j < |now| ensures !GivesObservation(now[j], rounds[k].replies(j), gpuId, rounds[k].now, o) {
      SinceNeverGoesBack(gpuId, groups, states, rounds[..k], j);
      if GivesObservation(now[j], rounds[k].replies(j), gpuId, rounds[k].now, o) {
        GivenIsBehind(now[j], rounds[k].replies(j), gpuId, rounds[k].now, o);
      }
    }
    ReadGives(gpuId, now, Progress(states', rounds[k].slots, [], []), rounds[k].replies, rounds[k].now, o);
  }

  lemma OneRound(gpuId: nat, groups: seq<Group>, states: FieldStates, first: Round)
    ensures var (next, p) := PollGroups(gpuId, groups, Progress(states, first.slots, [], []), first.replies, first.now);
            AfterRounds(gpuId, groups, states, [first]) == (next, p.states)
  {
    assert [first][..0] == [];
  }

  /** What a round reads lies before the time its group asks from afterwards. */
  lemma ReadIsBehind(gpuId: nat, groups: seq<Group>, states: FieldStates, first: Round, i: nat, o: Observation)
    requires i < |groups| && WatchedOnlyBy(groups, o.fieldId, i) && HonestRead(gpuId, groups, first.replies)
    requires o in ObservedIn(gpuId, (groups, states), first)
    ensures var next := PollGroups(gpuId, groups, Progress(states, first.slots, [], []), first.replies, first.now).0;
            WatchedOnlyBy(next, o.fieldId, i) && o.timestamp < next[i].since
  {
    var p := Progress(states, first.slots, [], []);
    var next := PollGroups(gpuId, groups, p, first.replies, first.now).0;
    ReadGives(gpuId, groups, p, first.replies, first.now, o);
    var j :| 0 <= j < |groups| && GivesObservation(groups[j], first.replies(j), gpuId, first.now, o);
    GivenIsBehind(groups[j], first.replies(j), gpuId, first.now, o);
    GroupsMoveAlone(gpuId, groups, p, first.replies, first.now);
    forall m | 0 <= m < |next| && o.fieldId in next[m].fields ensures m == i {
      assert next[m].fields == groups[m].fields;
    }
  }

  /**
   With an engine that gives values since the time it is asked for, what one round reads no later
   round reads again: an observation that was read and dropped is lost.
   */
  lemma NothingIsReadTwice(gpuId: nat, groups: seq<Group>, states: FieldStates, first: Round, later: seq<Round>,
                           i: nat, o: Observation, k: nat)
    requires i < |groups| && WatchedOnlyBy(groups, o.fieldId, i) && HonestRead(gpuId, groups, first.replies)
    requires o in ObservedIn(gpuId, (groups, states), first)
    requires var (next, states') := AfterRounds(gpuId, groups, states, [first]);
             HonestRounds(gpuId, next, states', later) && k < |later|
    ensures var (next, states') := AfterRounds(gpuId, groups, states, [first]);
            o !in ObservedIn(gpuId, AfterRounds(gpuId, next, states', later[..k]), later[k])
  {
    var (next, states') := AfterRounds(gpuId, groups, states, [first]);
    ReadIsBehind(gpuId, groups, states, first, i, o);
    OneRound(gpuId, groups, states, first);
    BehindIsNotRead(gpuId, next, states', later, i, o, k);
  }
}
