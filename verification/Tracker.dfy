/**
 Window statistics and activity detection (tracker.go).
 */
module Tracker {
  import opened Clock
  import opened Aggregation

  // ----- Windows ---------------------------------------------------------------------------

  datatype WindowKey = WindowKey(gpuIndex: string, metric: Aggregate)

  datatype WindowStats = WindowStats(max: real, sum: real, count: nat) {
    function Avg(): real { if count == 0 then 0.0 else sum / count as real }

    function Record(value: real): WindowStats {
      WindowStats(if count == 0 || value > max then value else max, sum + value, count + 1)
    }
  }

  type Windows = map<WindowKey, WindowStats>

  datatype WindowObservation = WindowObservation(key: WindowKey, value: real)

  function Recorded(windows: Windows, o: WindowObservation): Windows {
    windows[o.key := (if o.key in windows then windows[o.key] else WindowStats(0.0, 0.0, 0)).Record(o.value)]
  }

  /** The map a window holds after the observations of `segment`. */
  function WindowOf(segment: seq<WindowObservation>): Windows {
    if segment == [] then map[]
    else Recorded(WindowOf(segment[..|segment| - 1]), segment[|segment| - 1])
  }

  class WindowAggregator {
    var windows: Windows
    /** The observations of each finished window, and those of the open one. */
    ghost var finished: seq<seq<WindowObservation>>
    ghost var open: seq<WindowObservation>

    ghost predicate Valid()
      reads this
    {
      windows == WindowOf(open)
    }

    constructor ()
      ensures Valid() && windows == map[] && finished == [] && open == []
    {
      windows := map[];
      finished, open := [], [];
    }

    method Observe(gpuIndex: string, metric: Aggregate, value: real)
      requires Valid()
      modifies this
      ensures Valid()
      ensures windows == Recorded(old(windows), WindowObservation(WindowKey(gpuIndex, metric), value))
      ensures open == old(open) + [WindowObservation(WindowKey(gpuIndex, metric), value)] && finished == old(finished)
    {
      var key := WindowKey(gpuIndex, metric);
      var stats := if key in windows then windows[key] else WindowStats(0.0, 0.0, 0);
      if stats.count == 0 || value > stats.max {
        stats := stats.(max := value);
      }
      stats := stats.(sum := stats.sum + value);
      stats := stats.(count := stats.count + 1);
      windows := windows[key := stats];
      open := open + [WindowObservation(key, value)];
    }

    method Snapshot() returns (snapshot: Windows)
      requires Valid()
      modifies this
      ensures Valid()
      ensures snapshot == old(windows) == WindowOf(old(open)) && windows == map[]
      ensures open == [] && finished == old(finished) + [old(open)]
    {
      snapshot := windows;
      windows := map[];
      finished, open := finished + [open], [];
    }
  }

  /** The values observed for one key, in order. */
  function ValuesFor(segment: seq<WindowObservation>, key: WindowKey): seq<real> {
    if segment == [] then []
    else ValuesFor(segment[..|segment| - 1], key) +
         (if segment[|segment| - 1].key == key then [segment[|segment| - 1].value] else [])
  }

  function Sum(values: seq<real>): real {
    if values == [] then 0.0 else Sum(values[..|values| - 1]) + values[|values| - 1]
  }

  ghost predicate Within(values: seq<real>, low: real, high: real) {
    forall i :: 0 <= i < |values| ==> low <= values[i] <= high
  }

  ghost predicate IsMaximum(max: real, values: seq<real>) {
    max in values && forall i :: 0 <= i < |values| ==> values[i] <= max
  }

  lemma SumAppend(values: seq<real>, value: real)
    ensures Sum(values + [value]) == Sum(values) + value
  {
    assert (values + [value])[..|values|] == values;
  }

  /**
   A window has an entry for a key exactly when the key was observed, holding count, sum and maximum
   of its values.
   */
  lemma {:induction false} WindowMeaning(segment: seq<WindowObservation>, key: WindowKey)
    ensures key in WindowOf(segment) <==> ValuesFor(segment, key) != []
    ensures key in WindowOf(segment) ==>
              var stats, values := WindowOf(segment)[key], ValuesFor(segment, key);
              stats.count == |values| && stats.sum == Sum(values) && IsMaximum(stats.max, values)
  {
    if segment == [] {
    } else {
      var before, o := segment[..|segment| - 1], segment[|segment| - 1];
      WindowMeaning(before, key);
      if o.key == key {
        var values := ValuesFor(before, key);
        assert ValuesFor(segment, key) == values + [o.value];
        SumAppend(values, o.value);
        assert (values + [o.value])[|values|] == o.value;
      } else {
        assert ValuesFor(segment, key) == ValuesFor(before, key);
      }
    }
  }

  lemma {:induction false} SumBetween(values: seq<real>, low: real, high: real)
    requires Within(values, low, high)
    ensures low * |values| as real <= Sum(values) <= high * |values| as real
  {
    if values == [] {
    } else {
      SumBetween(values[..|values| - 1], low, high);
      assert low * |values| as real == low * (|values| - 1) as real + low;
      assert high * |values| as real == high * (|values| - 1) as real + high;
    }
  }

  lemma QuotientBetween(sum: real, n: real, low: real, high: real)
    requires n > 0.0 && low * n <= sum <= high * n
    ensures low <= sum / n <= high
  {
    assert sum / n - low == (sum - low * n) / n;
    assert high - sum / n == (high * n - sum) / n;
  }

  lemma AvgBetween(stats: WindowStats, values: seq<real>, low: real, high: real)
    requires values != [] && stats.count == |values| && stats.sum == Sum(values) && Within(values, low, high)
    ensures low <= stats.Avg() <= high
  {
    SumBetween(values, low, high);
    QuotientBetween(stats.sum, stats.count as real, low, high);
  }

  /** Bounds on a key's values are bounds on its maximum and its average; so min <= Avg <= Max. */
  lemma WindowWithinBounds(segment: seq<WindowObservation>, key: WindowKey, low: real, high: real)
    requires key in WindowOf(segment) && Within(ValuesFor(segment, key), low, high)
    ensures low <= WindowOf(segment)[key].Avg() <= WindowOf(segment)[key].max <= high
  {
    WindowMeaning(segment, key);
    var values := ValuesFor(segment, key);
    AvgBetween(WindowOf(segment)[key], values, low, WindowOf(segment)[key].max);
  }

  // Any interleaving of observations and snapshots.

  datatype WindowOp = Observe(o: WindowObservation) | TakeSnapshot

  datatype WindowRun = WindowRun(windows: Windows, snapshots: seq<Windows>)

  function RunWindows(ops: seq<WindowOp>): WindowRun {
    if ops == [] then WindowRun(map[], [])
    else
      var before := RunWindows(ops[..|ops| - 1]);
      match ops[|ops| - 1]
      case Observe(o) => before.(windows := Recorded(before.windows, o))
      case TakeSnapshot => WindowRun(map[], before.snapshots + [before.windows])
  }

  function Observed(ops: seq<WindowOp>): seq<WindowObservation> {
    if ops == [] then []
    else Observed(ops[..|ops| - 1]) + (if ops[|ops| - 1].Observe? then [ops[|ops| - 1].o] else [])
  }

  function Flatten<T>(parts: seq<seq<T>>): seq<T> {
    if parts == [] then [] else Flatten(parts[..|parts| - 1]) + parts[|parts| - 1]
  }

  lemma FlattenAppend<T>(parts: seq<seq<T>>, part: seq<T>)
    ensures Flatten(parts + [part]) == Flatten(parts) + part
  {
    assert (parts + [part])[..|parts|] == parts;
  }

  /**
   The windows partition the stream: it is cut into one segment for each snapshot and the open
   one, nothing lost, repeated or moved, and each snapshot is the statistics of its own segment.
   */
  lemma {:induction false} WindowsPartitionTheStream(ops: seq<WindowOp>)
    returns (segments: seq<seq<WindowObservation>>, open: seq<WindowObservation>)
    ensures Flatten(segments) + open == Observed(ops)
    ensures |RunWindows(ops).snapshots| == |segments|
    ensures forall i :: 0 <= i < |segments| ==> RunWindows(ops).snapshots[i] == WindowOf(segments[i])
    ensures RunWindows(ops).windows == WindowOf(open)
    ensures ops != [] && ops[|ops| - 1].TakeSnapshot? ==> open == [] && RunWindows(ops).windows == map[]
  {
    if ops == [] {
      return [], [];
    }
    segments, open := WindowsPartitionTheStream(ops[..|ops| - 1]);
    match ops[|ops| - 1]
    case Observe(o) =>
      assert (open + [o])[..|open|] == open;
      open := open + [o];
    case TakeSnapshot =>
      FlattenAppend(segments, open);
      segments, open := segments + [open], [];
  }

  function CountIn(windows: Windows, key: WindowKey): nat { if key in windows then windows[key].count else 0 }

  function CountInAll(snapshots: seq<Windows>, key: WindowKey): nat {
    if snapshots == [] then 0
    else CountInAll(snapshots[..|snapshots| - 1], key) + CountIn(snapshots[|snapshots| - 1], key)
  }

  /** The counts of a key over all snapshots and the open window add up to its observations. */
  lemma {:induction false} CountsAddUp(ops: seq<WindowOp>, key: WindowKey)
    ensures CountInAll(RunWindows(ops).snapshots, key) + CountIn(RunWindows(ops).windows, key)
            == |ValuesFor(Observed(ops), key)|
  {
    if ops == [] {
    } else {
      var before := RunWindows(ops[..|ops| - 1]);
      CountsAddUp(ops[..|ops| - 1], key);
      match ops[|ops| - 1]
      case Observe(o) =>
        var all := Observed(ops);
        assert all[..|all| - 1] == Observed(ops[..|ops| - 1]);
      case TakeSnapshot =>
        assert (before.snapshots + [before.windows])[..|before.snapshots|] == before.snapshots;
        assert Observed(ops) == Observed(ops[..|ops| - 1]);
    }
  }

  // ----- Activity --------------------------------------------------------------------------

  datatype GpuActivity = GpuActivity(active: bool, activeFrom: Time)

  const INACTIVE := GpuActivity(false, ZERO_TIME)

  datatype UtilReading = UtilReading(util: real, at: Time)

  datatype ActivityRule = ActivityRule(activeThreshold: real, minRequestTime: Duration) {
    predicate Above(r: UtilReading) { r.util > activeThreshold }

    function Next(state: GpuActivity, r: UtilReading): GpuActivity {
      if Above(r) then (if state.active then state else GpuActivity(true, r.at))
      else state.(active := false)
    }

    predicate EndsRequest(state: GpuActivity, r: UtilReading) {
      !Above(r) && state.active && r.at - state.activeFrom >= minRequestTime
    }

    /** The stored state of a GPU after these readings. */
    function After(history: seq<UtilReading>): GpuActivity {
      if history == [] then INACTIVE
      else Next(After(history[..|history| - 1]), history[|history| - 1])
    }

    /** Observe's answer at reading i. */
    predicate RequestAt(history: seq<UtilReading>, i: nat)
      requires i < |history|
    {
      EndsRequest(After(history[..i]), history[i])
    }

    function Requests(history: seq<UtilReading>): nat {
      if history == [] then 0
      else Requests(history[..|history| - 1]) + (if RequestAt(history, |history| - 1) then 1 else 0)
    }

    /** Readings start..end are above the threshold and cannot be extended to the left. */
    ghost predicate MaximalRun(history: seq<UtilReading>, start: nat, end: nat)
      requires end <= |history|
    {
      && start < end
      && (forall k :: start <= k < end ==> Above(history[k]))
      && (start == 0 || !Above(history[start - 1]))
    }

    lemma {:induction false} StateMeaning(history: seq<UtilReading>, n: nat)
      requires n <= |history|
      ensures After(history[..n]).active <==> n > 0 && Above(history[n - 1])
      ensures After(history[..n]).active ==>
                exists start: nat :: MaximalRun(history, start, n)
                    && After(history[..n]).activeFrom == history[start].at
    {
      if n > 0 {
        StateMeaning(history, n - 1);
        assert history[..n][..n - 1] == history[..n - 1];
        var before := After(history[..n - 1]);
        if Above(history[n - 1]) {
          if before.active {
            var start: nat :| MaximalRun(history, start, n - 1) && before.activeFrom == history[start].at;
            assert MaximalRun(history, start, n);
          } else {
            assert MaximalRun(history, n - 1, n);
          }
        }
      }
    }

    lemma MaximalRunUnique(history: seq<UtilReading>, s: nat, t: nat, end: nat)
      requires end <= |history| && MaximalRun(history, s, end) && MaximalRun(history, t, end)
      ensures s == t
    {
    }

    /**
     Observe answers true at a reading exactly when the reading is not above the threshold and ends
     a maximal run of readings above it whose first one is at least minRequestTime earlier.
     */
    lemma RequestMeansLongRun(history: seq<UtilReading>, i: nat)
      requires i < |history|
      ensures RequestAt(history, i) <==>
              && !Above(history[i])
              && exists start: nat :: MaximalRun(history, start, i)
                  && history[i].at - history[start].at >= minRequestTime
    {
      StateMeaning(history, i);
      if !Above(history[i]) && exists start: nat :: MaximalRun(history, start, i)
                                 && history[i].at - history[start].at >= minRequestTime {
        var start: nat :| MaximalRun(history, start, i) && history[i].at - history[start].at >= minRequestTime;
        assert Above(history[i - 1]);
        var from: nat :| MaximalRun(history, from, i) && After(history[..i]).activeFrom == history[from].at;
        MaximalRunUnique(history, start, from, i);
      }
    }

    ghost predicate Ordered(history: seq<UtilReading>) {
      forall i, j :: 0 <= i < j < |history| ==> history[i].at <= history[j].at
    }

    /** The number of readings before the first one that is not above the threshold. */
    function FirstIdle(readings: seq<UtilReading>): (j: nat)
      ensures j <= |readings|
      ensures forall k :: 0 <= k < j ==> Above(readings[k])
      ensures j < |readings| ==> !Above(readings[j])
    {
      if readings == [] then 0
      else
        var n := |readings| - 1;
        var before := FirstIdle(readings[..n]);
        if before < n || !Above(readings[n]) then before else n + 1
    }

    lemma OneMoreReading(history: seq<UtilReading>, r: UtilReading)
      ensures After(history + [r]) == Next(After(history), r)
      ensures Requests(history + [r]) == Requests(history) + if EndsRequest(After(history), r) then 1 else 0
    {
      assert (history + [r])[..|history|] == history;
    }

    /** The reading before this one and all of them before, and the last. */
    lemma OwnInParts(before: seq<UtilReading>, own: seq<UtilReading>)
      requires own != []
      ensures var n := |own| - 1;
              own == own[..n] + [own[n]] && before + own == (before + own[..n]) + [own[n]]
    {
    }

    // ----- Readings that follow on earlier ones --------------------------------------------

    /** The first reading of `own` that is not above the threshold ends a request that began at `from`. */
    predicate EndsFrom(own: seq<UtilReading>, from: Time) {
      FirstIdle(own) < |own| && own[FirstIdle(own)].at - from >= minRequestTime
    }

    /**
     What readings `own` make of the state depends on earlier ones only up to the first reading that
     is not above the threshold.
     */
    lemma {:induction false} StateFollowsOn(before: seq<UtilReading>, own: seq<UtilReading>)
      ensures var born, state, alone := After(before), After(before + own), After(own);
              if born.active && FirstIdle(own) == |own| then
                state == born && alone == if own == [] then INACTIVE else GpuActivity(true, own[0].at)
              else
                state.active == alone.active && (state.active ==> state.activeFrom == alone.activeFrom)
    {
      if own == [] {
        assert before + own == before;
      } else {
        var n := |own| - 1;
        StateFollowsOn(before, own[..n]);
        OwnInParts(before, own);
        OneMoreReading(before + own[..n], own[n]);
        OneMoreReading(own[..n], own[n]);
      }
    }

    /**
     Readings that follow on earlier ones end the requests they end alone, but for the first of them:
     with an active state before, it is counted from the start of that state, not from the first of
     these readings.
     */
    lemma {:induction false} RequestsFollowOn(before: seq<UtilReading>, own: seq<UtilReading>)
      ensures var born := After(before);
              Requests(before + own) == Requests(before) + Requests(own)
                + (if born.active && EndsFrom(own, born.activeFrom) then 1 else 0)
                - (if born.active && FirstIdle(own) > 0 && EndsFrom(own, own[0].at) then 1 else 0)
    {
      if own == [] {
        assert before + own == before;
      } else {
        var n := |own| - 1;
        RequestsFollowOn(before, own[..n]);
        StateFollowsOn(before, own[..n]);
        OwnInParts(before, own);
        OneMoreReading(before + own[..n], own[n]);
        OneMoreReading(own[..n], own[n]);
      }
    }

    // ----- Requests take time --------------------------------------------------------------

    /** Where the requests of readings that follow on earlier ones can have begun at the earliest. */
    function Start(born: GpuActivity, own: seq<UtilReading>): Time
      requires own != []
    {
      if born.active then born.activeFrom else own[0].at
    }

    /** So many requests fit between two times. */
    ghost predicate Fit(counted: int, first: Time, last: Time) { counted * minRequestTime <= last - first }

    /** So many requests have taken the time from `first` to where the state leaves it open. */
    ghost predicate Taken(counted: int, state: GpuActivity, first: Time, last: Time) {
      var settled := if state.active then state.activeFrom else last;
      settled <= last && Fit(counted, first, settled)
    }

    lemma OneMoreTaken(counted: int, state: GpuActivity, first: Time, last: Time, r: UtilReading)
      requires Taken(counted, state, first, last) && last <= r.at
      ensures Taken(counted + if EndsRequest(state, r) then 1 else 0, Next(state, r), first, r.at)
    {
      assert (counted + 1) * minRequestTime == counted * minRequestTime + minRequestTime;
    }

    lemma TakenFits(counted: int, state: GpuActivity, first: Time, last: Time)
      requires Taken(counted, state, first, last)
      ensures Fit(counted, first, last)
    {
    }

    lemma {:induction false} RequestsTakeTime(before: seq<UtilReading>, own: seq<UtilReading>)
      requires own != [] && Ordered(own) && Start(After(before), own) <= own[0].at
      ensures Taken(Requests(before + own) - Requests(before), After(before + own), Start(After(before), own),
                    own[|own| - 1].at)
    {
      var n, first := |own| - 1, Start(After(before), own);
      OwnInParts(before, own);
      OneMoreReading(before + own[..n], own[n]);
      if n == 0 {
        assert before + own[..0] == before;
        OneMoreTaken(0, After(before), first, if After(before).active then own[0].at else first, own[0]);
      } else {
        RequestsTakeTime(before, own[..n]);
        OneMoreTaken(Requests(before + own[..n]) - Requests(before), After(before + own[..n]), first, own[n - 1].at,
                     own[n]);
      }
    }

    /** With times that do not go back, requests cannot take more than the time there was. */
    lemma RequestsFitInTime(before: seq<UtilReading>, own: seq<UtilReading>)
      requires own != [] && Ordered(own) && Start(After(before), own) <= own[0].at
      ensures Fit(Requests(before + own) - Requests(before), Start(After(before), own), own[|own| - 1].at)
    {
      RequestsTakeTime(before, own);
      TakenFits(Requests(before + own) - Requests(before), After(before + own), Start(After(before), own),
                own[|own| - 1].at);
    }
  }

  class ActivityTracker {
    const rule: ActivityRule
    var states: map<string, GpuActivity>
    ghost var history: map<string, seq<UtilReading>>

    ghost predicate Valid()
      reads this
    {
      states.Keys == history.Keys && forall gpu :: gpu in states ==> states[gpu] == rule.After(history[gpu])
    }

    ghost function HistoryOf(gpu: string): seq<UtilReading>
      reads this
    {
      if gpu in history then history[gpu] else []
    }

    constructor (activeThreshold: real, minRequestTime: Duration)
      ensures Valid() && rule == ActivityRule(activeThreshold, minRequestTime) && states == map[] && history == map[]
    {
      rule := ActivityRule(activeThreshold, minRequestTime);
      states, history := map[], map[];
    }

    method Observe(gpuIndex: string, util: real, now: Time) returns (request: bool)
      requires Valid()
      modifies this
      ensures Valid()
      ensures history == old(history)[gpuIndex := old(HistoryOf(gpuIndex)) + [UtilReading(util, now)]]
      ensures request == rule.RequestAt(HistoryOf(gpuIndex), |HistoryOf(gpuIndex)| - 1)
      ensures var state := if gpuIndex in old(states) then old(states)[gpuIndex] else INACTIVE;
              && states == old(states)[gpuIndex := rule.Next(state, UtilReading(util, now))]
              && request == rule.EndsRequest(state, UtilReading(util, now))
    {
      ghost var before := HistoryOf(gpuIndex);
      ghost var after := before + [UtilReading(util, now)];
      assert after[..|after| - 1] == before;
      history := history[gpuIndex := after];

      var state := if gpuIndex in states then states[gpuIndex] else INACTIVE;
      var isActive := util > rule.activeThreshold;
      if isActive && !state.active {
        state := GpuActivity(true, now);
      } else if !isActive && state.active {
        var wasRequest := now - state.activeFrom >= rule.minRequestTime;
        state := state.(active := false);
        states := states[gpuIndex := state];
        return wasRequest;
      }
      states := states[gpuIndex := state];
      return false;
    }
  }
}
