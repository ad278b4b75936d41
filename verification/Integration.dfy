/**
 Time integration of one field (observationInterval and the counters fed by it, exporter.go),
 stated without any stored state: a gap between two consecutive observations counts when it is
 positive, not too long and not cut by a reset.
 */
module Integration {
  import opened Clock
  import opened Identity
  import opened Aggregation

  /** What happens to a field of a GPU: an observation, or the loss of its stored timestamp. */
  datatype Event = At(time: Time, value: real) | Cut

  /** The timestamp the exporter holds after these events. */
  function LastTime(events: seq<Event>): Option<Time> {
    if events == [] || events[|events| - 1].Cut? then None else Some(events[|events| - 1].time)
  }

  /** observationInterval's answer, from the stored timestamp. */
  function IntervalAfter(previous: Option<Time>, now: Time, maxGap: Duration): Duration {
    if previous.None? || now <= previous.value || now - previous.value > maxGap then 0 else now - previous.value
  }

  /** The gap before event i, when it counts. */
  function Gap(events: seq<Event>, i: nat, maxGap: Duration): Duration
    requires i < |events|
  {
    if i > 0 && events[i - 1].At? && events[i].At? && 0 < events[i].time - events[i - 1].time <= maxGap
    then events[i].time - events[i - 1].time
    else 0
  }

  /** The integral of a weight of the observed values over the counted gaps, in seconds. */
  function Integral(events: seq<Event>, weight: real -> real, maxGap: Duration): real {
    if events == [] then 0.0
    else
      var n := |events| - 1;
      Integral(events[..n], weight, maxGap) +
      (if events[n].At? then weight(events[n].value) * Seconds(Gap(events, n, maxGap)) else 0.0)
  }

  const ONE: real -> real := _ => 1.0
  const VALUE: real -> real := v => v

  function FractionOf(a: Aggregate): real -> real { v => Fraction(a, v) }

  function ActiveAbove(threshold: real): real -> real { v => if v > threshold then 1.0 else 0.0 }

  lemma IntegralOfCut(events: seq<Event>, weight: real -> real, maxGap: Duration)
    ensures Integral(events + [Cut], weight, maxGap) == Integral(events, weight, maxGap)
  {
    assert (events + [Cut])[..|events|] == events;
  }

  /** The gap before a new observation is the interval since the stored timestamp. */
  lemma IntegralOfObservation(events: seq<Event>, time: Time, value: real, weight: real -> real, maxGap: Duration)
    ensures Integral(events + [At(time, value)], weight, maxGap) ==
            Integral(events, weight, maxGap) + weight(value) * Seconds(IntervalAfter(LastTime(events), time, maxGap))
  {
    assert (events + [At(time, value)])[..|events|] == events;
  }

  /** The counted gaps are nanoseconds; in sum. */
  function ObservedTime(events: seq<Event>, maxGap: Duration): (d: Duration)
    ensures d >= 0
  {
    if events == [] then 0 else ObservedTime(events[..|events| - 1], maxGap) + Gap(events, |events| - 1, maxGap)
  }

  lemma {:induction false} IntegralOfOneIsObservedTime(events: seq<Event>, maxGap: Duration)
    ensures Integral(events, ONE, maxGap) == Seconds(ObservedTime(events, maxGap))
  {
    if events == [] {
    } else {
      IntegralOfOneIsObservedTime(events[..|events| - 1], maxGap);
    }
  }

  /** Observation times never go back, resets or not. */
  ghost predicate Forward(events: seq<Event>) {
    forall i, j :: 0 <= i < j < |events| && events[i].At? && events[j].At? ==> events[i].time <= events[j].time
  }

  ghost predicate ObservedBetween(events: seq<Event>, first: Time, last: Time) {
    forall i :: 0 <= i < |events| && events[i].At? ==> first <= events[i].time <= last
  }

  /** Observed time never exceeds the time between the first and the last observation. */
  lemma {:induction false} ObservedTimeTelescopes(events: seq<Event>, first: Time, last: Time, maxGap: Duration)
    requires Forward(events) && ObservedBetween(events, first, last) && first <= last
    ensures ObservedTime(events, maxGap) <= last - first
  {
    if events == [] {
    } else {
      var n := |events| - 1;
      var before := events[..n];
      if Gap(events, n, maxGap) > 0 {
        ObservedTimeTelescopes(before, first, events[n - 1].time, maxGap);
      } else {
        ObservedTimeTelescopes(before, first, last, maxGap);
      }
    }
  }

  // ----- Observed time against elapsed time ------------------------------------------------

  /** The time of the last observation, resets or not. */
  function LastSeen(events: seq<Event>): Option<Time> {
    if events == [] then None
    else if events[|events| - 1].At? then Some(events[|events| - 1].time)
    else LastSeen(events[..|events| - 1])
  }

  function FirstSeen(events: seq<Event>): Option<Time> {
    if events == [] then None
    else
      var first := FirstSeen(events[..|events| - 1]);
      if first.Some? || events[|events| - 1].Cut? then first else Some(events[|events| - 1].time)
  }

  /** From the first observation to the last; it may be negative. */
  function Elapsed(events: seq<Event>): Duration {
    if FirstSeen(events).None? || LastSeen(events).None? then 0 else LastSeen(events).value - FirstSeen(events).value
  }

  /** From the observation before event n to event n, across resets. */
  function StepTo(events: seq<Event>, n: nat): Duration
    requires n < |events|
  {
    if events[n].Cut? || LastSeen(events[..n]).None? then 0 else events[n].time - LastSeen(events[..n]).value
  }

  /** How far the observations go back, in all. */
  function Returns(events: seq<Event>): (d: Duration)
    ensures d >= 0
  {
    if events == [] then 0
    else
      var n := |events| - 1;
      Returns(events[..n]) + (if StepTo(events, n) < 0 then -StepTo(events, n) else 0)
  }

  /** The steps forward that do not count: cut by a reset, or too long. */
  function Lost(events: seq<Event>, maxGap: Duration): (d: Duration)
    ensures d >= 0
  {
    if events == [] then 0
    else
      var n := |events| - 1;
      Lost(events[..n], maxGap) + (if StepTo(events, n) > 0 && (events[n - 1].Cut? || StepTo(events, n) > maxGap)
          then StepTo(events, n) else 0)
  }

  lemma {:induction false} BothSeen(events: seq<Event>)
    ensures FirstSeen(events).Some? <==> LastSeen(events).Some?
  {
    if events == [] {
    } else {
      BothSeen(events[..|events| - 1]);
    }
  }

  /** A step forward is counted or lost. */
  lemma StepForward(events: seq<Event>, maxGap: Duration)
    requires events != []
    ensures var n := |events| - 1;
            Gap(events, n, maxGap) + (if StepTo(events, n) > 0 && (events[n - 1].Cut? || StepTo(events, n) > maxGap)
                then StepTo(events, n) else 0)
            == if StepTo(events, n) > 0 then StepTo(events, n) else 0
  {
    var n := |events| - 1;
    if n > 0 && events[n - 1].At? {
      assert events[..n][n - 1] == events[n - 1];
    }
  }

  lemma ElapsedStep(events: seq<Event>)
    requires events != []
    ensures Elapsed(events) == Elapsed(events[..|events| - 1]) + StepTo(events, |events| - 1)
  {
    BothSeen(events[..|events| - 1]);
  }

  /** Whatever the resets, pauses and returns: observed and lost time is elapsed time and every step back. */
  lemma {:induction false} ObservedAndLostIsElapsedAndReturns(events: seq<Event>, maxGap: Duration)
    ensures ObservedTime(events, maxGap) + Lost(events, maxGap) == Elapsed(events) + Returns(events)
  {
    if events == [] {
    } else {
      ObservedAndLostIsElapsedAndReturns(events[..|events| - 1], maxGap);
      StepForward(events, maxGap);
      ElapsedStep(events);
    }
  }

  /** Elapsed time bounds observed time exactly when the steps back are made up for by steps that did not count. */
  lemma ElapsedBoundExactly(events: seq<Event>, maxGap: Duration)
    ensures ObservedTime(events, maxGap) <= Elapsed(events) <==> Returns(events) <= Lost(events, maxGap)
  {
    ObservedAndLostIsElapsedAndReturns(events, maxGap);
  }

  /** Nothing goes back exactly when every observation is at least as late as the one before it. */
  lemma {:induction false} ReturnsMeanBackward(events: seq<Event>)
    ensures Returns(events) == 0 <==> Forward(events)
  {
    if events == [] {
    } else {
      var n := |events| - 1;
      ReturnsMeanBackward(events[..n]);
      if Forward(events[..n]) && StepTo(events, n) >= 0 {
        LastIsLatest(events[..n]);
      }
      if Forward(events) {
        LastIsSeen(events[..n]);
      }
    }
  }

  lemma {:induction false} LastIsSeen(events: seq<Event>)
    ensures LastSeen(events).Some? ==> exists i :: 0 <= i < |events| && events[i].At?
                                         && events[i].time == LastSeen(events).value
    ensures LastSeen(events).None? ==> forall i :: 0 <= i < |events| ==> events[i].Cut?
  {
    if events != [] && events[|events| - 1].Cut? {
      LastIsSeen(events[..|events| - 1]);
    }
  }

  lemma LastIsLatest(events: seq<Event>)
    requires Forward(events)
    ensures forall i :: 0 <= i < |events| && events[i].At? ==>
              LastSeen(events).Some? && events[i].time <= LastSeen(events).value
  {
    LastIsSeen(events);
    if LastSeen(events).Some? {
      LatestAtEnd(events);
    }
  }

  lemma {:induction false} LatestAtEnd(events: seq<Event>)
    requires Forward(events) && LastSeen(events).Some?
    ensures forall i :: 0 <= i < |events| && events[i].At? ==> events[i].time <= LastSeen(events).value
  {
    if events[|events| - 1].Cut? {
      LatestAtEnd(events[..|events| - 1]);
    }
  }

  /** What event n adds to an integral. */
  function Term(events: seq<Event>, n: nat, weight: real -> real, maxGap: Duration): real
    requires n < |events|
  {
    if events[n].At? then weight(events[n].value) * Seconds(Gap(events, n, maxGap)) else 0.0
  }

  ghost predicate Bounded(low: real, value: real, high: real, per: real) { low * per <= value <= high * per }

  /** Observation i contributes to the integrals: the gap before it counts. */
  predicate Contributes(events: seq<Event>, i: nat, maxGap: Duration)
    requires i < |events|
  {
    Gap(events, i, maxGap) > 0
  }

  /** Whenever an observation contributes, its weight is between low and high. */
  ghost predicate ContributesBetween(events: seq<Event>, weight: real -> real, low: real, high: real, maxGap: Duration)
  {
    forall i :: 0 <= i < |events| && Contributes(events, i, maxGap) ==> low <= weight(events[i].value) <= high
  }

  lemma ContributesBefore(events: seq<Event>, weight: real -> real, low: real, high: real, maxGap: Duration)
    requires events != [] && ContributesBetween(events, weight, low, high, maxGap)
    ensures ContributesBetween(events[..|events| - 1], weight, low, high, maxGap)
  {
    forall i | 0 <= i < |events| - 1 && Contributes(events[..|events| - 1], i, maxGap)
      ensures low <= weight(events[i].value) <= high
    {
      assert Contributes(events, i, maxGap);
    }
  }

  /**
   When the weights of the contributing observations are between low and high, the integral is
   between low and high times the observed time; the other observations may have any value.
   */
  lemma {:induction false} IntegralBetween(events: seq<Event>, weight: real -> real, low: real, high: real,
                                           maxGap: Duration)
    requires ContributesBetween(events, weight, low, high, maxGap)
    ensures Bounded(low, Integral(events, weight, maxGap), high, Integral(events, ONE, maxGap))
  {
    if events == [] {
    } else {
      var n := |events| - 1;
      ContributesBefore(events, weight, low, high, maxGap);
      IntegralBetween(events[..n], weight, low, high, maxGap);
      TermBetween(events, n, weight, low, high, maxGap);
      BoundedSum(low, high, Integral(events[..n], ONE, maxGap), Integral(events[..n], weight, maxGap),
                 Term(events, n, ONE, maxGap), Term(events, n, weight, maxGap));
    }
  }

  lemma TermBetween(events: seq<Event>, n: nat, weight: real -> real, low: real, high: real, maxGap: Duration)
    requires n < |events| && (Contributes(events, n, maxGap) ==> low <= weight(events[n].value) <= high)
    ensures Bounded(low, Term(events, n, weight, maxGap), high, Term(events, n, ONE, maxGap))
  {
    if Contributes(events, n, maxGap) {
      ScaleBetween(low, weight(events[n].value), high, Seconds(Gap(events, n, maxGap)));
    }
  }

  lemma ScaleBetween(low: real, w: real, high: real, s: real)
    requires low <= w <= high && s >= 0.0
    ensures low * s <= w * s <= high * s
  {
  }

  lemma BoundedSum(low: real, high: real, a: real, b: real, c: real, d: real)
    requires Bounded(low, b, high, a) && Bounded(low, d, high, c)
    ensures Bounded(low, b + d, high, a + c)
  {
  }
}
