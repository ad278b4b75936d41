/**
 What a hardware counter adds up to (observeHardwareCounter, exporter.go).

 The exporter keeps the previous raw value of a counter and adds the difference to its own total,
 or the whole raw value when there is no previous one or the raw value went down.
 */
module Counters {
  import opened FieldSets
  import opened Identity

  function Delta(previous: Option<real>, value: real): real {
    if previous.Some? && value >= previous.value then value - previous.value else value
  }

  /** A counter after one raw value: negative values are ignored. */
  function Remembered(previous: Option<real>, value: real): Option<real> {
    if value < 0.0 then previous else Some(value)
  }

  function Added(previous: Option<real>, value: real): real {
    if value < 0.0 then 0.0 else Delta(previous, value)
  }

  function Total(previous: Option<real>, raw: seq<real>): real
    decreases |raw|
  {
    if raw == [] then 0.0
    else Added(previous, raw[0]) + Total(Remembered(previous, raw[0]), raw[1..])
  }

  function Last(previous: Option<real>, raw: seq<real>): Option<real>
    decreases |raw|
  {
    if raw == [] then previous else Last(Remembered(previous, raw[0]), raw[1..])
  }

  ghost predicate NonNegative(raw: seq<real>) { forall i :: 0 <= i < |raw| ==> raw[i] >= 0.0 }

  /** The sum of the raw values immediately before each drop. */
  function BeforeDrops(raw: seq<real>): real {
    if |raw| < 2 then 0.0
    else (if raw[1] < raw[0] then raw[0] else 0.0) + BeforeDrops(raw[1..])
  }

  ghost predicate Rising(raw: seq<real>) { forall i :: 0 < i < |raw| ==> raw[i - 1] <= raw[i] }

  lemma {:induction false} TotalAfterValue(first: real, raw: seq<real>)
    requires first >= 0.0 && NonNegative(raw)
    ensures Total(Some(first), raw) == ([first] + raw)[|raw|] - first + BeforeDrops([first] + raw)
    ensures Last(Some(first), raw) == Some(([first] + raw)[|raw|])
    decreases |raw|
  {
    if raw == [] {
    } else {
      assert ([first] + raw)[1..] == raw && raw == [raw[0]] + raw[1..];
      TotalAfterValue(raw[0], raw[1..]);
    }
  }

  /** The exported total is the last raw value plus the raw values that stood before each drop. */
  lemma {:induction false} TotalClosedForm(raw: seq<real>)
    requires raw != [] && NonNegative(raw)
    ensures Total(None, raw) == raw[|raw| - 1] + BeforeDrops(raw)
    ensures Last(None, raw) == Some(raw[|raw| - 1])
  {
    assert raw == [raw[0]] + raw[1..];
    TotalAfterValue(raw[0], raw[1..]);
  }

  lemma {:induction false} BeforeDropsCountsDrops(raw: seq<real>)
    requires NonNegative(raw)
    ensures BeforeDrops(raw) >= 0.0 && (BeforeDrops(raw) == 0.0 <==> Rising(raw))
  {
    if |raw| >= 2 {
      BeforeDropsCountsDrops(raw[1..]);
      if Rising(raw[1..]) && raw[0] <= raw[1] {
        forall i | 0 < i < |raw| ensures raw[i - 1] <= raw[i] {
          if i > 1 { assert raw[1..][i - 2] <= raw[1..][i - 1]; }
        }
      }
      if Rising(raw) {
        forall i | 0 < i < |raw[1..]| ensures raw[1..][i - 1] <= raw[1..][i] {
          assert raw[i] <= raw[i + 1];
        }
      }
    }
  }

  /** The total is never below the last raw value, and equal to it exactly when the counter never dropped. */
  lemma {:induction false} TotalAgainstLast(raw: seq<real>)
    requires raw != [] && NonNegative(raw)
    ensures Total(None, raw) >= raw[|raw| - 1]
    ensures Total(None, raw) == raw[|raw| - 1] <==> Rising(raw)
  {
    TotalClosedForm(raw);
    BeforeDropsCountsDrops(raw);
  }

  /** More readings continue the total where the first ones left it. */
  lemma {:induction false} TotalInParts(previous: Option<real>, a: seq<real>, b: seq<real>)
    ensures Total(previous, a + b) == Total(previous, a) + Total(Last(previous, a), b)
    ensures Last(previous, a + b) == Last(Last(previous, a), b)
    decreases |a|
  {
    if a == [] {
      assert a + b == b;
    } else {
      assert (a + b)[1..] == a[1..] + b;
      TotalInParts(Remembered(previous, a[0]), a[1..], b);
    }
  }

  lemma {:induction false} TotalNonNegative(previous: Option<real>, raw: seq<real>)
    ensures Total(previous, raw) >= 0.0
    decreases |raw|
  {
    if raw == [] {
    } else {
      TotalNonNegative(Remembered(previous, raw[0]), raw[1..]);
    }
  }

  /** The total only grows, whatever the readings. */
  lemma {:induction false} TotalMonotone(previous: Option<real>, raw: seq<real>, more: seq<real>)
    ensures Total(previous, raw) <= Total(previous, raw + more)
  {
    TotalInParts(previous, raw, more);
    TotalNonNegative(Last(previous, raw), more);
  }

  /** Looking at the counter once more on the way never lowers what is added. */
  lemma {:induction false} DetourNeverLess(previous: Option<real>, via: real, raw: seq<real>)
    requires via >= 0.0 && (previous.Some? ==> previous.value >= 0.0)
    ensures Total(previous, raw) <= Added(previous, via) + Total(Some(via), raw)
    decreases |raw|
  {
    if raw != [] && raw[0] < 0.0 {
      DetourNeverLess(previous, via, raw[1..]);
    } else if raw != [] {
      assert Total(previous, raw) == Delta(previous, raw[0]) + Total(Some(raw[0]), raw[1..]);
      assert Total(Some(via), raw) == Delta(Some(via), raw[0]) + Total(Some(raw[0]), raw[1..]);
    }
  }

  /** Missing samples never over-count: any subsequence of the readings totals at most what all of them do. */
  lemma {:induction false} MissingSamplesNeverOvercount(previous: Option<real>, seen: seq<real>, all: seq<real>)
    requires IsSubsequence(seen, all)
    requires previous.Some? ==> previous.value >= 0.0
    ensures Total(previous, seen) <= Total(previous, all)
    decreases |all|
  {
    if seen == [] {
      TotalNonNegative(previous, all);
    } else {
      var next := Remembered(previous, all[0]);
      if seen[0] == all[0] && IsSubsequence(seen[1..], all[1..]) {
        MissingSamplesNeverOvercount(next, seen[1..], all[1..]);
      } else {
        MissingSamplesNeverOvercount(next, seen, all[1..]);
        if all[0] >= 0.0 { DetourNeverLess(previous, all[0], seen); }
      }
    }
  }

  /** The readings that count. */
  function Readings(raw: seq<real>): (readings: seq<real>)
    ensures NonNegative(readings)
  {
    if raw == [] then [] else (if raw[0] < 0.0 then [] else [raw[0]]) + Readings(raw[1..])
  }

  lemma {:induction false} NegativesAreIgnored(previous: Option<real>, raw: seq<real>)
    ensures Total(previous, raw) == Total(previous, Readings(raw))
    ensures Last(previous, raw) == Last(previous, Readings(raw))
    decreases |raw|
  {
    if raw == [] {
    } else {
      NegativesAreIgnored(Remembered(previous, raw[0]), raw[1..]);
      if raw[0] < 0.0 {
        assert Readings(raw) == Readings(raw[1..]);
      } else {
        assert Readings(raw) == [raw[0]] + Readings(raw[1..]) && Readings(raw)[1..] == Readings(raw[1..]);
      }
    }
  }

  /** Total and stored value of any raw values, in closed form. */
  lemma {:induction false} ReadingsClosedForm(raw: seq<real>)
    ensures var readings := Readings(raw);
            if readings == [] then Last(None, raw) == None
            else var last := readings[|readings| - 1];
                 && Last(None, raw) == Some(last) && Total(None, raw) == last + BeforeDrops(readings) >= last
                 && (Total(None, raw) == last <==> Rising(readings))
  {
    NegativesAreIgnored(None, raw);
    if Readings(raw) == [] {
    } else {
      TotalClosedForm(Readings(raw));
      TotalAgainstLast(Readings(raw));
    }
  }
}
