/**
 Which optional fields a watcher group ends up with (watchableOptionalFields, dcgm_client.go).

 DCGM accepts or rejects a whole field list, and says no more. `Bisect` is the source's search:
 try a batch at once, halve it when it is rejected. Its oracle also sees the number of the
 attempt, so an answer may change from one attempt to the next. `Greedy` is the plain scan the
 search stands for: one candidate at a time, left to right.
 */
module Negotiation {
  import opened FieldSets

  type Oracle = (nat, seq<FieldId>) -> bool
  type Acceptance = seq<FieldId> -> bool

  /** The chosen fields and the number of the next attempt. */
  datatype Outcome = Outcome(fields: seq<FieldId>, next: nat)

  function Bisect(oracle: Oracle, attempt: nat, fields: seq<FieldId>, batch: seq<FieldId>): Outcome
    decreases |batch|
  {
    if batch == [] then Outcome(fields, attempt)
    else
      var trial := Appended(fields, batch);
      if oracle(attempt, trial) then Outcome(trial, attempt + 1)
      else if |batch| == 1 then Outcome(fields, attempt + 1)
      else
        var middle := |batch| / 2;
        var left := Bisect(oracle, attempt + 1, fields, batch[..middle]);
        Bisect(oracle, left.next, left.fields, batch[middle..])
  }

  function Watchable(oracle: Oracle, attempt: nat, required: seq<FieldId>, candidates: seq<FieldId>): Outcome {
    Bisect(oracle, attempt, Appended([], required), candidates)
  }

  function Greedy(accepts: Acceptance, fields: seq<FieldId>, candidates: seq<FieldId>): seq<FieldId>
    decreases |candidates|
  {
    if candidates == [] then fields
    else
      var trial := Appended(fields, [candidates[0]]);
      Greedy(accepts, if accepts(trial) then trial else fields, candidates[1..])
  }

  /** An oracle that gives the same answer at every attempt. */
  function Always(accepts: Acceptance): Oracle { (attempt: nat, fields: seq<FieldId>) => accepts(fields) }

  /** Every non-empty prefix of an accepted duplicate-free list is accepted. */
  ghost predicate PrefixClosed(accepts: Acceptance) {
    forall fields: seq<FieldId>, n :: Distinct(fields) && accepts(fields) && 1 <= n <= |fields| ==> accepts(fields[..n])
  }

  /** Every non-empty sublist of an accepted list is accepted. */
  ghost predicate DownwardClosed(accepts: Acceptance) {
    forall small: seq<FieldId>, large: seq<FieldId> ::
      IsSubsequence(small, large) && accepts(large) && small != [] ==> accepts(small)
  }

  /** Acceptance that rejects exactly the lists with a bad field in them. */
  function AvoidsBad(bad: set<FieldId>): Acceptance { (fields: seq<FieldId>) => forall f :: f in fields ==> f !in bad }

  // ----- Soundness, for any oracle ---------------------------------------------------------

  /**
   Whatever DCGM answers: the result keeps `fields` in front, stays duplicate-free, draws only on
   `fields` and `batch`, and is either `fields` itself or a list that one of the attempts made
   here accepted.
   */
  lemma {:induction false} BisectIsSound(oracle: Oracle, attempt: nat, fields: seq<FieldId>, batch: seq<FieldId>)
    requires Distinct(fields)
    ensures var r := Bisect(oracle, attempt, fields, batch);
            && fields <= r.fields
            && Distinct(r.fields)
            && Elements(r.fields) <= Elements(fields) + Elements(batch)
            && attempt <= r.next
            && (r.fields == fields || exists k :: attempt <= k < r.next && oracle(k, r.fields))
    decreases |batch|
  {
    if batch != [] {
      AppendedBasics(fields, batch);
      var trial := Appended(fields, batch);
      if oracle(attempt, trial) {
        assert Bisect(oracle, attempt, fields, batch) == Outcome(trial, attempt + 1);
      } else if |batch| > 1 {
        var middle := |batch| / 2;
        var left := Bisect(oracle, attempt + 1, fields, batch[..middle]);
        BisectIsSound(oracle, attempt + 1, fields, batch[..middle]);
        BisectIsSound(oracle, left.next, left.fields, batch[middle..]);
        var right := Bisect(oracle, left.next, left.fields, batch[middle..]);
        assert Bisect(oracle, attempt, fields, batch) == right;
        assert batch == batch[..middle] + batch[middle..];
        assert Elements(right.fields) <= Elements(fields) + Elements(batch[..middle]) + Elements(batch[middle..]);
      }
    }
  }

  // ----- Bisection and the greedy scan ------------------------------------------------------

  lemma {:induction false} GreedyInParts(accepts: Acceptance, fields: seq<FieldId>, a: seq<FieldId>, b: seq<FieldId>)
    ensures Greedy(accepts, Greedy(accepts, fields, a), b) == Greedy(accepts, fields, a + b)
    decreases |a|
  {
    if a == [] {
      assert a + b == b;
    } else {
      assert (a + b)[1..] == a[1..] + b;
      var trial := Appended(fields, [a[0]]);
      GreedyInParts(accepts, if accepts(trial) then trial else fields, a[1..], b);
    }
  }

  lemma {:induction false} GreedyIsSound(accepts: Acceptance, fields: seq<FieldId>, candidates: seq<FieldId>)
    requires Distinct(fields)
    ensures fields <= Greedy(accepts, fields, candidates) && Distinct(Greedy(accepts, fields, candidates))
    ensures Greedy(accepts, fields, candidates) == fields || accepts(Greedy(accepts, fields, candidates))
    decreases |candidates|
  {
    if candidates == [] {
    } else {
      AppendedBasics(fields, [candidates[0]]);
      var trial := Appended(fields, [candidates[0]]);
      GreedyIsSound(accepts, if accepts(trial) then trial else fields, candidates[1..]);
    }
  }

  /** Starting from nothing, the scan keeps something exactly when some candidate is acceptable alone. */
  lemma {:induction false} GreedyKeepsSomething(accepts: Acceptance, candidates: seq<FieldId>)
    ensures Greedy(accepts, [], candidates) != [] <==> exists c :: c in candidates && accepts([c])
    decreases |candidates|
  {
    if candidates == [] {
    } else {
      var c, rest := candidates[0], candidates[1..];
      AppendedBasics([], [c]);
      AppendedOne([], c);
      assert candidates == [c] + rest;
      assert Appended([], [c]) == [c];
      if accepts([c]) {
        GreedyIsSound(accepts, [c], rest);
        assert Greedy(accepts, [], candidates) == Greedy(accepts, [c], rest);
        assert c in candidates;
      } else {
        GreedyKeepsSomething(accepts, rest);
      }
    }
  }

  /** When a whole batch is acceptable, the scan takes all of it. */
  lemma {:induction false} GreedyTakesAll(accepts: Acceptance, fields: seq<FieldId>, batch: seq<FieldId>)
    requires PrefixClosed(accepts) && Distinct(fields)
    requires batch == [] || accepts(Appended(fields, batch))
    ensures Greedy(accepts, fields, batch) == Appended(fields, batch)
    decreases |batch|
  {
    if batch == [] {
    } else {
      var trial := Appended(fields, [batch[0]]);
      assert batch == [batch[0]] + batch[1..];
      AppendedInParts(fields, [batch[0]], batch[1..]);
      AppendedBasics(fields, batch);
      AppendedBasics(fields, [batch[0]]);
      AppendedBasics(trial, batch[1..]);
      assert trial == Appended(fields, batch)[..|trial|];
      assert batch[0] in Elements(trial);
      GreedyTakesAll(accepts, trial, batch[1..]);
    }
  }

  /** The bisection returns the same sequence, order included, as the scan. */
  lemma {:induction false} BisectEqualsGreedy(accepts: Acceptance, attempt: nat, fields: seq<FieldId>,
                                              batch: seq<FieldId>)
    requires PrefixClosed(accepts) && Distinct(fields)
    ensures Bisect(Always(accepts), attempt, fields, batch).fields == Greedy(accepts, fields, batch)
    decreases |batch|
  {
    if batch == [] {
    } else {
      if accepts(Appended(fields, batch)) {
        GreedyTakesAll(accepts, fields, batch);
      } else if |batch| == 1 {
        assert [batch[0]] == batch;
      } else {
        var middle := |batch| / 2;
        var left := Bisect(Always(accepts), attempt + 1, fields, batch[..middle]);
        BisectEqualsGreedy(accepts, attempt + 1, fields, batch[..middle]);
        GreedyIsSound(accepts, fields, batch[..middle]);
        BisectEqualsGreedy(accepts, left.next, left.fields, batch[middle..]);
        GreedyInParts(accepts, fields, batch[..middle], batch[middle..]);
        assert batch == batch[..middle] + batch[middle..];
      }
    }
  }

  /** A scan that keeps every candidate has seen each prefix accepted. */
  lemma {:induction false} GreedyKeepingAll(accepts: Acceptance, fields: seq<FieldId>, more: seq<FieldId>, n: nat)
    requires Distinct(fields + more) && 1 <= n <= |more|
    requires Greedy(accepts, fields, more) == fields + more
    ensures accepts(fields + more[..n])
    decreases |more|
  {
    var all := fields + more;
    forall i | 0 <= i < |fields| ensures fields[i] != more[0] {
      assert all[i] != all[|fields|];
    }
    var trial := fields + [more[0]];
    assert Appended(fields, [more[0]]) == trial;
    assert all == trial + more[1..];
    GreedyLength(accepts, fields, more[1..]);
    if n == 1 {
      assert more[..1] == [more[0]];
    } else {
      GreedyKeepingAll(accepts, trial, more[1..], n - 1);
      assert trial + more[1..][..n - 1] == fields + more[..n];
    }
  }

  lemma {:induction false} GreedyLength(accepts: Acceptance, fields: seq<FieldId>, candidates: seq<FieldId>)
    ensures |Greedy(accepts, fields, candidates)| <= |fields| + |candidates|
    decreases |candidates|
  {
    if candidates == [] {
    } else {
      AppendedOne(fields, candidates[0]);
      var trial := Appended(fields, [candidates[0]]);
      GreedyLength(accepts, if accepts(trial) then trial else fields, candidates[1..]);
    }
  }

  lemma {:induction false} AppendedDistinctIsConcat(fields: seq<FieldId>, extra: seq<FieldId>)
    requires Distinct(fields + extra)
    ensures Appended(fields, extra) == fields + extra
    decreases |extra|
  {
    if extra == [] {
    } else {
      forall i | 0 <= i < |fields| ensures fields[i] != extra[0] {
        assert (fields + extra)[i] != (fields + extra)[|fields|];
      }
      assert fields + extra == (fields + [extra[0]]) + extra[1..];
      AppendedDistinctIsConcat(fields + [extra[0]], extra[1..]);
    }
  }

  /**
   Exactly when the fast search is the slow scan: the bisection agrees with the greedy scan on
   every required list and every candidate list if and only if acceptance is prefix-closed.
   */
  lemma BisectionIsGreedyExactly(accepts: Acceptance)
    ensures (forall required: seq<FieldId>, candidates: seq<FieldId> ::
               Watchable(Always(accepts), 0, required, candidates).fields
                   == Greedy(accepts, Appended([], required), candidates))
            <==> PrefixClosed(accepts)
  {
    if PrefixClosed(accepts) {
      forall required: seq<FieldId>, candidates: seq<FieldId>
        ensures Watchable(Always(accepts), 0, required, candidates).fields
            == Greedy(accepts, Appended([], required), candidates)
      {
        AppendedBasics([], required);
        BisectEqualsGreedy(accepts, 0, Appended([], required), candidates);
      }
    } else {
      var fields: seq<FieldId>, n :| Distinct(fields) && accepts(fields) && 1 <= n <= |fields| && !accepts(fields[..n]);
      var none: seq<FieldId> := [];
      assert none + fields == fields && none + fields[..n] == fields[..n];
      AppendedDistinctIsConcat(none, fields);
      assert Watchable(Always(accepts), 0, none, fields).fields == fields;
      if Greedy(accepts, Appended([], none), fields) == fields {
        GreedyKeepingAll(accepts, none, fields, n);
      }
    }
  }

  /** Acceptance of one list only. */
  function Only(all: seq<FieldId>): Acceptance { (fields: seq<FieldId>) => fields == all }

  lemma {:induction false} GreedyKeepsNothing(accepts: Acceptance, fields: seq<FieldId>, candidates: seq<FieldId>)
    requires forall c :: c in candidates ==> !accepts(Appended(fields, [c]))
    ensures Greedy(accepts, fields, candidates) == fields
    decreases |candidates|
  {
    if candidates == [] {
    } else {
      assert candidates[0] in candidates;
      GreedyKeepsNothing(accepts, fields, candidates[1..]);
    }
  }

  /** The search has all the fields after one attempt, the scan has the required ones only. */
  ghost predicate FindsMore(accepts: Acceptance, required: seq<FieldId>, candidates: seq<FieldId>) {
    && Watchable(Always(accepts), 0, required, candidates) == Outcome(required + candidates, 1)
    && Greedy(accepts, Appended([], required), candidates) == required
  }

  /** So it is with an engine that takes all the fields or none. */
  lemma SearchFindsWhatScanMisses(required: seq<FieldId>, candidates: seq<FieldId>)
    requires Distinct(required + candidates) && |candidates| >= 2
    ensures FindsMore(Only(required + candidates), required, candidates)
  {
    var all := required + candidates;
    assert forall i :: 0 <= i < |required| ==> required[i] == all[i];
    assert [] + required == required;
    AppendedDistinctIsConcat([], required);
    AppendedDistinctIsConcat(required, candidates);
    forall c | c in candidates ensures !Only(all)(Appended(required, [c])) {
      AppendedOne(required, c);
    }
    GreedyKeepsNothing(Only(all), required, candidates);
  }

  lemma DownwardClosedIsPrefixClosed(accepts: Acceptance)
    requires DownwardClosed(accepts)
    ensures PrefixClosed(accepts)
  {
    forall fields: seq<FieldId>, n | Distinct(fields) && accepts(fields) && 1 <= n <= |fields|
      ensures accepts(fields[..n])
    {
      SubsequenceRefl(fields[..n]);
      SubsequenceConcat(fields[..n], fields[..n], [], fields[n..]);
      assert fields == fields[..n] + fields[n..] && fields[..n] + [] == fields[..n];
    }
  }

  // ----- Maximality ------------------------------------------------------------------------

  lemma {:induction false} GreedyIsMaximal(accepts: Acceptance, fields: seq<FieldId>, candidates: seq<FieldId>,
                                           c: FieldId)
    requires DownwardClosed(accepts) && Distinct(fields)
    requires c in candidates && c !in Greedy(accepts, fields, candidates)
    ensures !accepts(Greedy(accepts, fields, candidates) + [c])
    decreases |candidates|
  {
    var trial := Appended(fields, [candidates[0]]);
    var next := if accepts(trial) then trial else fields;
    AppendedBasics(fields, [candidates[0]]);
    GreedyIsSound(accepts, next, candidates[1..]);
    if c == candidates[0] {
      var result := Greedy(accepts, fields, candidates);
      assert c in Elements(trial);
      assert next == fields && c !in fields && trial == fields + [c];
      SubsequenceRefl(fields);
      SubsequenceConcat(fields, fields, [], result[|fields|..]);
      assert fields + [] == fields && fields + result[|fields|..] == result;
      SubsequenceRefl([c]);
      SubsequenceConcat(fields, result, [c], [c]);
    } else {
      GreedyIsMaximal(accepts, next, candidates[1..], c);
    }
  }

  /** No omitted candidate could be added to the result and still be accepted. */
  lemma NothingOmittedCouldBeAdded(accepts: Acceptance, attempt: nat, required: seq<FieldId>, candidates: seq<FieldId>,
                                   c: FieldId)
    requires DownwardClosed(accepts)
    requires c in candidates && c !in Watchable(Always(accepts), attempt, required, candidates).fields
    ensures !accepts(Watchable(Always(accepts), attempt, required, candidates).fields + [c])
  {
    AppendedBasics([], required);
    DownwardClosedIsPrefixClosed(accepts);
    BisectEqualsGreedy(accepts, attempt, Appended([], required), candidates);
    GreedyIsMaximal(accepts, Appended([], required), candidates, c);
  }

  // ----- How many attempts -----------------------------------------------------------------

  /** For any oracle, n candidates cost between one and 2n - 1 attempts. */
  lemma {:induction false} AttemptsAreLinear(oracle: Oracle, attempt: nat, fields: seq<FieldId>, batch: seq<FieldId>)
    requires batch != []
    ensures 1 <= Bisect(oracle, attempt, fields, batch).next - attempt <= 2 * |batch| - 1
    decreases |batch|
  {
    if |batch| > 1 && !oracle(attempt, Appended(fields, batch)) {
      var middle := |batch| / 2;
      var left := Bisect(oracle, attempt + 1, fields, batch[..middle]);
      AttemptsAreLinear(oracle, attempt + 1, fields, batch[..middle]);
      AttemptsAreLinear(oracle, left.next, left.fields, batch[middle..]);
    }
  }

  /** The bound 2n - 1 is reached when everything is rejected. */
  lemma {:induction false} AttemptsReachTheBound(attempt: nat, fields: seq<FieldId>, batch: seq<FieldId>)
    requires batch != []
    ensures Bisect(Always(_ => false), attempt, fields, batch) == Outcome(fields, attempt + 2 * |batch| - 1)
    decreases |batch|
  {
    if |batch| > 1 {
      var middle := |batch| / 2;
      AttemptsReachTheBound(attempt + 1, fields, batch[..middle]);
      AttemptsReachTheBound(attempt + 2 * middle, fields, batch[middle..]);
    }
  }

  /** The least e with n <= 2^e. */
  function CeilLog2(n: nat): nat
    requires n >= 1
  {
    if n == 1 then 0 else 1 + CeilLog2((n + 1) / 2)
  }

  lemma {:induction false} CeilLog2Monotone(m: nat, n: nat)
    requires 1 <= m <= n
    ensures CeilLog2(m) <= CeilLog2(n)
    decreases n
  {
    if m > 1 { CeilLog2Monotone((m + 1) / 2, (n + 1) / 2); }
  }

  function CountBad(bad: set<FieldId>, batch: seq<FieldId>): nat {
    if batch == [] then 0 else (if batch[0] in bad then 1 else 0) + CountBad(bad, batch[1..])
  }

  lemma {:induction false} CountBadInParts(bad: set<FieldId>, a: seq<FieldId>, b: seq<FieldId>)
    ensures CountBad(bad, a + b) == CountBad(bad, a) + CountBad(bad, b)
  {
    if a == [] {
      assert a + b == b;
    } else {
      assert (a + b)[1..] == a[1..] + b;
      CountBadInParts(bad, a[1..], b);
    }
  }

  lemma {:induction false} NoneBad(bad: set<FieldId>, batch: seq<FieldId>)
    ensures CountBad(bad, batch) == 0 <==> forall f :: f in batch ==> f !in bad
  {
    if batch == [] {
    } else {
      NoneBad(bad, batch[1..]);
      assert batch == [batch[0]] + batch[1..];
    }
  }

  lemma TrialAvoidsBad(bad: set<FieldId>, fields: seq<FieldId>, batch: seq<FieldId>)
    requires forall f :: f in fields ==> f !in bad
    ensures AvoidsBad(bad)(Appended(fields, batch)) <==> CountBad(bad, batch) == 0
  {
    AppendedBasics(fields, batch);
    NoneBad(bad, batch);
    var trial := Appended(fields, batch);
    forall f ensures f in trial <==> f in fields || f in batch {
      assert f in trial <==> f in Elements(trial);
    }
  }

  /** 1 + 2k * ceil(log2 n). */
  function FewBadBound(k: nat, n: nat): nat
    requires n >= 1
  {
    1 + 2 * k * CeilLog2(n)
  }

  lemma HalvesCombine(k1: nat, k2: nat, m: nat, n: nat)
    requires 1 <= m <= n <= m + 1 && k1 + k2 >= 1
    ensures 1 + FewBadBound(k1, m) + FewBadBound(k2, n) <= FewBadBound(k1 + k2, m + n)
  {
    CeilLog2Monotone(m, n);
    assert (m + n + 1) / 2 == n;
    HalvesAdd(k1, k2, CeilLog2(m), CeilLog2(n));
  }

  lemma HalvesAdd(k1: nat, k2: nat, l1: nat, l2: nat)
    requires l1 <= l2 && k1 + k2 >= 1
    ensures 1 + (1 + 2 * k1 * l1) + (1 + 2 * k2 * l2) <= 1 + 2 * (k1 + k2) * (l2 + 1)
  {
    assert k1 * l1 <= k1 * l2;
    assert (k1 + k2) * (l2 + 1) == k1 * l2 + k2 * l2 + k1 + k2;
  }

  /**
   With k bad candidates among n the search makes at most 1 + 2k * ceil(log2 n) attempts, and ends
   with good fields only.
   */
  lemma {:induction false} AttemptsWithFewBadFields(bad: set<FieldId>, attempt: nat, fields: seq<FieldId>,
                                                    batch: seq<FieldId>)
    requires batch != [] && forall f :: f in fields ==> f !in bad
    ensures var r := Bisect(Always(AvoidsBad(bad)), attempt, fields, batch);
            && r.next - attempt <= FewBadBound(CountBad(bad, batch), |batch|)
            && forall f :: f in r.fields ==> f !in bad
    decreases |batch|
  {
    TrialAvoidsBad(bad, fields, batch);
    var oracle := Always(AvoidsBad(bad));
    if oracle(attempt, Appended(fields, batch)) {
    } else if |batch| > 1 {
      var middle := |batch| / 2;
      var first, second := batch[..middle], batch[middle..];
      var left := Bisect(oracle, attempt + 1, fields, first);
      var right := Bisect(oracle, left.next, left.fields, second);
      assert Bisect(oracle, attempt, fields, batch) == right;
      AttemptsWithFewBadFields(bad, attempt + 1, fields, first);
      AttemptsWithFewBadFields(bad, left.next, left.fields, second);
      assert CountBad(bad, batch) == CountBad(bad, first) + CountBad(bad, second) by {
        assert batch == first + second;
        CountBadInParts(bad, first, second);
      }
      HalvesCombine(CountBad(bad, first), CountBad(bad, second), |first|, |second|);
    }
  }
}
