/** Which plans the multi-threaded scan can return: every order of storing the entries occurs in
    some interleaving, so that the interleavings agree exactly when that order does not matter. */
module Schedules {
  import opened Order
  import opened Permutations
  import opened Plan
  import opened Builder
  import opened Referenced
  import opened Scan
  import opened SamePlans
  import opened VectorOrder
  import opened Concurrent

  lemma {:induction false} RunSnoc(entries: seq<Entry>, ends: seq<nat>, steps: seq<Step>, step: Step)
    requires Cuts(ends, |entries|)
    ensures Run(entries, ends, steps + [step]) == Apply(entries, ends, Run(entries, ends, steps), step)
  {
    assert (steps + [step])[..|steps|] == steps;
  }

  /** No task can fail. */
  ghost predicate Clean(entries: seq<Entry>)
  {
    forall i :: 0 <= i < |entries| ==> entries[i].sequence.Some? && !Faulty(entries, i)
  }

  lemma {:induction false} CollectedIsClean(entries: seq<Entry>, n: Notes, adds: seq<Addition>)
    requires Collected(entries, n, adds) && Numbered(entries)
    ensures Clean(entries)
  {
    forall i | 0 <= i < |entries| ensures !Faulty(entries, i) {
      if Faulty(entries, i) { FaultyFails(entries, i); }
    }
  }

  // ----- First all entries are submitted -----

  /** Tasks have been submitted, and nothing else has happened. */
  predicate Waiting(s: System)
  {
    && s.main == Manifests(0) && s.machine.noteLog == [] && s.machine.storeLog == []
    && forall i :: 0 <= i < |s.machine.stages| ==> s.machine.stages[i] == Unsubmitted || s.machine.stages[i] == AtNote
  }

  lemma {:induction false} SubmitWaits(entries: seq<Entry>, ends: seq<nat>, s: System, m: nat)
    requires Shaped(entries, ends, s) && Clean(entries) && Waiting(s) && m < |ends| && s.next[m] != ends[m]
    ensures Waiting(SubmitNext(entries, ends, s, m)) && SubmitNext(entries, ends, s, m) != s
  {
    assert !Raised(entries, ends, s, m);
    assert SubmitNext(entries, ends, s, m).next[m] == s.next[m] + 1;
  }

  lemma {:induction false} SubmitRest(entries: seq<Entry>, ends: seq<nat>, steps: seq<Step>) returns (more: seq<Step>)
    requires Cuts(ends, |entries|) && Clean(entries) && Waiting(Run(entries, ends, steps))
    ensures Waiting(Run(entries, ends, more)) && AllSubmitted(ends, Run(entries, ends, more))
    decreases Weight(Run(entries, ends, steps).machine.stages)
  {
    var s := Run(entries, ends, steps);
    if AllSubmitted(ends, s) {
      more := steps;
    } else {
      var m :| 0 <= m < |ends| && s.next[m] != ends[m];
      RunInv(entries, ends, steps);
      RunSnoc(entries, ends, steps, Submit(m));
      SubmitWaits(entries, ends, s, m);
      SubmitLightens(entries, ends, s, m);
      more := SubmitRest(entries, ends, steps + [Submit(m)]);
    }
  }

  lemma {:induction false} SubmittedStage(entries: seq<Entry>, ends: seq<nat>, s: System, i: nat)
    requires SystemInv(entries, ends, s) && AllSubmitted(ends, s) && i < |entries|
    ensures s.machine.stages[i] != Unsubmitted
  {
    var k := ManifestOf(ends, |entries|, |ends|, i);
  }

  // ----- Then they are noted and stored in the chosen order -----

  /** All tasks are submitted; those in `log` have run, in that order, and no other has begun. */
  predicate RunThrough(ends: seq<nat>, s: System, log: seq<int>)
    requires |s.next| == |ends|
  {
    && s.main == Manifests(0) && AllSubmitted(ends, s)
    && s.machine.noteLog == log && s.machine.storeLog == log
    && forall i :: 0 <= i < |s.machine.stages| ==> s.machine.stages[i] == if i in log then Finished(true) else AtNote
  }

  /** The two critical sections of a task that cannot fail. */
  lemma {:induction false} BothMoves(entries: seq<Entry>, m: Machine, i: nat)
    requires Inv(entries, m) && Clean(entries) && i < |entries| && m.stages[i] == AtNote
    ensures var r := Move(entries, Move(entries, m, i), i);
      && r.stages == m.stages[i := Finished(true)]
      && r.noteLog == m.noteLog + [i] && r.storeLog == m.storeLog + [i]
  {
    assert StageHolds(entries, m, i);
    if Note(m.notes, entries[i]).Err? { NoteFailure(entries, m, i); }
    assert Classify(entries[i]).Ok?;
    var half := Move(entries, m, i);
    assert half.stages == m.stages[i := AtStore];
    assert m.stages[i := AtStore][i := Finished(true)] == m.stages[i := Finished(true)];
  }

  lemma {:induction false} RunThroughOne(entries: seq<Entry>, ends: seq<nat>, s: System, log: seq<int>, i: nat)
    requires SystemInv(entries, ends, s) && Clean(entries) && RunThrough(ends, s, log) && i < |entries| && i !in log
    ensures RunThrough(ends, s.(machine := Move(entries, Move(entries, s.machine, i), i)), log + [i])
  {
    BothMoves(entries, s.machine, i);
    forall k ensures k in log + [i] <==> k in log || k == i { InConcat(log, [i], k); }
  }

  lemma {:induction false} WorkTwice(entries: seq<Entry>, ends: seq<nat>, steps: seq<Step>, log: seq<int>, i: nat)
    requires Cuts(ends, |entries|) && Clean(entries) && RunThrough(ends, Run(entries, ends, steps), log)
    requires i < |entries| && i !in log
    ensures RunThrough(ends, Run(entries, ends, steps + [Work(i)] + [Work(i)]), log + [i])
  {
    RunInv(entries, ends, steps);
    RunSnoc(entries, ends, steps, Work(i));
    RunSnoc(entries, ends, steps + [Work(i)], Work(i));
    RunThroughOne(entries, ends, Run(entries, ends, steps), log, i);
  }

  lemma {:induction false} PrefixNew(order: seq<int>, j: nat)
    requires j < |order| && forall a, b :: 0 <= a < b < |order| ==> order[a] != order[b]
    ensures order[j] !in order[..j] && order[..j+1] == order[..j] + [order[j]]
  {
  }

  lemma {:induction false} WorkInOrder(entries: seq<Entry>, ends: seq<nat>, order: seq<int>, j: nat)
      returns (steps: seq<Step>)
    requires Cuts(ends, |entries|) && Clean(entries) && Logged(entries, order) && j <= |order|
    ensures RunThrough(ends, Run(entries, ends, steps), order[..j])
  {
    if j == 0 {
      steps := SubmitRest(entries, ends, []);
      RunInv(entries, ends, steps);
      forall i | 0 <= i < |entries| ensures Run(entries, ends, steps).machine.stages[i] == AtNote {
        SubmittedStage(entries, ends, Run(entries, ends, steps), i);
      }
    } else {
      steps := WorkInOrder(entries, ends, order, j - 1);
      PrefixNew(order, j - 1);
      WorkTwice(entries, ends, steps, order[..j-1], order[j-1]);
      steps := steps + [Work(order[j-1])] + [Work(order[j-1])];
    }
  }

  // ----- And then the main thread collects -----

  lemma {:induction false} CollectRest(entries: seq<Entry>, ends: seq<nat>, steps: seq<Step>) returns (more: seq<Step>)
    requires Cuts(ends, |entries|) && AllSubmitted(ends, Run(entries, ends, steps))
    requires AllSucceeded(Run(entries, ends, steps).machine) && Run(entries, ends, steps).main != Failed
    ensures Run(entries, ends, more).main.Returned?
    ensures Run(entries, ends, more).machine == Run(entries, ends, steps).machine
    decreases MainWeight(entries, ends, Run(entries, ends, steps).main)
  {
    var s := Run(entries, ends, steps);
    if s.main.Returned? {
      more := steps;
    } else {
      RunInv(entries, ends, steps);
      MainBounded(entries, ends, s);
      RunSnoc(entries, ends, steps, Collect);
      CollectAdvances(entries, ends, s);
      CollectShortens(entries, ends, s);
      more := CollectRest(entries, ends, steps + [Collect]);
    }
  }

  lemma {:induction false} CollectAdvances(entries: seq<Entry>, ends: seq<nat>, s: System)
    requires Shaped(entries, ends, s) && AllSubmitted(ends, s) && AllSucceeded(s.machine)
    requires s.main.Manifests? || s.main.Statuses?
    ensures CollectNext(entries, ends, s) == s.(main := CollectNext(entries, ends, s).main)
    ensures CollectNext(entries, ends, s).main != s.main && CollectNext(entries, ends, s).main != Failed
  {
  }

  ghost predicate Complete(entries: seq<Entry>, order: seq<int>)
  {
    Logged(entries, order) && forall i :: 0 <= i < |entries| ==> i in order
  }

  /** Whatever the order, some interleaving stores the entries in it and returns. */
  lemma {:induction false} EveryOrderRuns(entries: seq<Entry>, ends: seq<nat>, n: Notes, adds: seq<Addition>,
        order: seq<int>) returns (steps: seq<Step>)
    requires Cuts(ends, |entries|) && Numbered(entries) && Collected(entries, n, adds) && Complete(entries, order)
    ensures Additions(Pick(entries, order)).Ok?
    ensures Run(entries, ends, steps).main == Returned(FinalPlan(n, Stored(Additions(Pick(entries, order)).value)))
  {
    CollectedIsClean(entries, n, adds);
    steps := WorkInOrder(entries, ends, order, |order|);
    assert order[..|order|] == order;
    steps := CollectRest(entries, ends, steps);
    RunInv(entries, ends, steps);
    CompleteLog(entries, order);
    NotesPermuted(entries, Pick(entries, order));
  }

  // ----- The interleavings agree exactly when the order does not matter -----

  /** Entry `j` stored after all others. */
  function LastOf(n: nat, j: nat): (r: seq<int>)
    requires j < n
  {
    Indices(n)[..j] + Indices(n)[j+1..] + [j]
  }

  lemma {:induction false} LastOfComplete(entries: seq<Entry>, j: nat)
    requires j < |entries|
    ensures Complete(entries, LastOf(|entries|, j))
  {
    var n, order := |entries|, LastOf(|entries|, j);
    assert |order| == n && forall t :: 0 <= t < n ==> order[t] == if t < j then t else if t < n - 1 then t + 1 else j;
    forall i | 0 <= i < n ensures i in order {
      assert order[if i < j then i else if i == j then n - 1 else i - 1] == i;
    }
  }

  lemma {:induction false} PickAt(entries: seq<Entry>, log: seq<int>, t: nat)
    requires forall i :: 0 <= i < |log| ==> 0 <= log[i] < |entries|
    requires t < |log|
    ensures |Pick(entries, log)| == |log| && Pick(entries, log)[t] == entries[log[t]]
  {
    var n := |log| - 1;
    if n > 0 { PickAt(entries, log[..n], if t < n then t else 0); }
  }

  lemma {:induction false} PickLast(entries: seq<Entry>, j: nat)
    requires j < |entries| && Logged(entries, LastOf(|entries|, j))
    ensures Pick(entries, LastOf(|entries|, j)) == (entries[..j] + entries[j+1..]) + [entries[j]]
  {
    var order := LastOf(|entries|, j);
    forall t | 0 <= t < |entries|
      ensures |Pick(entries, order)| == |order| && Pick(entries, order)[t] == entries[order[t]]
    {
      PickAt(entries, order, t);
    }
  }

  lemma {:induction false} AdditionsPostponed(entries: seq<Entry>, adds: seq<Addition>, j: nat) returns (i: nat)
    requires Additions(entries) == Ok(adds) && j < |entries| && Classify(entries[j]).Ok?
    requires Classify(entries[j]).value.Some?
    ensures i < |adds| && adds[i] == Classify(entries[j]).value.value
    ensures Additions((entries[..j] + entries[j+1..]) + [entries[j]]) == Ok(Postponed(adds, i))
  {
    var left, e, right := entries[..j], entries[j], entries[j+1..];
    var before, a, after := FlatMap(left, AddsOf()), Classify(e).value.value, FlatMap(right, AddsOf());
    i := |before|;
    AdditionsExactly(entries);
    AdditionsExactly((left + right) + [e]);
    assert entries == (left + [e]) + right;
    FlatMapConcat(left + [e], right, AddsOf());
    FlatMapSnoc(left, e, AddsOf());
    FlatMapConcat(left, right, AddsOf());
    FlatMapSnoc(left + right, e, AddsOf());
    assert adds == (before + [a]) + after;
    SplitAround(before, a, after);
    MembersMoved(left, e, right);
  }

  lemma {:induction false} SplitAround(before: seq<Addition>, a: Addition, after: seq<Addition>)
    ensures Postponed((before + [a]) + after, |before|) == (before + after) + [a]
  {
    var adds := (before + [a]) + after;
    assert adds[..|before|] == before && adds[|before|+1..] == after && adds[|before|] == a;
  }

  lemma {:induction false} MembersMoved<T>(left: seq<T>, x: T, right: seq<T>)
    ensures forall y :: y in (left + right) + [x] <==> y in (left + [x]) + right
  {
    forall y ensures y in (left + right) + [x] <==> y in (left + [x]) + right {
      InConcat(left + right, [x], y);
      InConcat(left, right, y);
      InConcat(left + [x], right, y);
      InConcat(left, [x], y);
    }
  }

  /** Every interleaving that returns gives the sequential result. */
  ghost predicate AlwaysAgree(entries: seq<Entry>, ends: seq<nat>)
    requires Cuts(ends, |entries|)
  {
    forall steps :: Run(entries, ends, steps).main.Returned? ==>
                      SameOutcome(Run(entries, ends, steps).main.plan, SequentialScan(entries))
  }

  /** A contested vector is stored last in some interleaving, whose plan is another. */
  lemma {:induction false} SomeDisagree(entries: seq<Entry>, ends: seq<nat>, n: Notes, adds: seq<Addition>)
    requires Cuts(ends, |entries|) && Numbered(entries) && Collected(entries, n, adds)
    requires FinalPlan(n, Stored(adds)).Ok? && !Uncontested(adds)
    ensures !AlwaysAgree(entries, ends)
  {
    var k, s, d, v, dv, dv' :| Contested(adds, k, s, d, v, dv, dv');
    var i0 := LoserExists(adds, k, s, d, v, dv, dv');
    AdditionSource(entries, adds[i0]);
    var e :| e in entries && Classify(e) == Ok(Some(adds[i0]));
    var j :| 0 <= j < |entries| && entries[j] == e;
    var i := AdditionsPostponed(entries, adds, j);
    PostponedDiffers(n, adds, i, k, s, d);
    LastOfComplete(entries, j);
    PickLast(entries, j);
    var steps := EveryOrderRuns(entries, ends, n, adds, LastOf(|entries|, j));
    ScanIsFinalPlan(entries, n, adds);
    if SameOutcome(Run(entries, ends, steps).main.plan, SequentialScan(entries)) {
      SameOutcomeSymmetric(Run(entries, ends, steps).main.plan, SequentialScan(entries));
    }
  }

  /** The interleavings all agree with the sequential scan exactly when no two vectors are both newest
      for a data file, or that scan fails. */
  lemma {:induction false} InterleavingsAgreeExactly(entries: seq<Entry>, ends: seq<nat>)
    requires Cuts(ends, |entries|)
    ensures AlwaysAgree(entries, ends) <==>
      SequentialScan(entries).Err? || (Additions(entries).Ok? && Uncontested(Additions(entries).value))
  {
    FeedExactly(entries);
    var settled := SequentialScan(entries).Err? || (Additions(entries).Ok? && Uncontested(Additions(entries).value));
    forall steps | Run(entries, ends, steps).main.Returned? && settled
      ensures SameOutcome(Run(entries, ends, steps).main.plan, SequentialScan(entries))
    {
      if SequentialScan(entries).Err? {
        InterleavingsFailAlike(entries, ends, steps);
      } else {
        InterleavingsAgree(entries, ends, steps);
      }
    }
    if SequentialScan(entries).Ok? && !Uncontested(Additions(entries).value) {
      SomeDisagree(entries, ends, NoteAll(entries).value, Additions(entries).value);
    }
  }
}
