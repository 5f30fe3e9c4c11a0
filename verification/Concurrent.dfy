/** The multi-threaded planner (`ScanMetadataBuilderMT`, `ReferencedDataFileAwareScanPlannerMT`,
    `GetScanMetadataMultiThreaded`).  One task per manifest submits one task per entry; an entry
    task makes one step under the planner's mutex and one under the builder's; the main thread takes
    the futures of the manifests and then the statuses of the entries, in order, and returns at the
    first error or with the plan.  In every interleaving the result is that of the sequential scan,
    up to the order of files inside layers, unless two vectors are both newest for a data file. */
module Concurrent {
  import opened Order
  import opened Permutations
  import opened Plan
  import opened Builder
  import opened Referenced
  import opened Scan
  import opened SamePlans
  import opened SameRegroup
  import opened VectorOrder

  /** Where the task of an entry stands. */
  datatype Stage = Unsubmitted | AtNote | AtStore | Finished(ok: bool)

  /** The shared planner state, the stage of each entry's task, and the order in which the tasks
      passed the two mutexes. */
  datatype Machine = Machine(notes: Notes, st: State, stages: seq<Stage>, noteLog: seq<int>, storeLog: seq<int>)

  /** One critical section of the task of entry `i`. */
  function Move(entries: seq<Entry>, m: Machine, i: nat): (r: Machine)
    requires |m.stages| == |entries| && i < |entries|
    ensures |r.stages| == |entries|
  {
    match m.stages[i]
    case AtNote =>
      (match Note(m.notes, entries[i])
       case Err(_) => m.(stages := m.stages[i := Finished(false)])
       case Ok(n) => m.(notes := n, stages := m.stages[i := AtStore], noteLog := m.noteLog + [i]))
    case AtStore =>
      if Classify(entries[i]).Err? then m.(stages := m.stages[i := Finished(false)])
      else
        m.(st := StoreEntry(m.st, entries[i]), stages := m.stages[i := Finished(true)], storeLog := m.storeLog + [i])
    case _ => m
  }

  /** What the main thread waits for: the future of manifest `m`, the status of entry `j`, or
      nothing any more. */
  datatype Main = Manifests(m: nat) | Statuses(j: nat) | Failed | Returned(plan: Result<seq<Partition<Path>>>)

  /** `next[m]` is the first entry that the task of manifest `m` has not submitted. */
  datatype System = System(machine: Machine, next: seq<nat>, main: Main)

  /** Manifest `m` holds the entries from `First(ends, m)` up to `ends[m]`. */
  function First(ends: seq<nat>, m: nat): nat
    requires m <= |ends|
  {
    if m == 0 then 0 else ends[m-1]
  }

  /** The manifests cut the entries into consecutive pieces. */
  predicate Cuts(ends: seq<nat>, n: nat)
  {
    && (forall m :: 0 <= m < |ends| ==> First(ends, m) <= ends[m] <= n)
    && First(ends, |ends|) == n
  }

  function Start(entries: seq<Entry>, ends: seq<nat>): System
  {
    System(Machine(NoNotes(), NothingStored(), seq(|entries|, _ => Unsubmitted), [], []),
           seq(|ends|, m requires 0 <= m < |ends| => First(ends, m)), Manifests(0))
  }

  datatype Step = Submit(m: nat) | Work(i: nat) | Collect

  predicate Shaped(entries: seq<Entry>, ends: seq<nat>, s: System)
  {
    && Cuts(ends, |entries|) && |s.machine.stages| == |entries| && |s.next| == |ends|
    && forall m :: 0 <= m < |ends| ==> First(ends, m) <= s.next[m] <= ends[m]
  }

  /** The manifest's task has come to an entry without sequence number and raised. */
  predicate Raised(entries: seq<Entry>, ends: seq<nat>, s: System, m: nat)
    requires Shaped(entries, ends, s) && m < |ends|
  {
    s.next[m] < ends[m] && entries[s.next[m]].sequence.None?
  }

  function SubmitNext(entries: seq<Entry>, ends: seq<nat>, s: System, m: nat): System
    requires Shaped(entries, ends, s) && m < |ends|
  {
    if s.next[m] == ends[m] || Raised(entries, ends, s, m) then s
    else s.(machine := s.machine.(stages := s.machine.stages[s.next[m] := AtNote]), next := s.next[m := s.next[m] + 1])
  }

  /** The main thread goes on if what it waits for is there. */
  function CollectNext(entries: seq<Entry>, ends: seq<nat>, s: System): System
    requires Shaped(entries, ends, s)
  {
    match s.main
    case Manifests(m) =>
      if m >= |ends| then s.(main := Statuses(0))
      else if s.next[m] == ends[m] then s.(main := Manifests(m + 1))
      else if Raised(entries, ends, s, m) then s.(main := Failed)
      else s
    case Statuses(j) =>
      if j >= |entries| then s.(main := Returned(FinalPlan(s.machine.notes, s.machine.st)))
      else if s.machine.stages[j] == Finished(true) then s.(main := Statuses(j + 1))
      else if s.machine.stages[j] == Finished(false) then s.(main := Failed)
      else s
    case _ => s
  }

  /** One step of the system; a step that is not possible changes nothing. */
  function Apply(entries: seq<Entry>, ends: seq<nat>, s: System, step: Step): (r: System)
    requires Shaped(entries, ends, s)
    ensures Shaped(entries, ends, r)
  {
    match step
    case Submit(m) => if m < |ends| then SubmitNext(entries, ends, s, m) else s
    case Work(i) => if i < |entries| then s.(machine := Move(entries, s.machine, i)) else s
    case Collect => CollectNext(entries, ends, s)
  }

  /** The state after the given steps. */
  function Run(entries: seq<Entry>, ends: seq<nat>, steps: seq<Step>): (s: System)
    requires Cuts(ends, |entries|)
    ensures Shaped(entries, ends, s)
  {
    if steps == [] then Start(entries, ends)
    else Apply(entries, ends, Run(entries, ends, steps[..|steps|-1]), steps[|steps|-1])
  }

  predicate AllSucceeded(m: Machine)
  {
    forall i :: 0 <= i < |m.stages| ==> m.stages[i] == Finished(true)
  }

  // ----- What the tasks keep -----

  function Pick(entries: seq<Entry>, log: seq<int>): seq<Entry>
    requires forall i :: 0 <= i < |log| ==> 0 <= log[i] < |entries|
  {
    if log == [] then [] else Pick(entries, log[..|log|-1]) + [entries[log[|log|-1]]]
  }

  /** Why a task may have failed. */
  ghost predicate Faulty(entries: seq<Entry>, i: nat)
    requires i < |entries|
  {
    Classify(entries[i]).Err? || (Annotated(entries[i]) && Repeated(entries, i))
  }

  ghost predicate Repeated(entries: seq<Entry>, i: nat)
    requires i < |entries|
  {
    exists j :: 0 <= j < |entries| && j != i && Annotated(entries[j]) && entries[j].path == entries[i].path
  }

  predicate Logged(entries: seq<Entry>, log: seq<int>)
  {
    && (forall i :: 0 <= i < |log| ==> 0 <= log[i] < |entries|)
    && (forall i, j :: 0 <= i < j < |log| ==> log[i] != log[j])
  }

  /** Notes and state are those of the logged entries in the order of the logs. */
  ghost predicate LogsHold(entries: seq<Entry>, m: Machine)
  {
    && Logged(entries, m.noteLog) && Logged(entries, m.storeLog)
    && NoteAll(Pick(entries, m.noteLog)) == Ok(m.notes)
    && Additions(Pick(entries, m.storeLog)).Ok?
    && m.st == Stored(Additions(Pick(entries, m.storeLog)).value)
  }

  /** The logs hold the entries whose stage says so, and failures have a reason. */
  ghost predicate StageHolds(entries: seq<Entry>, m: Machine, i: nat)
    requires |m.stages| == |entries| && i < |entries|
  {
    && (i in m.noteLog ==> m.stages[i] != AtNote && m.stages[i] != Unsubmitted)
    && (m.stages[i] == AtStore || m.stages[i] == Finished(true) ==> i in m.noteLog)
    && (i in m.storeLog <==> m.stages[i] == Finished(true))
    && (m.stages[i] == Finished(false) ==> Faulty(entries, i))
    && (m.stages[i] != Unsubmitted ==> entries[i].sequence.Some?)
  }

  ghost predicate Inv(entries: seq<Entry>, m: Machine)
  {
    && |m.stages| == |entries| && LogsHold(entries, m)
    && forall i :: 0 <= i < |entries| ==> StageHolds(entries, m, i)
  }

  lemma {:induction false} PickSnoc(entries: seq<Entry>, log: seq<int>, i: nat)
    requires i < |entries| && forall k :: 0 <= k < |log| ==> 0 <= log[k] < |entries|
    ensures Pick(entries, log + [i]) == Pick(entries, log) + [entries[i]]
  {
    assert (log + [i])[..|log|] == log;
  }

  lemma {:induction false} PickMembers(entries: seq<Entry>, log: seq<int>, e: Entry) returns (i: int)
    requires forall k :: 0 <= k < |log| ==> 0 <= log[k] < |entries|
    requires e in Pick(entries, log)
    ensures i in log && 0 <= i < |entries| && entries[i] == e
  {
    var init, last := log[..|log|-1], log[|log|-1];
    if entries[last] == e {
      i := last;
    } else {
      i := PickMembers(entries, init, e);
    }
  }

  lemma {:induction false} AdditionsSnoc(es: seq<Entry>, e: Entry)
    requires Additions(es).Ok? && Classify(e).Ok?
    ensures Additions(es + [e]).Ok?
    ensures Stored(Additions(es + [e]).value) == StoreEntry(Stored(Additions(es).value), e)
  {
    assert (es + [e])[..|es|] == es;
    if Classify(e).value.Some? {
      var adds, a := Additions(es).value, Classify(e).value.value;
      assert (adds + [a])[..|adds|] == adds;
    }
  }

  lemma {:induction false} NoteFailure(entries: seq<Entry>, m: Machine, i: nat)
    requires LogsHold(entries, m) && i < |entries| && i !in m.noteLog && Note(m.notes, entries[i]).Err?
    ensures Faulty(entries, i)
  {
    NotesAreExact(Pick(entries, m.noteLog));
    assert entries[i].path in m.notes.refs && Annotated(entries[i]);
    var e :| e in Pick(entries, m.noteLog) && Annotated(e) && e.path == entries[i].path;
    var j := PickMembers(entries, m.noteLog, e);
    IsRepeated(entries, i, j);
  }

  lemma {:induction false} IsRepeated(entries: seq<Entry>, i: nat, j: nat)
    requires i < |entries| && j < |entries| && i != j && Annotated(entries[j]) && entries[j].path == entries[i].path
    ensures Repeated(entries, i)
  {
  }

  lemma {:induction false} LoggedSnoc(entries: seq<Entry>, log: seq<int>, i: nat)
    requires Logged(entries, log) && i < |entries| && i !in log
    ensures Logged(entries, log + [i])
    ensures forall k :: k in log + [i] <==> k in log || k == i
  {
    forall k ensures k in log + [i] <==> k in log || k == i { InConcat(log, [i], k); }
  }

  lemma {:induction false} NoteKeepsLogs(entries: seq<Entry>, m: Machine, i: nat)
    requires LogsHold(entries, m) && i < |entries| && i !in m.noteLog && Note(m.notes, entries[i]).Ok?
    ensures LogsHold(entries, m.(notes := Note(m.notes, entries[i]).value, noteLog := m.noteLog + [i]))
  {
    LoggedSnoc(entries, m.noteLog, i);
    PickSnoc(entries, m.noteLog, i);
    var picked := Pick(entries, m.noteLog);
    assert (picked + [entries[i]])[..|picked|] == picked;
  }

  lemma {:induction false} StoreKeepsLogs(entries: seq<Entry>, m: Machine, i: nat)
    requires LogsHold(entries, m) && i < |entries| && i !in m.storeLog && Classify(entries[i]).Ok?
    ensures LogsHold(entries, m.(st := StoreEntry(m.st, entries[i]), storeLog := m.storeLog + [i]))
  {
    LoggedSnoc(entries, m.storeLog, i);
    PickSnoc(entries, m.storeLog, i);
    AdditionsSnoc(Pick(entries, m.storeLog), entries[i]);
  }

  lemma {:induction false} MoveKeepsLogs(entries: seq<Entry>, m: Machine, i: nat)
    requires Inv(entries, m) && i < |entries|
    ensures LogsHold(entries, Move(entries, m, i))
  {
    assert StageHolds(entries, m, i);
    match m.stages[i]
    case AtNote => if Note(m.notes, entries[i]).Ok? { NoteKeepsLogs(entries, m, i); }
    case AtStore => if Classify(entries[i]).Ok? { StoreKeepsLogs(entries, m, i); }
    case _ =>
  }

  lemma {:induction false} MoveKeepsStage(entries: seq<Entry>, m: Machine, i: nat, k: nat)
    requires Inv(entries, m) && i < |entries| && k < |entries|
    ensures StageHolds(entries, Move(entries, m, i), k)
  {
    assert StageHolds(entries, m, k) && StageHolds(entries, m, i);
    match m.stages[i]
    case AtNote =>
      if Note(m.notes, entries[i]).Ok? { LoggedSnoc(entries, m.noteLog, i); } else { NoteFailure(entries, m, i); }
    case AtStore => if Classify(entries[i]).Ok? { LoggedSnoc(entries, m.storeLog, i); }
    case _ =>
  }

  /** Every critical section keeps the invariant. */
  lemma {:induction false} MoveInv(entries: seq<Entry>, m: Machine, i: nat)
    requires Inv(entries, m) && i < |entries|
    ensures Inv(entries, Move(entries, m, i))
  {
    MoveKeepsLogs(entries, m, i);
    forall k | 0 <= k < |entries| ensures StageHolds(entries, Move(entries, m, i), k) {
      MoveKeepsStage(entries, m, i, k);
    }
  }

  // ----- What the whole system keeps -----

  /** All manifests have submitted all their entries. */
  predicate AllSubmitted(ends: seq<nat>, s: System)
    requires |s.next| == |ends|
  {
    forall m :: 0 <= m < |ends| ==> s.next[m] == ends[m]
  }

  /** Some entry makes the sequential scan fail. */
  ghost predicate SomeFault(entries: seq<Entry>)
  {
    exists i :: 0 <= i < |entries| && (entries[i].sequence.None? || Faulty(entries, i))
  }

  /** What the main thread has seen so far. */
  ghost predicate MainHolds(entries: seq<Entry>, ends: seq<nat>, s: System)
    requires Shaped(entries, ends, s)
  {
    match s.main
    case Manifests(m) => m <= |ends| && forall k :: 0 <= k < m ==> s.next[k] == ends[k]
    case Statuses(j) =>
      && j <= |entries| && AllSubmitted(ends, s)
      && forall i :: 0 <= i < j ==> s.machine.stages[i] == Finished(true)
    case Failed => SomeFault(entries)
    case Returned(r) => AllSucceeded(s.machine) && r == FinalPlan(s.machine.notes, s.machine.st)
  }

  /** An entry is unsubmitted exactly until its manifest's task has passed it. */
  ghost predicate SubmissionHolds(entries: seq<Entry>, ends: seq<nat>, s: System)
    requires Shaped(entries, ends, s)
  {
    forall m, i :: 0 <= m < |ends| && First(ends, m) <= i < ends[m] ==>
                     (s.machine.stages[i] == Unsubmitted <==> s.next[m] <= i)
  }

  ghost predicate SystemInv(entries: seq<Entry>, ends: seq<nat>, s: System)
  {
    && Shaped(entries, ends, s) && Inv(entries, s.machine)
    && SubmissionHolds(entries, ends, s) && MainHolds(entries, ends, s)
  }

  lemma {:induction false} EndsAscend(ends: seq<nat>, n: nat, k: nat, m: nat)
    requires Cuts(ends, n) && k < m <= |ends|
    ensures ends[k] <= First(ends, m) <= n
  {
    if k < m - 1 { EndsAscend(ends, n, k, m - 1); }
  }

  /** No entry belongs to two manifests. */
  lemma {:induction false} OneManifest(ends: seq<nat>, n: nat, k: nat, m: nat, i: nat)
    requires Cuts(ends, n) && k < |ends| && m < |ends|
    requires First(ends, k) <= i < ends[k] && First(ends, m) <= i < ends[m]
    ensures k == m
  {
    if k < m { EndsAscend(ends, n, k, m); }
    if m < k { EndsAscend(ends, n, m, k); }
  }

  lemma {:induction false} SubmitKeepsStage(entries: seq<Entry>, m: Machine, i: nat, k: nat)
    requires Inv(entries, m) && i < |entries| && k < |entries| && m.stages[i] == Unsubmitted
    requires entries[i].sequence.Some?
    ensures StageHolds(entries, m.(stages := m.stages[i := AtNote]), k)
  {
    assert StageHolds(entries, m, k);
  }

  lemma {:induction false} SubmitKeepsSubmission(entries: seq<Entry>, ends: seq<nat>, s: System, m: nat, k: nat, i: nat)
    requires Shaped(entries, ends, s) && SubmissionHolds(entries, ends, s) && m < |ends| && k < |ends|
    requires First(ends, k) <= i < ends[k]
    ensures var r := SubmitNext(entries, ends, s, m); r.machine.stages[i] == Unsubmitted <==> r.next[k] <= i
  {
    if s.next[m] < ends[m] && i == s.next[m] { OneManifest(ends, |entries|, k, m, i); }
  }

  lemma {:induction false} SubmitInv(entries: seq<Entry>, ends: seq<nat>, s: System, m: nat)
    requires SystemInv(entries, ends, s) && m < |ends|
    ensures SystemInv(entries, ends, SubmitNext(entries, ends, s, m))
  {
    var r := SubmitNext(entries, ends, s, m);
    forall k, i | 0 <= k < |ends| && First(ends, k) <= i < ends[k]
      ensures r.machine.stages[i] == Unsubmitted <==> r.next[k] <= i
    {
      SubmitKeepsSubmission(entries, ends, s, m, k, i);
    }
    if s.next[m] < ends[m] && !Raised(entries, ends, s, m) {
      assert s.machine.stages[s.next[m]] == Unsubmitted;
      forall k | 0 <= k < |entries| ensures StageHolds(entries, r.machine, k) {
        SubmitKeepsStage(entries, s.machine, s.next[m], k);
      }
    }
  }

  /** A critical section only moves its own task on, and finished tasks stay as they are. */
  lemma {:induction false} MoveStage(entries: seq<Entry>, m: Machine, i: nat, k: nat)
    requires |m.stages| == |entries| && i < |entries| && k < |entries|
    ensures Move(entries, m, i).stages[k] == Unsubmitted <==> m.stages[k] == Unsubmitted
    ensures m.stages[k].Finished? ==> Move(entries, m, i).stages[k] == m.stages[k]
  {
  }

  lemma {:induction false} WorkKeepsSubmission(entries: seq<Entry>, ends: seq<nat>, s: System, i: nat)
    requires Shaped(entries, ends, s) && SubmissionHolds(entries, ends, s) && i < |entries|
    ensures SubmissionHolds(entries, ends, s.(machine := Move(entries, s.machine, i)))
  {
    forall k | 0 <= k < |entries|
      ensures Move(entries, s.machine, i).stages[k] == Unsubmitted <==> s.machine.stages[k] == Unsubmitted
    {
      MoveStage(entries, s.machine, i, k);
    }
  }

  lemma {:induction false} SettledMachine(entries: seq<Entry>, m: Machine, i: nat)
    requires |m.stages| == |entries| && i < |entries| && m.stages[i].Finished?
    ensures Move(entries, m, i) == m
  {
  }

  lemma {:induction false} WorkKeepsMain(entries: seq<Entry>, ends: seq<nat>, s: System, i: nat)
    requires Shaped(entries, ends, s) && MainHolds(entries, ends, s) && i < |entries|
    ensures MainHolds(entries, ends, s.(machine := Move(entries, s.machine, i)))
  {
    if s.main.Statuses? {
      forall k | 0 <= k < s.main.j ensures Move(entries, s.machine, i).stages[k] == Finished(true) {
        MoveStage(entries, s.machine, i, k);
      }
    } else if s.main.Returned? {
      SettledMachine(entries, s.machine, i);
    }
  }

  lemma {:induction false} WorkInv(entries: seq<Entry>, ends: seq<nat>, s: System, i: nat)
    requires SystemInv(entries, ends, s) && i < |entries|
    ensures SystemInv(entries, ends, s.(machine := Move(entries, s.machine, i)))
  {
    MoveInv(entries, s.machine, i);
    WorkKeepsSubmission(entries, ends, s, i);
    WorkKeepsMain(entries, ends, s, i);
  }

  lemma {:induction false} CollectManifest(entries: seq<Entry>, ends: seq<nat>, s: System)
    requires Shaped(entries, ends, s) && MainHolds(entries, ends, s) && s.main.Manifests?
    ensures MainHolds(entries, ends, CollectNext(entries, ends, s))
  {
    var m := s.main.m;
    if m < |ends| && s.next[m] != ends[m] && Raised(entries, ends, s, m) { assert entries[s.next[m]].sequence.None?; }
  }

  lemma {:induction false} CollectStatus(entries: seq<Entry>, ends: seq<nat>, s: System)
    requires Shaped(entries, ends, s) && MainHolds(entries, ends, s) && s.main.Statuses?
    requires s.main.j < |entries| ==> StageHolds(entries, s.machine, s.main.j)
    ensures MainHolds(entries, ends, CollectNext(entries, ends, s))
  {
  }

  lemma {:induction false} CollectInv(entries: seq<Entry>, ends: seq<nat>, s: System)
    requires SystemInv(entries, ends, s)
    ensures SystemInv(entries, ends, CollectNext(entries, ends, s))
  {
    var r := CollectNext(entries, ends, s);
    assert r.machine == s.machine && r.next == s.next;
    SameSubmission(entries, ends, s, r);
    if s.main.Manifests? { CollectManifest(entries, ends, s); }
    if s.main.Statuses? { CollectStatus(entries, ends, s); }
  }

  lemma {:induction false} SameSubmission(entries: seq<Entry>, ends: seq<nat>, s: System, r: System)
    requires Shaped(entries, ends, s) && SubmissionHolds(entries, ends, s) && r.machine == s.machine && r.next == s.next
    ensures Shaped(entries, ends, r) && SubmissionHolds(entries, ends, r)
  {
  }

  lemma {:induction false} StartInv(entries: seq<Entry>, ends: seq<nat>)
    requires Cuts(ends, |entries|)
    ensures SystemInv(entries, ends, Start(entries, ends))
  {
    var m := Start(entries, ends).machine;
    forall i | 0 <= i < |entries| ensures StageHolds(entries, m, i) { }
  }

  lemma {:induction false} StepInv(entries: seq<Entry>, ends: seq<nat>, s: System, step: Step)
    requires SystemInv(entries, ends, s)
    ensures SystemInv(entries, ends, Apply(entries, ends, s, step))
  {
    match step
    case Submit(m) => if m < |ends| { SubmitInv(entries, ends, s, m); }
    case Work(i) => if i < |entries| { WorkInv(entries, ends, s, i); }
    case Collect => CollectInv(entries, ends, s);
  }

  /** The invariant holds in every reachable state. */
  lemma {:induction false} RunInv(entries: seq<Entry>, ends: seq<nat>, steps: seq<Step>)
    requires Cuts(ends, |entries|)
    ensures SystemInv(entries, ends, Run(entries, ends, steps))
  {
    if steps == [] {
      StartInv(entries, ends);
    } else {
      RunInv(entries, ends, steps[..|steps|-1]);
      StepInv(entries, ends, Run(entries, ends, steps[..|steps|-1]), steps[|steps|-1]);
    }
  }

  // ----- A complete log is a permutation of the entries -----

  function EntryAt(entries: seq<Entry>): int -> seq<Entry>
  {
    (i: int) => if 0 <= i < |entries| then [entries[i]] else []
  }

  lemma {:induction false} PickIsFlatMap(entries: seq<Entry>, log: seq<int>)
    requires forall i :: 0 <= i < |log| ==> 0 <= log[i] < |entries|
    ensures Pick(entries, log) == FlatMap(log, EntryAt(entries))
  {
    if log != [] { PickIsFlatMap(entries, log[..|log|-1]); }
  }

  lemma {:induction false} PickAll(entries: seq<Entry>, n: nat)
    requires n <= |entries|
    ensures Pick(entries, Indices(n)) == entries[..n]
  {
    if n > 0 {
      PickAll(entries, n - 1);
      assert Indices(n)[..n-1] == Indices(n - 1);
    }
  }

  lemma {:induction false} DistinctCount(log: seq<int>, x: int)
    requires forall i, j :: 0 <= i < j < |log| ==> log[i] != log[j]
    ensures multiset(log)[x] == if x in log then 1 else 0
  {
    if log != [] {
      var init, last := log[..|log|-1], log[|log|-1];
      DistinctCount(init, x);
      SplitLast(log);
      InConcat(init, [last], x);
      assert log == init + [last];
    }
  }

  lemma {:induction false} CompleteLog(entries: seq<Entry>, log: seq<int>)
    requires Logged(entries, log) && forall i :: 0 <= i < |entries| ==> i in log
    ensures multiset(Pick(entries, log)) == multiset(entries)
  {
    var all := Indices(|entries|);
    forall x: int ensures multiset(log)[x] == multiset(all)[x] {
      CompleteCount(log, |entries|, x);
    }
    SameCounts(log, all);
    PickIsFlatMap(entries, log);
    PickIsFlatMap(entries, all);
    FlatMapPermutation(log, all, EntryAt(entries));
    PickAll(entries, |entries|);
    assert entries[..|entries|] == entries;
  }

  lemma {:induction false} CompleteCount(log: seq<int>, n: nat, x: int)
    requires forall i :: 0 <= i < |log| ==> 0 <= log[i] < n
    requires forall i, j :: 0 <= i < j < |log| ==> log[i] != log[j]
    requires forall i :: 0 <= i < n ==> i in log
    ensures multiset(log)[x] == multiset(Indices(n))[x]
  {
    DistinctCount(log, x);
    DistinctCount(Indices(n), x);
    if 0 <= x < n { assert Indices(n)[x] == x; }
  }

  lemma {:induction false} SameCounts(s: seq<int>, t: seq<int>)
    requires forall x: int :: multiset(s)[x] == multiset(t)[x]
    ensures multiset(s) == multiset(t)
  {
    var a, b := multiset(s), multiset(t);
    assert forall x: int :: a[x] == b[x];
    assert a == b;
  }

  // ----- Order does not matter -----

  function AddsOf(): Entry -> seq<Addition>
  {
    (e: Entry) => if Classify(e).Ok? && Classify(e).value.Some? then [Classify(e).value.value] else []
  }

  lemma {:induction false} AdditionsExactly(es: seq<Entry>)
    ensures Additions(es).Ok? <==> forall e :: e in es ==> Classify(e).Ok?
    ensures Additions(es).Ok? ==> Additions(es).value == FlatMap(es, AddsOf())
  {
    if es != [] {
      var init, last := es[..|es|-1], es[|es|-1];
      AdditionsExactly(init);
      forall e ensures e in es <==> e in init || e == last { InConcat(init, [last], e); assert es == init + [last]; }
    }
  }

  lemma {:induction false} AdditionsPermuted(es: seq<Entry>, fs: seq<Entry>)
    requires multiset(es) == multiset(fs)
    ensures Additions(es).Ok? <==> Additions(fs).Ok?
    ensures Additions(es).Ok? && Additions(fs).Ok? ==> multiset(Additions(es).value) == multiset(Additions(fs).value)
  {
    AdditionsExactly(es);
    AdditionsExactly(fs);
    SameMembers(es, fs);
    FlatMapPermutation(es, fs, AddsOf());
  }

  lemma {:induction false} SameReference(n: Notes, n': Notes, es: seq<Entry>, fs: seq<Entry>, q: Path)
    requires NotesMatch(n, es) && NotesMatch(n', fs) && (forall e :: e in es ==> e in fs) && q in n.refs
    ensures q in n'.refs && n'.refs[q] == n.refs[q]
  {
    var e :| e in es && Annotated(e) && e.path == q;
    assert e in fs;
  }

  lemma {:induction false} SubReferences(n: Notes, n': Notes, es: seq<Entry>, fs: seq<Entry>)
    requires NotesMatch(n, es) && NotesMatch(n', fs) && forall e :: e in es ==> e in fs
    ensures forall q :: q in n.refs ==> q in n'.refs && n'.refs[q] == n.refs[q]
  {
    forall q | q in n.refs ensures q in n'.refs && n'.refs[q] == n.refs[q] { SameReference(n, n', es, fs, q); }
  }

  lemma {:induction false} NotesUnique(n: Notes, n': Notes, es: seq<Entry>, fs: seq<Entry>)
    requires NotesMatch(n, es) && NotesMatch(n', fs) && forall e :: e in es <==> e in fs
    ensures n == n'
  {
    SubReferences(n, n', es, fs);
    SubReferences(n', n, fs, es);
    assert n.refs == n'.refs;
    SameFlags(n, n', es, fs);
  }

  lemma {:induction false} SameFlags(n: Notes, n': Notes, es: seq<Entry>, fs: seq<Entry>)
    requires NotesMatch(n, es) && NotesMatch(n', fs) && forall e :: e in es <==> e in fs
    ensures n.allAnnotated == n'.allAnnotated && n.hasEquality == n'.hasEquality && n.hasReferenced == n'.hasReferenced
  {
  }

  lemma {:induction false} NotesPermuted(es: seq<Entry>, fs: seq<Entry>)
    requires multiset(es) == multiset(fs) && NoteAll(es).Ok?
    ensures NoteAll(fs) == NoteAll(es)
  {
    NotingFailsExactly(es);
    NotingFailsExactly(fs);
    forall q ensures Count(es, AnnotatedAs(q)) == Count(fs, AnnotatedAs(q)) {
      CountPermutation(es, fs, AnnotatedAs(q));
    }
    NotesAreExact(es);
    NotesAreExact(fs);
    SameMembers(es, fs);
    NotesUnique(NoteAll(es).value, NoteAll(fs).value, es, fs);
  }

  // ----- The theorems -----

  /** Every entry passed both mutexes. */
  predicate AllLogged(n: nat, m: Machine)
  {
    forall i :: 0 <= i < n ==> i in m.noteLog && i in m.storeLog
  }

  /** `GetResult` is called only after every entry of every manifest has been stored: in any
      reachable state in which the main thread's next step is that call, all manifests are
      submitted, all tasks have succeeded and every entry passed both mutexes. */
  lemma {:induction false} ResultAfterAllStored(entries: seq<Entry>, ends: seq<nat>, steps: seq<Step>)
    requires Cuts(ends, |entries|) && Run(entries, ends, steps).main == Statuses(|entries|)
    ensures AllSubmitted(ends, Run(entries, ends, steps)) && AllSucceeded(Run(entries, ends, steps).machine)
    ensures AllLogged(|entries|, Run(entries, ends, steps).machine)
  {
    RunInv(entries, ends, steps);
    var m := Run(entries, ends, steps).machine;
    forall i | 0 <= i < |entries| ensures i in m.noteLog && i in m.storeLog { assert StageHolds(entries, m, i); }
  }

  /** If every task has succeeded, the notes are the sequential ones and the state is the sequential
      state of some reordering of the entries. */
  lemma {:induction false} Linearized(entries: seq<Entry>, m: Machine)
    returns (n: Notes, adds: seq<Addition>, adds': seq<Addition>)
    requires Inv(entries, m) && AllSucceeded(m)
    ensures Collected(entries, n, adds) && multiset(adds) == multiset(adds')
    ensures m.notes == n && m.st == Stored(adds')
  {
    forall i | 0 <= i < |entries| ensures i in m.noteLog && i in m.storeLog { assert StageHolds(entries, m, i); }
    CompleteLog(entries, m.noteLog);
    CompleteLog(entries, m.storeLog);
    NotesPermuted(Pick(entries, m.noteLog), entries);
    AdditionsPermuted(Pick(entries, m.storeLog), entries);
    n, adds, adds' := m.notes, Additions(entries).value, Additions(Pick(entries, m.storeLog)).value;
  }

  predicate Numbered(entries: seq<Entry>)
  {
    forall i :: 0 <= i < |entries| ==> entries[i].sequence.Some?
  }

  /** The sequential scan behind its entry stream, which raises on an entry, deleted or not, that
      has no sequence number. */
  function SequentialScan(entries: seq<Entry>): Result<seq<Partition<Path>>>
  {
    if Numbered(entries) then ScanPlan(entries) else Err(MissingSequenceNumber)
  }

  /** Without two newest vectors for a data file, whatever the main thread returns in whatever
      interleaving is the sequential plan, up to the order of files inside layers. */
  lemma {:induction false} InterleavingsAgree(entries: seq<Entry>, ends: seq<nat>, steps: seq<Step>)
    requires Cuts(ends, |entries|) && Run(entries, ends, steps).main.Returned?
    requires Additions(entries).Ok? ==> Uncontested(Additions(entries).value)
    ensures SameOutcome(Run(entries, ends, steps).main.plan, SequentialScan(entries))
  {
    RunInv(entries, ends, steps);
    var m := Run(entries, ends, steps).machine;
    var n, adds, adds' := Linearized(entries, m);
    forall i | 0 <= i < |entries| ensures entries[i].sequence.Some? { assert StageHolds(entries, m, i); }
    ScanIsFinalPlan(entries, n, adds);
    FinalPlanSame(n, adds, adds');
    SameOutcomeSymmetric(FinalPlan(n, Stored(adds)), FinalPlan(n, Stored(adds')));
  }

  /** The main thread gives up only on entries that make the sequential scan fail. */
  lemma {:induction false} FailureIsSequential(entries: seq<Entry>, ends: seq<nat>, steps: seq<Step>)
    requires Cuts(ends, |entries|) && Run(entries, ends, steps).main == Failed
    ensures SequentialScan(entries).Err?
  {
    RunInv(entries, ends, steps);
    assert SomeFault(entries);
    var i :| 0 <= i < |entries| && (entries[i].sequence.None? || Faulty(entries, i));
    if Numbered(entries) {
      FaultyFails(entries, i);
      FeedExactly(entries);
    }
  }

  /** The main thread is done. */
  predicate Done(s: System) { s.main.Failed? || s.main.Returned? }

  /** It returns an error exactly when the sequential scan does. */
  lemma {:induction false} InterleavingsFailAlike(entries: seq<Entry>, ends: seq<nat>, steps: seq<Step>)
    requires Cuts(ends, |entries|) && Done(Run(entries, ends, steps))
    ensures var main := Run(entries, ends, steps).main;
      (main.Failed? || main.plan.Err?) <==> SequentialScan(entries).Err?
  {
    if Run(entries, ends, steps).main.Failed? {
      FailureIsSequential(entries, ends, steps);
    } else {
      RunInv(entries, ends, steps);
      var m := Run(entries, ends, steps).machine;
      var n, adds, adds' := Linearized(entries, m);
      forall i | 0 <= i < |entries| ensures entries[i].sequence.Some? { assert StageHolds(entries, m, i); }
      ScanIsFinalPlan(entries, n, adds);
      FinalPlanExistsAlike(entries, n, adds, adds');
    }
  }

  /** An entry without sequence number, deleted or not, makes both scans fail. */
  lemma {:induction false} UnnumberedFails(entries: seq<Entry>, ends: seq<nat>, steps: seq<Step>, i: nat)
    requires Cuts(ends, |entries|) && i < |entries| && entries[i].sequence == None
    ensures SequentialScan(entries) == Err(MissingSequenceNumber)
    ensures Done(Run(entries, ends, steps)) ==> Run(entries, ends, steps).main == Failed
  {
    RunInv(entries, ends, steps);
    var s := Run(entries, ends, steps);
    assert StageHolds(entries, s.machine, i);
  }

  // ----- The main thread always returns -----

  lemma {:induction false} ManifestOf(ends: seq<nat>, n: nat, m: nat, i: nat) returns (k: nat)
    requires Cuts(ends, n) && m <= |ends| && i < First(ends, m)
    ensures k < m && First(ends, k) <= i < ends[k]
  {
    if First(ends, m - 1) <= i {
      k := m - 1;
    } else {
      k := ManifestOf(ends, n, m - 1, i);
    }
  }

  /** Until then some step is possible. */
  lemma {:induction false} NoStall(entries: seq<Entry>, ends: seq<nat>, steps: seq<Step>) returns (step: Step)
    requires Cuts(ends, |entries|) && !Done(Run(entries, ends, steps))
    ensures Apply(entries, ends, Run(entries, ends, steps), step) != Run(entries, ends, steps)
  {
    var s := Run(entries, ends, steps);
    RunInv(entries, ends, steps);
    step := Collect;
    if s.main.Manifests? {
      var m := s.main.m;
      if m < |ends| && s.next[m] != ends[m] && !Raised(entries, ends, s, m) {
        step := Submit(m);
        assert Apply(entries, ends, s, step).next[m] != s.next[m];
      }
    } else if s.main.j < |entries| && !s.machine.stages[s.main.j].Finished? {
      step := Work(s.main.j);
      var k := ManifestOf(ends, |entries|, |ends|, s.main.j);
      assert s.machine.stages[s.main.j] != Unsubmitted;
      assert Move(entries, s.machine, s.main.j).stages[s.main.j] != s.machine.stages[s.main.j];
    }
  }

  function StageWeight(g: Stage): nat
  {
    match g case Unsubmitted => 3 case AtNote => 2 case AtStore => 1 case Finished(_) => 0
  }

  function Weight(stages: seq<Stage>): nat
  {
    if stages == [] then 0 else Weight(stages[..|stages|-1]) + StageWeight(stages[|stages|-1])
  }

  lemma {:induction false} WeightUpdate(stages: seq<Stage>, i: nat, g: Stage)
    requires i < |stages|
    ensures Weight(stages[i := g]) == Weight(stages) - StageWeight(stages[i]) + StageWeight(g)
  {
    var n := |stages| - 1;
    if i == n {
      assert stages[i := g][..n] == stages[..n];
    } else {
      assert stages[i := g][..n] == stages[..n][i := g];
      WeightUpdate(stages[..n], i, g);
    }
  }

  function MainWeight(entries: seq<Entry>, ends: seq<nat>, main: Main): int
  {
    match main
    case Manifests(m) => |ends| - m + |entries| + 3
    case Statuses(j) => |entries| - j + 1
    case _ => 0
  }

  /** How much is left to do. */
  function Remaining(entries: seq<Entry>, ends: seq<nat>, s: System): int
  {
    Weight(s.machine.stages) + MainWeight(entries, ends, s.main)
  }

  lemma {:induction false} SubmitLightens(entries: seq<Entry>, ends: seq<nat>, s: System, m: nat)
    requires Shaped(entries, ends, s) && SubmissionHolds(entries, ends, s) && m < |ends|
    requires SubmitNext(entries, ends, s, m) != s
    ensures Weight(SubmitNext(entries, ends, s, m).machine.stages) < Weight(s.machine.stages)
  {
    assert s.machine.stages[s.next[m]] == Unsubmitted;
    WeightUpdate(s.machine.stages, s.next[m], AtNote);
  }

  lemma {:induction false} MoveLightens(entries: seq<Entry>, m: Machine, i: nat)
    requires |m.stages| == |entries| && i < |entries| && Move(entries, m, i) != m
    ensures Weight(Move(entries, m, i).stages) < Weight(m.stages)
  {
    var g := Move(entries, m, i).stages[i];
    assert Move(entries, m, i).stages == m.stages[i := g];
    WeightUpdate(m.stages, i, g);
  }

  lemma {:induction false} CollectShortens(entries: seq<Entry>, ends: seq<nat>, s: System)
    requires Shaped(entries, ends, s) && MainHolds(entries, ends, s) && CollectNext(entries, ends, s) != s
    ensures 0 <= MainWeight(entries, ends, CollectNext(entries, ends, s).main) < MainWeight(entries, ends, s.main)
  {
  }

  lemma {:induction false} MainBounded(entries: seq<Entry>, ends: seq<nat>, s: System)
    requires Shaped(entries, ends, s) && MainHolds(entries, ends, s)
    ensures MainWeight(entries, ends, s.main) >= 0
  {
  }

  /** Every step that changes anything leaves less to do, so that after finitely many the main
      thread has returned. */
  lemma {:induction false} StepsAreFinite(entries: seq<Entry>, ends: seq<nat>, steps: seq<Step>, step: Step)
    requires Cuts(ends, |entries|) && Apply(entries, ends, Run(entries, ends, steps), step) != Run(entries, ends, steps)
    ensures 0 <= Remaining(entries, ends, Apply(entries, ends, Run(entries, ends, steps), step))
            < Remaining(entries, ends, Run(entries, ends, steps))
  {
    var s := Run(entries, ends, steps);
    RunInv(entries, ends, steps);
    MainBounded(entries, ends, s);
    match step
    case Submit(m) => SubmitLightens(entries, ends, s, m);
    case Work(i) => MoveLightens(entries, s.machine, i);
    case Collect => CollectShortens(entries, ends, s);
  }

  lemma {:induction false} FaultyFails(entries: seq<Entry>, i: nat)
    requires i < |entries| && Faulty(entries, i)
    ensures NoteAll(entries).Err? || Additions(entries).Err?
  {
    if Classify(entries[i]).Err? {
      AdditionsExactly(entries);
      assert entries[i] in entries;
    } else {
      var j :| 0 <= j < |entries| && j != i && Annotated(entries[j]) && entries[j].path == entries[i].path;
      CountPair(entries, if i < j then i else j, if i < j then j else i, AnnotatedAs(entries[i].path));
      NotingFailsExactly(entries);
    }
  }
}
