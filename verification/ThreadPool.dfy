/** The thread pool (`iceberg/common/threadpool.h`).

    Each critical section of the mutex is one atomic step.  A worker that finds no work blocks on
    the condition variable; `notify_one` makes one blocked worker ready to re-check, `notify_all`
    all of them, and a wakeup may also be spurious. */
module ThreadPool {
  import opened Order
  import opened Plan

  datatype Status = Running | WaitPending | CancelPending

  type Task = int

  /** Outcome of the critical section of `GetTask` for a worker holding the lock. */
  datatype Outcome = Block | Leave | Execute(task: Task)

  /** `WaitUntilStoppedOrHasTask` followed by the rest of `GetTask`, once the lock is held. */
  function Take(status: Status, queue: seq<Task>): (Status, seq<Task>, Outcome)
  {
    match status
    case Running => if queue == [] then (Running, [], Block) else (Running, queue[1..], Execute(queue[0]))
    case WaitPending => if queue == [] then (CancelPending, [], Leave) else (WaitPending, queue[1..], Execute(queue[0]))
    case CancelPending => (CancelPending, queue, Leave)
  }

  /** The critical section of `Submit`. */
  function Offer(status: Status, queue: seq<Task>, task: Task): (seq<Task>, bool)
  {
    if status == Running then (queue + [task], true) else (queue, false)
  }

  /** The critical section of `Stop`. */
  function Halt(status: Status, wait: bool): (Status, bool)
  {
    if status != Running then (status, false) else (if wait then WaitPending else CancelPending, true)
  }

  /** The shared object; each method is one critical section. */
  class ThreadPool {
    var status: Status
    var tasks: seq<Task>

    constructor ()
      ensures status == Running && tasks == []
    {
      status, tasks := Running, [];
    }

    method Submit(task: Task) returns (accepted: bool)
      modifies this
      ensures accepted <==> old(status) == Running
      ensures status == old(status) && (tasks, accepted) == Offer(old(status), old(tasks), task)
      ensures tasks == if accepted then old(tasks) + [task] else old(tasks)
    {
      if status != Running {
        return false;
      }
      tasks := tasks + [task];
      return true;
    }

    method BeginStop(waitForRemainingTasks: bool) returns (first: bool)
      modifies this
      ensures first <==> old(status) == Running
      ensures tasks == old(tasks) && (status, first) == Halt(old(status), waitForRemainingTasks)
      ensures status == if !first then old(status) else if waitForRemainingTasks then WaitPending else CancelPending
    {
      if status != Running {
        return false;
      }
      if waitForRemainingTasks {
        status := WaitPending;
      } else {
        status := CancelPending;
      }
      return true;
    }

    method GetTask() returns (outcome: Outcome)
      modifies this
      ensures (status, tasks, outcome) == Take(old(status), old(tasks))
    {
      if tasks == [] && status == Running {
        return Block;
      }
      if status == WaitPending && tasks == [] {
        status := CancelPending;
      }
      if status == CancelPending {
        return Leave;
      }
      outcome := Execute(tasks[0]);
      tasks := tasks[1..];
    }
  }

  // ----- The protocol -----

  /** Ready and Woken workers compete for the lock; Busy workers run a task outside it. */
  datatype Worker = Ready | Blocked | Woken | Busy(task: Task) | Exited

  /** `submitted`, `taken` and `finished` record the history; `stop` the argument of the first `Stop`. */
  datatype Pool = Pool(
    status: Status,
    queue: seq<Task>,
    workers: seq<Worker>,
    submitted: seq<Task>,
    taken: seq<Task>,
    finished: seq<Task>,
    stop: Option<bool>)

  datatype Step =
    | Submit(task: Task, woken: Option<nat>)
    | Stop(wait: bool)
    | Enter(w: nat)
    | Spurious(w: nat)
    | Finish(w: nat)

  predicate Init(p: Pool)
  {
    && p.status == Running && p.queue == [] && p.submitted == [] && p.taken == [] && p.finished == []
    && p.stop == None
    && forall w :: 0 <= w < |p.workers| ==> p.workers[w] == Ready
  }

  function WakeAll(workers: seq<Worker>): (r: seq<Worker>)
    ensures |r| == |workers|
    ensures forall w :: 0 <= w < |workers| ==> r[w] == if workers[w] == Blocked then Woken else workers[w]
  {
    seq(|workers|, w requires 0 <= w < |workers| => if workers[w] == Blocked then Woken else workers[w])
  }

  predicate SomeBlocked(p: Pool)
  {
    exists w :: 0 <= w < |p.workers| && p.workers[w] == Blocked
  }

  /** `notify_one` wakes a blocked worker if there is one. */
  predicate Notified(p: Pool, woken: Option<nat>)
  {
    if SomeBlocked(p) then woken.Some? && woken.value < |p.workers| && p.workers[woken.value] == Blocked
    else woken == None
  }

  function AfterEnter(p: Pool, w: nat): Pool
    requires w < |p.workers|
  {
    var (status, queue, outcome) := Take(p.status, p.queue);
    match outcome
    case Block => p.(workers := p.workers[w := Blocked])
    case Leave => p.(status := status, workers := p.workers[w := Exited])
    case Execute(t) => p.(status := status, queue := queue, workers := p.workers[w := Busy(t)], taken := p.taken + [t])
  }

  predicate Enabled(p: Pool, s: Step)
  {
    match s
    case Submit(_, woken) => p.status == Running ==> Notified(p, woken)
    case Stop(_) => true
    case Enter(w) => w < |p.workers| && (p.workers[w] == Ready || p.workers[w] == Woken)
    case Spurious(w) => w < |p.workers| && p.workers[w] == Blocked
    case Finish(w) => w < |p.workers| && p.workers[w].Busy?
  }

  function Apply(p: Pool, s: Step): Pool
    requires Enabled(p, s)
  {
    match s
    case Submit(t, woken) =>
      var (queue, accepted) := Offer(p.status, p.queue, t);
      if !accepted then p else
        p.(queue := queue, submitted := p.submitted + [t],
           workers := if woken.Some? then p.workers[woken.value := Woken] else p.workers)
    case Stop(wait) =>
      var (status, first) := Halt(p.status, wait);
      if !first then p else p.(status := status, stop := Some(wait), workers := WakeAll(p.workers))
    case Enter(w) => AfterEnter(p, w)
    case Spurious(w) => p.(workers := p.workers[w := Woken])
    case Finish(w) => p.(workers := p.workers[w := Ready], finished := p.finished + [p.workers[w].task])
  }

  predicate Next(p: Pool, s: Step, q: Pool)
  {
    Enabled(p, s) && q == Apply(p, s)
  }

  /** A finite run of the pool. */
  ghost predicate Behaviour(states: seq<Pool>, steps: seq<Step>)
  {
    && |states| == |steps| + 1
    && Init(states[0])
    && forall i :: 0 <= i < |steps| ==> Next(states[i], steps[i], states[i+1])
  }

  // ----- The inductive invariant -----

  function IsWoken(): Worker -> bool { (w: Worker) => w == Woken }

  function TaskOf(w: Worker): multiset<Task>
  {
    if w.Busy? then multiset{w.task} else multiset{}
  }

  /** The tasks being executed. */
  function Executing(workers: seq<Worker>): multiset<Task>
  {
    if workers == [] then multiset{} else Executing(workers[..|workers|-1]) + TaskOf(workers[|workers|-1])
  }

  /** While someone is blocked, each queued task has a woken worker on its way. */
  predicate Wakeups(p: Pool)
  {
    && (p.status == Running && SomeBlocked(p) ==> |p.queue| <= Count(p.workers, IsWoken()))
    && (p.status != Running ==> !SomeBlocked(p))
  }

  /** Tasks are taken in the order of submission, and each is either finished or running. */
  predicate History(p: Pool)
  {
    && p.submitted == p.taken + p.queue
    && multiset(p.taken) == multiset(p.finished) + Executing(p.workers)
  }

  predicate Shutdown(p: Pool)
  {
    && (p.stop == None <==> p.status == Running)
    && (p.status == WaitPending ==> p.stop == Some(true))
    && (p.status == CancelPending && p.stop == Some(true) ==> p.queue == [])
    && (p.status != CancelPending ==> forall w :: 0 <= w < |p.workers| ==> p.workers[w] != Exited)
  }

  predicate Inv(p: Pool)
  {
    Wakeups(p) && History(p) && Shutdown(p)
  }

  lemma {:induction false} CountUpdate<T>(s: seq<T>, i: nat, x: T, f: T -> bool)
    requires i < |s|
    ensures Count(s[i := x], f) == Count(s, f) - (if f(s[i]) then 1 else 0) + (if f(x) then 1 else 0)
  {
    var n := |s| - 1;
    if i == n {
      assert s[i := x][..n] == s[..n];
    } else {
      assert s[i := x][..n] == s[..n][i := x];
      CountUpdate(s[..n], i, x, f);
    }
  }

  lemma {:induction false} ExecutingUpdate(s: seq<Worker>, i: nat, x: Worker)
    requires i < |s|
    ensures Executing(s[i := x]) + TaskOf(s[i]) == Executing(s) + TaskOf(x)
  {
    if i == |s| - 1 {
      UpdateLast(s, x);
    } else {
      ExecutingUpdate(s[..|s|-1], i, x);
      UpdateEarlier(s, i, x);
    }
  }

  lemma {:induction false} UpdateLast(s: seq<Worker>, x: Worker)
    requires s != []
    ensures Executing(s[|s|-1 := x]) + TaskOf(s[|s|-1]) == Executing(s) + TaskOf(x)
  {
    UpdateInit(s, |s| - 1, x);
    Swap(Executing(s[..|s|-1]), TaskOf(x), TaskOf(s[|s|-1]));
  }

  lemma {:induction false} UpdateEarlier(s: seq<Worker>, i: nat, x: Worker)
    requires i < |s| - 1
    requires Executing(s[..|s|-1][i := x]) + TaskOf(s[i]) == Executing(s[..|s|-1]) + TaskOf(x)
    ensures Executing(s[i := x]) + TaskOf(s[i]) == Executing(s) + TaskOf(x)
  {
    UpdateInit(s, i, x);
    Exchange(Executing(s[..|s|-1][i := x]), TaskOf(s[i]), Executing(s[..|s|-1]), TaskOf(x), TaskOf(s[|s|-1]));
  }

  lemma {:induction false} UpdateInit(s: seq<Worker>, i: nat, x: Worker)
    requires i < |s|
    ensures s[i := x][..|s|-1] == if i == |s| - 1 then s[..|s|-1] else s[..|s|-1][i := x]
  {
  }

  lemma {:induction false} Swap(a: multiset<Task>, b: multiset<Task>, c: multiset<Task>)
    ensures (a + b) + c == (a + c) + b
  {
  }

  lemma {:induction false} Exchange(a: multiset<Task>, b: multiset<Task>, c: multiset<Task>, d: multiset<Task>,
        e: multiset<Task>)
    requires a + b == c + d
    ensures (a + e) + b == (c + e) + d
  {
    assert (a + e) + b == (a + b) + e;
    assert (c + e) + d == (c + d) + e;
  }

  lemma {:induction false} ExecutingIdle(s: seq<Worker>, i: nat, x: Worker)
    requires i < |s| && !s[i].Busy? && !x.Busy?
    ensures Executing(s[i := x]) == Executing(s)
  {
    ExecutingUpdate(s, i, x);
    assert Executing(s) + multiset{} == Executing(s);
    assert Executing(s[i := x]) + multiset{} == Executing(s[i := x]);
  }

  lemma {:induction false} ExecutingStarts(s: seq<Worker>, i: nat, t: Task)
    requires i < |s| && !s[i].Busy?
    ensures Executing(s[i := Busy(t)]) == Executing(s) + multiset{t}
  {
    ExecutingUpdate(s, i, Busy(t));
    assert Executing(s[i := Busy(t)]) + multiset{} == Executing(s[i := Busy(t)]);
  }

  lemma {:induction false} ExecutingEnds(s: seq<Worker>, i: nat)
    requires i < |s| && s[i].Busy?
    ensures Executing(s) == Executing(s[i := Ready]) + multiset{s[i].task}
  {
    ExecutingUpdate(s, i, Ready);
    assert Executing(s) + multiset{} == Executing(s);
  }

  lemma {:induction false} ExecutingNone(s: seq<Worker>)
    requires forall w :: 0 <= w < |s| ==> !s[w].Busy?
    ensures Executing(s) == multiset{}
  {
    if s != [] { ExecutingNone(s[..|s|-1]); }
  }

  lemma {:induction false} ExecutingWakeAll(s: seq<Worker>)
    ensures Executing(WakeAll(s)) == Executing(s)
  {
    if s != [] {
      ExecutingWakeAll(s[..|s|-1]);
      assert WakeAll(s)[..|s|-1] == WakeAll(s[..|s|-1]);
    }
  }

  lemma {:induction false} InitInv(p: Pool)
    requires Init(p)
    ensures Inv(p)
  {
    ExecutingNone(p.workers);
  }

  lemma {:induction false} StepKeepsWakeups(p: Pool, s: Step)
    requires Wakeups(p) && Enabled(p, s)
    ensures Wakeups(Apply(p, s))
  {
    var q := Apply(p, s);
    match s
    case Submit(t, woken) =>
      if p.status == Running && woken.Some? { CountUpdate(p.workers, woken.value, Woken, IsWoken()); }
    case Stop(_) =>
    case Enter(w) => EnterKeepsWakeups(p, w);
    case Spurious(w) => CountUpdate(p.workers, w, Woken, IsWoken());
    case Finish(w) => CountUpdate(p.workers, w, Ready, IsWoken()); StillBlocked(p, q, w);
  }

  /** A worker that changes to something else than blocked does not create a blocked worker. */
  lemma {:induction false} StillBlocked(p: Pool, q: Pool, w: nat)
    requires w < |p.workers| == |q.workers| && q.workers[w] != Blocked
    requires forall v :: 0 <= v < |p.workers| && v != w ==> q.workers[v] == p.workers[v]
    ensures SomeBlocked(q) ==> SomeBlocked(p)
  {
    if v :| 0 <= v < |q.workers| && q.workers[v] == Blocked { assert p.workers[v] == Blocked; }
  }

  lemma {:induction false} EnterKeepsWakeups(p: Pool, w: nat)
    requires Wakeups(p) && Enabled(p, Enter(w))
    ensures Wakeups(Apply(p, Enter(w)))
  {
    var q := Apply(p, Enter(w));
    CountUpdate(p.workers, w, q.workers[w], IsWoken());
    if q.workers[w] != Blocked { StillBlocked(p, q, w); }
  }

  lemma {:induction false} StepKeepsHistory(p: Pool, s: Step)
    requires History(p) && Enabled(p, s)
    ensures History(Apply(p, s))
  {
    match s
    case Submit(t, woken) => SubmitKeepsHistory(p, t, woken);
    case Stop(_) => ExecutingWakeAll(p.workers);
    case Enter(w) => EnterKeepsHistory(p, w);
    case Spurious(w) => ExecutingIdle(p.workers, w, Woken);
    case Finish(w) => FinishKeepsHistory(p, w);
  }

  lemma {:induction false} SubmitKeepsHistory(p: Pool, t: Task, woken: Option<nat>)
    requires History(p) && Enabled(p, Submit(t, woken))
    ensures History(Apply(p, Submit(t, woken)))
  {
    SeqAssociative(p.taken, p.queue, [t]);
    if p.status == Running && woken.Some? { ExecutingIdle(p.workers, woken.value, Woken); }
  }

  lemma {:induction false} FinishKeepsHistory(p: Pool, w: nat)
    requires History(p) && Enabled(p, Finish(w))
    ensures History(Apply(p, Finish(w)))
  {
    var t := p.workers[w].task;
    ExecutingEnds(p.workers, w);
    assert multiset(p.finished + [t]) == multiset(p.finished) + multiset{t};
  }

  lemma {:induction false} EnterKeepsHistory(p: Pool, w: nat)
    requires History(p) && Enabled(p, Enter(w))
    ensures History(Apply(p, Enter(w)))
  {
    match Take(p.status, p.queue).2
    case Block => IdleKeepsHistory(p, w, Blocked);
    case Leave => IdleKeepsHistory(p, w, Exited);
    case Execute(t) => ExecuteKeepsHistory(p, w, t);
  }

  lemma {:induction false} IdleKeepsHistory(p: Pool, w: nat, x: Worker)
    requires History(p) && w < |p.workers| && !p.workers[w].Busy? && !x.Busy?
    ensures History(p.(workers := p.workers[w := x]))
  {
    ExecutingIdle(p.workers, w, x);
  }

  lemma {:induction false} ExecuteKeepsHistory(p: Pool, w: nat, t: Task)
    requires History(p) && w < |p.workers| && !p.workers[w].Busy? && p.queue != [] && p.queue[0] == t
    ensures History(p.(queue := p.queue[1..], workers := p.workers[w := Busy(t)], taken := p.taken + [t]))
  {
    ExecutingStarts(p.workers, w, t);
    assert p.queue == [t] + p.queue[1..];
    SeqAssociative(p.taken, [t], p.queue[1..]);
    TakenCounts(p.taken, p.finished, Executing(p.workers), t);
  }

  lemma {:induction false} TakenCounts(taken: seq<Task>, finished: seq<Task>, running: multiset<Task>, t: Task)
    requires multiset(taken) == multiset(finished) + running
    ensures multiset(taken + [t]) == multiset(finished) + (running + multiset{t})
  {
    assert multiset(taken + [t]) == multiset(taken) + multiset{t};
  }

  lemma {:induction false} StepKeepsShutdown(p: Pool, s: Step)
    requires Shutdown(p) && Enabled(p, s)
    ensures Shutdown(Apply(p, s))
  {
  }

  /** Every step keeps the invariant. */
  lemma {:induction false} NextInv(p: Pool, s: Step)
    requires Inv(p) && Enabled(p, s)
    ensures Inv(Apply(p, s))
  {
    StepKeepsWakeups(p, s);
    StepKeepsHistory(p, s);
    StepKeepsShutdown(p, s);
  }

  lemma {:induction false} ReachableInv(states: seq<Pool>, steps: seq<Step>, i: nat)
    requires Behaviour(states, steps) && i < |states|
    ensures Inv(states[i])
  {
    if i == 0 {
      InitInv(states[0]);
    } else {
      ReachableInv(states, steps, i - 1);
      assert Next(states[i-1], steps[i-1], states[i-1+1]);
      NextInv(states[i-1], steps[i-1]);
    }
  }

  // ----- What the invariant gives -----

  lemma {:induction false} CountWitness(workers: seq<Worker>)
    requires Count(workers, IsWoken()) > 0
    ensures exists w :: 0 <= w < |workers| && workers[w] == Woken
  {
    if forall w :: 0 <= w < |workers| ==> workers[w] != Woken { CountNone(workers, IsWoken()); }
  }

  /** No lost wakeup: queued tasks never outnumber the woken workers while someone is blocked, so
      a queued task never coexists with blocked workers and nobody on the way. */
  lemma {:induction false} NoLostWakeup(states: seq<Pool>, steps: seq<Step>, i: nat)
    requires Behaviour(states, steps) && i < |states|
    ensures SomeBlocked(states[i]) ==>
      states[i].status == Running && |states[i].queue| <= Count(states[i].workers, IsWoken())
    ensures SomeBlocked(states[i]) && states[i].queue != [] ==>
      exists w :: 0 <= w < |states[i].workers| && states[i].workers[w] == Woken
  {
    ReachableInv(states, steps, i);
    if SomeBlocked(states[i]) && states[i].queue != [] { CountWitness(states[i].workers); }
  }

  /** First in, first out, each task at most once: what was taken is always a prefix of what was
      submitted, and what is left is the queue; each taken task is either finished or running. */
  lemma {:induction false} FirstInFirstOut(states: seq<Pool>, steps: seq<Step>, i: nat)
    requires Behaviour(states, steps) && i < |states|
    ensures states[i].submitted == states[i].taken + states[i].queue
    ensures multiset(states[i].finished) + Executing(states[i].workers) == multiset(states[i].taken)
  {
    ReachableInv(states, steps, i);
  }

  /** Nothing is accepted once the pool has left Running, nothing is dequeued once it is cancelled,
      and neither state is ever left. */
  lemma {:induction false} StoppedForGood(states: seq<Pool>, steps: seq<Step>, i: nat, j: nat)
    requires Behaviour(states, steps) && i <= j < |states| && states[i].status != Running
    ensures states[j].status != Running && states[j].stop == states[i].stop
    ensures states[j].submitted == states[i].submitted
    ensures states[i].status == CancelPending ==>
      states[j].status == CancelPending && states[j].taken == states[i].taken && states[j].queue == states[i].queue
  {
    if i < j {
      StoppedForGood(states, steps, i, j - 1);
      assert Next(states[j-1], steps[j-1], states[j-1+1]);
    }
  }

  /** `Stop(true)` cancels only on an empty queue, so when it has joined at least one worker every
      task ever submitted has been taken, in order, and has finished. */
  lemma {:induction false} StopRunsEverything(states: seq<Pool>, steps: seq<Step>, i: nat)
    requires Behaviour(states, steps) && i < |states|
    requires states[i].stop == Some(true) && states[i].workers != []
    requires forall w :: 0 <= w < |states[i].workers| ==> states[i].workers[w] == Exited
    ensures states[i].taken == states[i].submitted
    ensures multiset(states[i].finished) == multiset(states[i].submitted)
  {
    ReachableInv(states, steps, i);
    ExecutingNone(states[i].workers);
    assert states[i].workers[0] == Exited;
    assert states[i].taken + [] == states[i].taken;
  }

  // ----- Progress -----

  /** A task can be submitted at any time; a running pool queues it, a stopped one refuses it. */
  lemma {:induction false} SubmitIsPossible(p: Pool, t: Task) returns (woken: Option<nat>)
    ensures Enabled(p, Submit(t, woken))
    ensures p.status == Running ==>
      Apply(p, Submit(t, woken)).submitted == p.submitted + [t] && Apply(p, Submit(t, woken)).queue == p.queue + [t]
    ensures p.status != Running ==> Apply(p, Submit(t, woken)) == p
  {
    woken := None;
    if w :| 0 <= w < |p.workers| && p.workers[w] == Blocked { woken := Some(w); }
  }

  /** The pool can be stopped at any time; the first stop counts and leaves nobody blocked. */
  lemma {:induction false} StopIsPossible(p: Pool, wait: bool)
    ensures Enabled(p, Stop(wait))
    ensures p.status == Running ==>
      && Apply(p, Stop(wait)).status == (if wait then WaitPending else CancelPending)
      && Apply(p, Stop(wait)).stop == Some(wait) && !SomeBlocked(Apply(p, Stop(wait)))
    ensures p.status != Running ==> Apply(p, Stop(wait)) == p
  {
  }

  /** A worker that enters while there is work takes the oldest task, unless the pool is cancelled. */
  lemma {:induction false} EnterTakes(p: Pool, w: nat)
    requires Enabled(p, Enter(w)) && p.queue != []
    ensures p.status != CancelPending ==>
      Apply(p, Enter(w)).taken == p.taken + [p.queue[0]] && Apply(p, Enter(w)).workers[w] == Busy(p.queue[0])
    ensures p.status == CancelPending ==> Apply(p, Enter(w)).workers[w] == Exited
  {
  }

  /** A pool with work or a pending stop is never stuck: some worker can move. */
  lemma {:induction false} NoDeadlock(states: seq<Pool>, steps: seq<Step>, i: nat)
    requires Behaviour(states, steps) && i < |states| && states[i].workers != []
    requires states[i].queue != [] || states[i].status != Running
    requires exists w :: 0 <= w < |states[i].workers| && states[i].workers[w] != Exited
    ensures exists w :: Enabled(states[i], Enter(w)) || Enabled(states[i], Finish(w))
  {
    var p := states[i];
    ReachableInv(states, steps, i);
    var w :| 0 <= w < |p.workers| && p.workers[w] != Exited;
    if p.workers[w] == Blocked {
      CountWitness(p.workers);
      var v :| 0 <= v < |p.workers| && p.workers[v] == Woken;
      assert Enabled(p, Enter(v));
    } else if p.workers[w].Busy? {
      assert Enabled(p, Finish(w));
    } else {
      assert Enabled(p, Enter(w));
    }
  }

  function Weight(w: Worker): nat
  {
    match w case Busy(_) => 2 case Exited => 0 case _ => 1
  }

  function TotalWeight(workers: seq<Worker>): nat
  {
    if workers == [] then 0 else TotalWeight(workers[..|workers|-1]) + Weight(workers[|workers|-1])
  }

  /** Steps the workers can still take after a stop. */
  function Remaining(p: Pool): nat
  {
    3 * |p.queue| + TotalWeight(p.workers)
  }

  lemma {:induction false} WeightUpdate(s: seq<Worker>, i: nat, x: Worker)
    requires i < |s|
    ensures TotalWeight(s[i := x]) == TotalWeight(s) - Weight(s[i]) + Weight(x)
  {
    var n := |s| - 1;
    if i == n {
      assert s[i := x][..n] == s[..n];
    } else {
      assert s[i := x][..n] == s[..n][i := x];
      WeightUpdate(s[..n], i, x);
    }
  }

  /** Shutdown terminates: after a stop every worker step uses up part of a finite budget, and by
      `NoDeadlock` a step is possible until all workers have exited. */
  lemma {:induction false} ShutdownTerminates(p: Pool, s: Step)
    requires Inv(p) && p.status != Running && Enabled(p, s)
    ensures s.Submit? || s.Stop? ==> Apply(p, s) == p
    ensures !s.Submit? && !s.Stop? ==> Remaining(Apply(p, s)) < Remaining(p)
  {
    if s.Enter? || s.Finish? {
      WeightUpdate(p.workers, s.w, Apply(p, s).workers[s.w]);
    }
  }
}
