/**
  What the fiber scheduler (src/scheduler/Scheduler.cpp) guarantees over every run:
  any number of workers, any interleaving of their steps, any yields and resumes.
*/
module Scheduler {
  import opened Basics
  import opened SchedulerModel
  import opened SchedulerInvariant
  import opened SchedulerTaskSteps
  import opened SchedulerFiberSteps
  import opened SchedulerWakeSteps

  // ----- The invariant holds in every state of every run -----

  lemma InitInv(s: State)
    requires Init(s)
    ensures Inv(s)
  {
  }

  lemma StepKeepsInv(s: State, step: Step, s': State)
    requires Inv(s) && StepTo(s, step, s')
    ensures Inv(s')
  {
    hide Inv, Enqueue, StartFiber, AwaitChild, TakeFiber, FindNoFiber, CannotAllocate, TakeCurrent, CheckHand,
      LockQueue, ScanTask, ScanYielded, ScanEnd, DeployTask, Exhaust, StartFails, YieldFiber, RegisterYield,
      CompleteFiber, KeepOrReturn, CountReturn, CheckExhausted, CoolDown, Compare, MakeRunnable, WakeOwner,
      GoToSleep, WakeUp, CanEnqueue, CanStartFiber, CanAwaitChild, CanTakeFiber, CanFindNoFiber,
      CanCannotAllocate, CanTakeCurrent, CanCheckHand, CanLockQueue, CanScanTask, CanScanYielded, CanScanEnd,
      CanDeployTask, CanExhaust, CanStartFails, CanYieldFiber, CanRegisterYield, CanCompleteFiber,
      CanKeepOrReturn, CanCountReturn, CanCheckExhausted, CanCoolDown, CanCompare, CanMakeRunnable, CanWakeOwner,
      CanGoToSleep, CanWakeUp;
    match step
    case EnqueueStep(t) => EnqueueKeeps(s, t);
    case StartFiberStep(w, f) => StartFiberKeeps(s, w, f);
    case AwaitChildStep(w, child) => AwaitChildKeeps(s, w, child);
    case TakeFiberStep(w) => TakeFiberKeeps(s, w);
    case FindNoFiberStep(w) => FindNoFiberKeeps(s, w);
    case CannotAllocateStep(w) => CannotAllocateKeeps(s, w);
    case TakeCurrentStep(w) => TakeCurrentKeeps(s, w);
    case CheckHandStep(w) => CheckHandKeeps(s, w);
    case LockQueueStep(w) => LockQueueKeeps(s, w);
    case ScanTaskStep(w) => ScanTaskKeeps(s, w);
    case ScanYieldedStep(w) => ScanYieldedKeeps(s, w);
    case ScanEndStep(w) => ScanEndKeeps(s, w);
    case DeployTaskStep(w) => DeployTaskKeeps(s, w);
    case ExhaustStep(w) => ExhaustKeeps(s, w);
    case StartFailsStep(w) => StartFailsKeeps(s, w);
    case YieldFiberStep(w) => YieldFiberKeeps(s, w);
    case RegisterYieldStep(w) => RegisterYieldKeeps(s, w);
    case CompleteFiberStep(w) => CompleteFiberKeeps(s, w);
    case KeepOrReturnStep(w) => KeepOrReturnKeeps(s, w);
    case CountReturnStep(w) => CountReturnKeeps(s, w);
    case CheckExhaustedStep(w) => CheckExhaustedKeeps(s, w);
    case CoolDownStep(w) => CoolDownKeeps(s, w);
    case CompareStep(w) => CompareKeeps(s, w);
    case MakeRunnableStep(w) => MakeRunnableKeeps(s, w);
    case WakeOwnerStep(w) => WakeOwnerKeeps(s, w);
    case GoToSleepStep(w) => GoToSleepKeeps(s, w);
    case WakeUpStep(w) => WakeUpKeeps(s, w);
  }

  lemma {:induction false} RunInv(trace: seq<State>, i: nat)
    requires Run(trace) && i < |trace|
    ensures Inv(trace[i])
  {
    hide Inv, StepTo, Init;
    if i == 0 {
      InitInv(trace[0]);
    } else {
      RunInv(trace, i - 1);
      assert Next(trace[i - 1], trace[i - 1 + 1]);
      var step :| StepTo(trace[i - 1], step, trace[i]);
      StepKeepsInv(trace[i - 1], step, trace[i]);
    }
  }

  /** A state that some run of the scheduler passes through. */
  ghost predicate Reachable(s: State)
  {
    exists trace, i :: Run(trace) && 0 <= i < |trace| && trace[i] == s
  }

  lemma ReachableInv(s: State)
    requires Reachable(s)
    ensures Inv(s)
  {
    hide Inv, Init;
    var trace, i :| Run(trace) && 0 <= i < |trace| && trace[i] == s;
    RunInv(trace, i);
  }

  // ----- Finalization -----

  /** Nobody holds task `t`, runs or parks a fiber of it, or is about to finalize it. */
  ghost predicate Settled(s: State, t: TaskId)
  {
    && t in s.tasks && t !in s.queue && s.tasks[t].coolingDown
    && (forall w :: 0 <= w < |s.workers| ==> Hand(s.workers[w].pc) != Some(t) && s.workers[w].currentTask != Some(t))
    && (forall w :: 0 <= w < |s.workers| ==> Return(s.workers[w].pc) != Some((t, s.tasks[t].deployed)))
    && (forall f :: f in s.fibers ==> s.fibers[f].task != t)
  }

  /** An unfinished fiber keeps its task deployed: either it has yielded, or its worker holds the task. */
  lemma UnfinishedFiberHolds(s: State, f: FiberId)
    requires Inv(s) && f in s.fibers
    ensures var t := s.fibers[f].task; t in s.tasks && s.tasks[t].returned < s.tasks[t].deployed
  {
    hide QueueOk, LockOk, ReturnsOk, FinalOk, RunnablesOk, WaitingsOk, WaitersOk, UnitsOk, SleepGroupOk;
    var x := s.fibers[f];
    assert FiberOk(s.tasks, s.workers, f, x);
    if x.detached {
      assert f in FibersWith(s.fibers, DetachedOf(x.task));
    } else {
      assert OnWorkerOk(s.fibers, x.owner, s.workers[x.owner]);
      assert x.owner in WorkersWith(s.workers, HandIs(x.task));
    }
  }

  lemma DoneWhenFinalized(s: State, t: TaskId)
    requires Inv(s) && t in s.tasks && s.tasks[t].finalized
    ensures Settled(s, t)
    ensures s.tasks[t].deployed == s.tasks[t].returned && Holders(s.workers, s.fibers, t) == 0
    ensures s.tasks[t].reserved == s.tasks[t].performed && s.tasks[t].nonCompletedFibers == 0
    ensures s.tasks[t].exhausted && s.tasks[t].finalizations == 1
  {
    hide LockOk, ReturnsOk, FiberGroupOk, SleepGroupOk;
    assert TaskOk(s.workers, t, s.tasks[t]);
    forall w | 0 <= w < |s.workers|
      ensures Hand(s.workers[w].pc) != Some(t) && s.workers[w].currentTask != Some(t)
    {
      assert HandIs(t)(s.workers[w]) ==> w in WorkersWith(s.workers, HandIs(t));
      assert CurrentIs(t)(s.workers[w]) ==> w in WorkersWith(s.workers, CurrentIs(t));
    }
    forall f | f in s.fibers
      ensures s.fibers[f].task != t
    {
      UnfinishedFiberHolds(s, f);
    }
    assert FibersWith(s.fibers, OfTask(t)) == {};
  }

  /**
    Whenever onFinalize has run for a task, it ran once, every deployment had been
    returned, and every unit of work reserved by allocateWork had been performed.
  */
  lemma FinalizedMeansDone(s: State, t: TaskId)
    requires Reachable(s) && t in s.tasks && s.tasks[t].finalized
    ensures s.tasks[t].finalizations == 1 && s.tasks[t].exhausted && t !in s.queue
    ensures s.tasks[t].deployed == s.tasks[t].returned && Holders(s.workers, s.fibers, t) == 0
    ensures s.tasks[t].reserved == s.tasks[t].performed && s.tasks[t].nonCompletedFibers == 0
  {
    hide Reachable;
    ReachableInv(s);
    DoneWhenFinalized(s, t);
  }

  ghost predicate Untouched(s: State, s': State, t: TaskId)
  {
    t in s.tasks && t in s'.tasks && s'.tasks[t] == s.tasks[t]
  }

  lemma ScanLeaves(s: State, w: WorkerId, t: TaskId)
    requires QueueOk(s) && LockOk(s) && Settled(s, t)
    ensures CanScanTask(s, w) ==> Untouched(s, ScanTask(s, w), t)
    ensures CanDeployTask(s, w) ==> Untouched(s, DeployTask(s, w), t)
  {
  }

  lemma ReturnLeaves(s: State, w: WorkerId, t: TaskId)
    requires Settled(s, t)
    ensures CanExhaust(s, w) ==> Untouched(s, Exhaust(s, w), t)
    ensures CanCountReturn(s, w) ==> Untouched(s, CountReturn(s, w), t)
    ensures CanCoolDown(s, w) ==> Untouched(s, CoolDown(s, w), t)
    ensures CanCompare(s, w) ==> Untouched(s, Compare(s, w), t)
  {
  }

  lemma WorkLeaves(s: State, w: WorkerId, t: TaskId)
    requires Settled(s, t)
    ensures CanRegisterYield(s, w) ==> Untouched(s, RegisterYield(s, w), t)
    ensures CanCompleteFiber(s, w) ==> Untouched(s, CompleteFiber(s, w), t)
    ensures CanKeepOrReturn(s, w) ==> Untouched(s, KeepOrReturn(s, w), t)
    ensures CanStartFails(s, w) ==> Untouched(s, StartFails(s, w), t)
    ensures CanYieldFiber(s, w) ==> Untouched(s, YieldFiber(s, w), t)
  {
  }

  lemma MoveLeaves(s: State, w: WorkerId, t: TaskId)
    requires Settled(s, t)
    ensures CanTakeFiber(s, w) ==> Untouched(s, TakeFiber(s, w), t)
    ensures CanFindNoFiber(s, w) ==> Untouched(s, FindNoFiber(s, w), t)
    ensures CanCannotAllocate(s, w) ==> Untouched(s, CannotAllocate(s, w), t)
    ensures CanTakeCurrent(s, w) ==> Untouched(s, TakeCurrent(s, w), t)
    ensures CanCheckHand(s, w) ==> Untouched(s, CheckHand(s, w), t)
    ensures CanLockQueue(s, w) ==> Untouched(s, LockQueue(s, w), t)
    ensures CanScanYielded(s, w) ==> Untouched(s, ScanYielded(s, w), t)
    ensures CanScanEnd(s, w) ==> Untouched(s, ScanEnd(s, w), t)
  {
  }

  lemma WakeLeaves(s: State, w: WorkerId, t: TaskId)
    requires Settled(s, t)
    ensures CanCheckExhausted(s, w) ==> Untouched(s, CheckExhausted(s, w), t)
    ensures CanMakeRunnable(s, w) ==> Untouched(s, MakeRunnable(s, w), t)
    ensures CanWakeOwner(s, w) ==> Untouched(s, WakeOwner(s, w), t)
    ensures CanGoToSleep(s, w) ==> Untouched(s, GoToSleep(s, w), t)
    ensures CanWakeUp(s, w) ==> Untouched(s, WakeUp(s, w), t)
  {
  }

  lemma NewLeaves(s: State, t: TaskId)
    requires Settled(s, t)
    ensures forall u :: CanEnqueue(s, u) ==> Untouched(s, Enqueue(s, u), t)
    ensures forall w, f :: CanStartFiber(s, w, f) ==> Untouched(s, StartFiber(s, w, f), t)
    ensures forall w, u :: CanAwaitChild(s, w, u) ==> Untouched(s, AwaitChild(s, w, u), t)
  {
  }

  /** No step touches a settled task. */
  lemma SettledStays(s: State, step: Step, s': State, t: TaskId)
    requires QueueOk(s) && LockOk(s) && Settled(s, t) && StepTo(s, step, s')
    ensures Untouched(s, s', t)
  {
    hide QueueOk, LockOk, Settled, Untouched, Enqueue, StartFiber, AwaitChild, TakeFiber, FindNoFiber,
      CannotAllocate, TakeCurrent, CheckHand, LockQueue, ScanTask, ScanYielded, ScanEnd, DeployTask, Exhaust,
      StartFails, YieldFiber, RegisterYield, CompleteFiber, KeepOrReturn, CountReturn, CheckExhausted, CoolDown,
      Compare, MakeRunnable, WakeOwner, GoToSleep, WakeUp, CanEnqueue, CanStartFiber, CanAwaitChild, CanTakeFiber,
      CanFindNoFiber, CanCannotAllocate, CanTakeCurrent, CanCheckHand, CanLockQueue, CanScanTask, CanScanYielded,
      CanScanEnd, CanDeployTask, CanExhaust, CanStartFails, CanYieldFiber, CanRegisterYield, CanCompleteFiber,
      CanKeepOrReturn, CanCountReturn, CanCheckExhausted, CanCoolDown, CanCompare, CanMakeRunnable, CanWakeOwner,
      CanGoToSleep, CanWakeUp;
    if step.EnqueueStep? || step.StartFiberStep? || step.AwaitChildStep? {
      NewLeaves(s, t);
    } else {
      ScanLeaves(s, step.w, t);
      ReturnLeaves(s, step.w, t);
      WorkLeaves(s, step.w, t);
      MoveLeaves(s, step.w, t);
      WakeLeaves(s, step.w, t);
    }
  }

  /** onFinalize runs at most once: in a run, a finalized task stays as it was when it was finalized. */
  lemma {:induction false} FinalizedForever(trace: seq<State>, i: nat, j: nat, t: TaskId)
    requires Run(trace) && i <= j < |trace|
    requires t in trace[i].tasks && trace[i].tasks[t].finalized
    ensures t in trace[j].tasks && trace[j].tasks[t] == trace[i].tasks[t]
  {
    hide Inv, StepTo, Init, Settled, QueueOk, LockOk;
    if i >= j {
    } else {
      FinalizedForever(trace, i, j - 1, t);
      var s := trace[j - 1];
      RunInv(trace, j - 1);
      DoneWhenFinalized(s, t);
      InvQueue(s);
      assert Next(trace[j - 1], trace[j - 1 + 1]);
      var step :| StepTo(s, step, trace[j]);
      SettledStays(s, step, trace[j], t);
    }
  }

  lemma InvQueue(s: State)
    requires Inv(s)
    ensures QueueOk(s) && LockOk(s)
  {
  }

  /** In every run onFinalize has run at most once per task, and only for a task that is done. */
  lemma FinalizedAtMostOnce(trace: seq<State>, i: nat, t: TaskId)
    requires Run(trace) && i < |trace| && t in trace[i].tasks
    ensures trace[i].tasks[t].finalizations <= 1
    ensures trace[i].tasks[t].finalizations == 1 ==>
      var x := trace[i].tasks[t]; x.deployed == x.returned && x.reserved == x.performed
  {
    RunInv(trace, i);
    FinalizationsCounted(trace[i], t);
    if trace[i].tasks[t].finalized {
      DoneWhenFinalized(trace[i], t);
    }
  }

  lemma FinalizationsCounted(s: State, t: TaskId)
    requires Inv(s) && t in s.tasks
    ensures s.tasks[t].finalizations == Bit(s.tasks[t].finalized)
  {
    assert TaskOk(s.workers, t, s.tasks[t]);
  }

  /** An exhausted task that nobody holds and nobody is returning has been finalized and has left the queue. */
  lemma NeverOrphaned(s: State, t: TaskId)
    requires Reachable(s) && t in s.tasks && s.tasks[t].exhausted
    requires Holders(s.workers, s.fibers, t) == 0
    requires forall w :: 0 <= w < |s.workers| && Return(s.workers[w].pc).Some? ==> Return(s.workers[w].pc).value.0 != t
    ensures s.tasks[t].finalized && t !in s.queue
  {
    hide Reachable, LockOk, ReturnsOk, FiberGroupOk, SleepGroupOk, HandsOk, UnitsOk;
    ReachableInv(s);
    assert TaskOk(s.workers, t, s.tasks[t]);
  }

  // ----- Fibers -----

  /**
    A fiber is only resumed by the worker that owns it, after it has yielded, and
    after the task it awaited was finalized: when awaitChildTask returns, every unit
    of the child's work has been performed.
  */
  lemma AwaitReturnsAfterChild(s: State, w: WorkerId)
    requires Reachable(s) && CanTakeFiber(s, w)
    ensures var f := s.workers[w].runnable[0];
      && s.fibers[f].owner == w && !s.fibers[f].running && s.fibers[f].awaits.Some?
      && var c := s.fibers[f].awaits.value;
      && c in s.tasks && s.tasks[c].finalized && s.tasks[c].reserved == s.tasks[c].performed
  {
    hide Reachable, ControlOk, HandsOk, CountsOk, UnitsOk, SleepGroupOk, FibersOk, ActiveOk, WaitingsOk, WaitersOk;
    ReachableInv(s);
    var f := s.workers[w].runnable[0];
    assert f in s.workers[w].runnable;
    assert RunnableOk(s.tasks, s.fibers, w, f);
    DoneWhenFinalized(s, s.fibers[f].awaits.value);
  }

  /** A made-runnable fiber is never lost: its sleeping worker is about to be woken by the finalizer that pushed it. */
  lemma RunnableNeverLost(s: State, w: WorkerId)
    requires Reachable(s) && w < |s.workers| && s.workers[w].runnable != []
    requires s.workers[w].pc.Asleep? && s.workers[w].shouldSleep
    ensures exists v :: 0 <= v < |s.workers| && s.workers[v].pc == Waking(w)
  {
    hide Reachable, ControlOk, HandsOk, CountsOk, FiberGroupOk, UnitsOk, IdleOk;
    ReachableInv(s);
    assert AwakeOk(s.workers, w);
  }

  /** Lines 474, 611 and 612: nobody finalizes twice, and the finalizer finds the fiber it is to wake. */
  lemma FinalizerAssertions(s: State, w: WorkerId)
    requires Reachable(s) && w < |s.workers|
    ensures var pc := s.workers[w].pc;
      && (pc.Comparing? && pc.t in s.tasks && s.tasks[pc.t].deployed == pc.num ==> !s.tasks[pc.t].finalized)
      && (pc.Finalizing? ==> FinalizerOk(s.tasks, s.workers, pc.t))
  {
    hide Reachable, QueueOk, LockOk, HandsOk, CountsOk, UnitsOk, SleepGroupOk, FibersOk, ActiveOk, RunnablesOk,
      WaitingsOk,
      FinalizerOk;
    ReachableInv(s);
    var pc := s.workers[w].pc;
    assert pc.Comparing? && pc.t in s.tasks ==> TaskOk(s.workers, pc.t, s.tasks[pc.t]);
  }

  lemma {:induction false} DistinctBelow(q: seq<nat>, n: nat)
    requires NoDup(q) && forall x :: x in q ==> x < n
    ensures |q| <= n
    decreases n
  {
    if q == [] {
    } else {
      assert q[0] in q;
      if n - 1 in q {
        DequeueOk(q, n - 1);
        DequeueLength(q, n - 1);
        DistinctBelow(Dequeue(q, n - 1), n - 1);
      } else {
        DistinctBelow(q, n - 1);
      }
    }
  }

  lemma {:induction false} DequeueLength(q: seq<TaskId>, t: TaskId)
    requires t in q
    ensures |Dequeue(q, t)| == |q| - 1
  {
    if q[0] == t {
    } else {
      DequeueLength(q[1..], t);
    }
  }

  /** Lines 861 and 835: the idle list never holds more entries than there are workers. */
  lemma IdleListBounded(s: State)
    requires Reachable(s)
    ensures |s.idle| <= |s.workers|
  {
    ReachableInv(s);
    DistinctBelow(s.idle, |s.workers|);
  }

  // ----- Progress -----

  /** Worker `w` has a step of its own. */
  ghost predicate CanMove(s: State, w: WorkerId)
  {
    || CanTakeFiber(s, w)
    || CanFindNoFiber(s, w)
    || CanCannotAllocate(s, w)
    || CanTakeCurrent(s, w)
    || CanCheckHand(s, w)
    || CanLockQueue(s, w)
    || CanScanTask(s, w)
    || CanScanYielded(s, w)
    || CanScanEnd(s, w)
    || CanDeployTask(s, w)
    || CanExhaust(s, w)
    || CanStartFails(s, w)
    || CanYieldFiber(s, w)
    || CanRegisterYield(s, w)
    || CanCompleteFiber(s, w)
    || CanKeepOrReturn(s, w)
    || CanCountReturn(s, w)
    || CanCheckExhausted(s, w)
    || CanCoolDown(s, w)
    || CanCompare(s, w)
    || CanMakeRunnable(s, w)
    || CanWakeOwner(s, w)
    || CanGoToSleep(s, w)
    || CanWakeUp(s, w)
  }

  /** The only ways to wait: for the queue mutex, in the spin loop of onFinalize, and asleep. */
  ghost predicate Waits(s: State, w: WorkerId)
    requires w < |s.workers|
  {
    var pc := s.workers[w].pc;
    || ((pc.NeedTask? || pc.Cooling? || pc.Drowsy?) && s.queueLock.Some?)
    || (pc.Finalizing? && pc.t in s.tasks && s.tasks[pc.t].waiter.Some?
      && !FiberYielded(s, s.tasks[pc.t].waiter.value, pc.t))
    || (pc.Asleep? && s.workers[w].shouldSleep)
  }

  lemma MovesUnlessWaiting(s: State, w: WorkerId)
    requires Inv(s) && w < |s.workers| && !Waits(s, w)
    ensures CanMove(s, w)
  {
    hide CountsOk, UnitsOk, SleepGroupOk, FinalOk;
    var pc := s.workers[w].pc;
    assert HandOk(s.tasks, s.workers[w]) && ReturnOk(s.tasks, pc) && ScanOk(s.queue, pc);
    if pc.Top? && s.workers[w].runnable != [] {
      assert s.workers[w].runnable[0] in s.workers[w].runnable;
    }
  }

  /**
    The mutex holder and the fiber spun upon can always go on, so the scheduler never deadlocks
    while somebody is awake.
  */
  lemma NeverDeadlocked(s: State, w: WorkerId)
    requires Reachable(s) && w < |s.workers| && !(s.workers[w].pc.Asleep? && s.workers[w].shouldSleep)
    ensures exists v :: 0 <= v < |s.workers| && CanMove(s, v)
  {
    hide Reachable, CountsOk, UnitsOk, SleepGroupOk, FinalOk, ReturnsOk, QueueOk, HandsOk, FibersOk, ActiveOk,
      RunnablesOk, CanMove;
    ReachableInv(s);
    var pc := s.workers[w].pc;
    if !Waits(s, w) {
      MovesUnlessWaiting(s, w);
    } else if pc.Finalizing? {
      var v := s.tasks[pc.t].waiter.value;
      assert FinalizerOk(s.tasks, s.workers, pc.t);
      assert WaitingOk(s.tasks, s.fibers, v, s.workers[v], pc.t);
      MovesUnlessWaiting(s, v);
    } else {
      MovesUnlessWaiting(s, s.queueLock.value);
    }
  }
}
