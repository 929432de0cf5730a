/**
  The steps of the scheduler that enqueue tasks, make parked fibers runnable, and
  put workers to sleep and wake them keep the invariant (src/scheduler/Scheduler.cpp).
*/
module SchedulerWakeSteps {
  import opened Basics
  import opened SchedulerModel
  import opened SchedulerInvariant
  import opened SchedulerFrames

  // ----- Enqueueing a new task -----

  /** A task nobody knows yet is held by nobody. */
  lemma NewTaskUnheld(s: State, t: TaskId)
    requires HandsOk(s) && t !in s.tasks && forall f :: f in s.fibers ==> s.fibers[f].task in s.tasks
    ensures Holders(s.workers, s.fibers, t) == 0
    ensures |FibersWith(s.fibers, OfTask(t))| == 0 && |FibersWith(s.fibers, RegisteredOf(t))| == 0
  {
    assert forall w :: 0 <= w < |s.workers| ==> HandOk(s.tasks, s.workers[w]);
    assert WorkersWith(s.workers, HandIs(t)) == {} && WorkersWith(s.workers, CurrentIs(t)) == {};
    assert FibersWith(s.fibers, DetachedOf(t)) == {} && FibersWith(s.fibers, OfTask(t)) == {};
    assert FibersWith(s.fibers, RegisteredOf(t)) == {};
  }

  /** Enqueueing changes workers only in the flags that wake them. */
  lemma HoldersEnqueued(s: State, t: TaskId, x: Task, u: TaskId)
    ensures Holders(EnqueueTask(s, t, x).workers, s.fibers, u) == Holders(s.workers, s.fibers, u)
  {
    var ws, ws' := s.workers, EnqueueTask(s, t, x).workers;
    assert WorkersWith(ws', HandIs(u)) == WorkersWith(ws, HandIs(u));
    assert WorkersWith(ws', CurrentIs(u)) == WorkersWith(ws, CurrentIs(u));
  }

  lemma CountsEnqueued(s: State, t: TaskId, waiter: Option<WorkerId>)
    requires CountsOk(s) && UnitsOk(s) && HandsOk(s) && t !in s.tasks
    requires forall f :: f in s.fibers ==> s.fibers[f].task in s.tasks
    ensures CountsOk(EnqueueTask(s, t, NewTask(waiter))) && UnitsOk(EnqueueTask(s, t, NewTask(waiter)))
  {
    var s' := EnqueueTask(s, t, NewTask(waiter));
    NewTaskUnheld(s, t);
    forall u | u in s'.tasks
      ensures s'.tasks[u].deployed == s'.tasks[u].returned + Holders(s'.workers, s'.fibers, u)
    {
      HoldersEnqueued(s, t, NewTask(waiter), u);
    }
  }

  lemma QueueEnqueued(s: State, t: TaskId, x: Task)
    requires QueueOk(s) && LockOk(s) && s.queueLock == None && t !in s.tasks && !x.coolingDown
    ensures QueueOk(EnqueueTask(s, t, x)) && LockOk(EnqueueTask(s, t, x))
  {
  }

  lemma ReturnEnqueued(s: State, t: TaskId, waiter: Option<WorkerId>)
    requires ReturnsOk(s) && FinalOk(s) && t !in s.tasks
    ensures ReturnsOk(EnqueueTask(s, t, NewTask(waiter))) && FinalOk(EnqueueTask(s, t, NewTask(waiter)))
  {
  }

  lemma HandsEnqueued(s: State, t: TaskId, x: Task)
    requires HandsOk(s)
    ensures HandsOk(EnqueueTask(s, t, x))
  {
    var s' := EnqueueTask(s, t, x);
    forall v | 0 <= v < |s'.workers|
      ensures HandOk(s'.tasks, s'.workers[v])
    {
      assert HandOk(s.tasks, s.workers[v]);
    }
  }

  /** Every idle worker leaves the list, so the list never holds more workers than there are. */
  lemma SleepEnqueued(s: State, t: TaskId, x: Task)
    requires SleepGroupOk(s)
    ensures SleepGroupOk(EnqueueTask(s, t, x))
  {
    var s' := EnqueueTask(s, t, x);
    forall v | 0 <= v < |s'.workers| && s'.workers[v].runnable != []
      ensures AwakeOk(s'.workers, v)
    {
      assert AwakeOk(s.workers, v);
    }
  }

  lemma FibersEnqueued(s: State, t: TaskId, x: Task)
    requires FibersOk(s) && ActiveOk(s)
    ensures FibersOk(EnqueueTask(s, t, x)) && ActiveOk(EnqueueTask(s, t, x))
  {
  }

  lemma ParkedEnqueued(s: State, t: TaskId, x: Task)
    requires RunnablesOk(s) && WaitingsOk(s) && t !in s.tasks
    ensures RunnablesOk(EnqueueTask(s, t, x)) && WaitingsOk(EnqueueTask(s, t, x))
  {
  }

  lemma WaitersEnqueued(s: State, t: TaskId, waiter: Option<WorkerId>)
    requires WaitersOk(s) && t !in s.tasks
    requires waiter.Some? ==> waiter.value < |s.workers| && t in s.workers[waiter.value].waiting
    ensures WaitersOk(EnqueueTask(s, t, NewTask(waiter)))
  {
  }

  lemma FiberTasksExist(s: State)
    requires FibersOk(s)
    ensures forall f :: f in s.fibers ==> s.fibers[f].task in s.tasks
  {
    assert forall f :: f in s.fibers ==> FiberOk(s.tasks, s.workers, f, s.fibers[f]);
  }

  lemma EnqueueKeeps(s: State, t: TaskId)
    requires Inv(s) && CanEnqueue(s, t)
    ensures Inv(Enqueue(s, t))
  {
    hide QueueOk, LockOk, ReturnsOk, FinalOk, HandsOk, CountsOk, FibersOk, ActiveOk, RunnablesOk, WaitingsOk,
      WaitersOk, UnitsOk, SleepGroupOk;
    QueueEnqueued(s, t, NewTask(None));
    ReturnEnqueued(s, t, None);
    HandsEnqueued(s, t, NewTask(None));
    FiberTasksExist(s);
    CountsEnqueued(s, t, None);
    FibersEnqueued(s, t, NewTask(None));
    ParkedEnqueued(s, t, NewTask(None));
    WaitersEnqueued(s, t, None);
    SleepEnqueued(s, t, NewTask(None));
  }

  // ----- awaitChildTask -----

  lemma FibersAwaitChild(s: State, w: WorkerId, child: TaskId)
    requires FibersOk(s) && ActiveOk(s) && WaitingsOk(s) && CanAwaitChild(s, w, child)
    ensures FibersOk(AwaitChild(s, w, child))
  {
  }

  lemma ActiveAwaitChild(s: State, w: WorkerId, child: TaskId)
    requires ActiveOk(s) && CanAwaitChild(s, w, child)
    ensures ActiveOk(AwaitChild(s, w, child))
  {
  }

  lemma RunnablesAwaitChild(s: State, w: WorkerId, child: TaskId)
    requires RunnablesOk(s) && ActiveOk(s) && CanAwaitChild(s, w, child)
    ensures RunnablesOk(AwaitChild(s, w, child))
  {
  }

  lemma WaitingAwaitChild(s: State, w: WorkerId, child: TaskId, v: WorkerId, c: TaskId)
    requires WaitingsOk(s) && ActiveOk(s) && RunnablesOk(s) && CanAwaitChild(s, w, child) && v < |s.workers|
    ensures var s' := AwaitChild(s, w, child);
      |s'.workers| == |s.workers| &&
      (c in s'.workers[v].waiting ==> WaitingOk(s'.tasks, s'.fibers, v, s'.workers[v], c))
  {
    if c in s.workers[v].waiting {
      assert WaitingOk(s.tasks, s.fibers, v, s.workers[v], c);
    }
  }

  lemma WaitingsAwaitChild(s: State, w: WorkerId, child: TaskId)
    requires WaitingsOk(s) && ActiveOk(s) && RunnablesOk(s) && CanAwaitChild(s, w, child)
    ensures WaitingsOk(AwaitChild(s, w, child))
  {
    hide WaitingOk;
    var s' := AwaitChild(s, w, child);
    forall v, c | 0 <= v < |s'.workers| && c in s'.workers[v].waiting
      ensures WaitingOk(s'.tasks, s'.fibers, v, s'.workers[v], c)
    {
      WaitingAwaitChild(s, w, child, v, c);
    }
  }

  lemma WaitersPark(s: State, w: WorkerId, child: TaskId)
    requires WaitersOk(s) && CanAwaitChild(s, w, child)
    ensures WaitersOk(Park(s, w, child))
  {
  }

  lemma HandsPark(s: State, w: WorkerId, child: TaskId)
    requires HandsOk(s) && CanAwaitChild(s, w, child)
    ensures HandsOk(Park(s, w, child))
  {
  }

  lemma StepPark(s: State, w: WorkerId, child: TaskId)
    requires FibersOk(s) && ActiveOk(s) && CanAwaitChild(s, w, child)
    ensures var f := s.workers[w].pc.f; FiberStep(s, Park(s, w, child), w, f, s.fibers[f].task)
    ensures SameSleep(s, Park(s, w, child))
  {
  }

  /** Parking the fiber moves nothing the scheduler counts. */
  lemma ParkKeeps(s: State, w: WorkerId, child: TaskId)
    requires Inv(s) && CanAwaitChild(s, w, child)
    ensures var s' := Park(s, w, child);
      ControlOk(s') && HandsOk(s') && CountsOk(s') && UnitsOk(s') && SleepGroupOk(s') && WaitersOk(s')
    ensures forall f :: f in Park(s, w, child).fibers ==> Park(s, w, child).fibers[f].task in s.tasks
  {
    hide ControlOk, HandsOk, CountsOk, FibersOk, ActiveOk, RunnablesOk, WaitingsOk, WaitersOk, UnitsOk, SleepGroupOk,
      SameSleep, DifferAt, OnlyMoved;
    var s' := Park(s, w, child);
    var f := s.workers[w].pc.f;
    StepPark(s, w, child);
    FiberTasksExist(s);
    FiberStepControl(s, s', w, f, s.fibers[f].task);
    FiberStepCounts(s, s', w, f, s.fibers[f].task);
    HandsPark(s, w, child);
    WaitersPark(s, w, child);
    SleepFrame(s, s', w);
  }

  lemma AwaitChildKeeps(s: State, w: WorkerId, child: TaskId)
    requires Inv(s) && CanAwaitChild(s, w, child)
    ensures Inv(AwaitChild(s, w, child))
  {
    hide QueueOk, LockOk, ReturnsOk, FinalOk, HandsOk, CountsOk, FibersOk, ActiveOk, RunnablesOk, WaitingsOk,
      WaitersOk, UnitsOk, SleepGroupOk;
    var s' := Park(s, w, child);
    ParkKeeps(s, w, child);
    QueueEnqueued(s', child, NewTask(Some(w)));
    ReturnEnqueued(s', child, Some(w));
    HandsEnqueued(s', child, NewTask(Some(w)));
    CountsEnqueued(s', child, Some(w));
    WaitersEnqueued(s', child, Some(w));
    SleepEnqueued(s', child, NewTask(Some(w)));
    FibersAwaitChild(s, w, child);
    ActiveAwaitChild(s, w, child);
    RunnablesAwaitChild(s, w, child);
    WaitingsAwaitChild(s, w, child);
  }

  // ----- onFinalize -----

  lemma FiberMakeRunnable(s: State, w: WorkerId, f: FiberId)
    requires f in s.fibers && FiberOk(s.tasks, s.workers, f, s.fibers[f]) && CanMakeRunnable(s, w)
    ensures var s' := MakeRunnable(s, w); f in s'.fibers && FiberOk(s'.tasks, s'.workers, f, s'.fibers[f])
  {
  }

  lemma SameFibersMakeRunnable(s: State, w: WorkerId)
    requires CanMakeRunnable(s, w)
    ensures MakeRunnable(s, w).fibers == s.fibers && MakeRunnable(s, w).tasks == s.tasks
  {
  }

  lemma FibersMakeRunnable(s: State, w: WorkerId)
    requires FibersOk(s) && CanMakeRunnable(s, w)
    ensures FibersOk(MakeRunnable(s, w))
  {
    hide FiberOk, MakeRunnable, CanMakeRunnable;
    var s' := MakeRunnable(s, w);
    SameFibersMakeRunnable(s, w);
    forall f | f in s'.fibers
      ensures FiberOk(s'.tasks, s'.workers, f, s'.fibers[f])
    {
      FiberMakeRunnable(s, w, f);
    }
  }

  lemma ActiveAtMakeRunnable(s: State, w: WorkerId, v: WorkerId)
    requires ActiveOk(s) && WaitingsOk(s) && CanMakeRunnable(s, w) && v < |s.workers| && v != w
    requires OnWorker(s.workers[v].pc).Some?
    ensures var s' := MakeRunnable(s, w);
      |s'.workers| == |s.workers| && s'.workers[v].pc == s.workers[v].pc && OnWorkerOk(s'.fibers, v, s'.workers[v])
  {
    assert OnWorkerOk(s.fibers, v, s.workers[v]);
    var c := s.workers[w].pc.t;
    if c in s.workers[v].waiting {
      assert WaitingOk(s.tasks, s.fibers, v, s.workers[v], c);
    }
  }

  lemma ActiveMakeRunnable(s: State, w: WorkerId)
    requires ActiveOk(s) && WaitingsOk(s) && CanMakeRunnable(s, w)
    ensures ActiveOk(MakeRunnable(s, w))
  {
    hide WaitingOk;
    var s' := MakeRunnable(s, w);
    forall v | 0 <= v < |s'.workers|
      ensures OnWorker(s'.workers[v].pc).Some? ==> OnWorkerOk(s'.fibers, v, s'.workers[v])
      ensures s'.workers[v].pc.Yielded? ==> JustYieldedOk(s'.fibers, v, s'.workers[v].pc.f)
    {
      if OnWorker(s'.workers[v].pc).Some? {
        ActiveAtMakeRunnable(s, w, v);
      }
    }
  }

  lemma RunnablesMakeRunnable(s: State, w: WorkerId)
    requires RunnablesOk(s) && WaitingsOk(s) && WaitersOk(s) && CanMakeRunnable(s, w)
    ensures RunnablesOk(MakeRunnable(s, w))
  {
  }

  lemma WaitingsMakeRunnable(s: State, w: WorkerId)
    requires WaitingsOk(s) && CanMakeRunnable(s, w)
    ensures WaitingsOk(MakeRunnable(s, w))
  {
  }

  lemma WaiterMakeRunnable(s: State, w: WorkerId, c: TaskId)
    requires WaitersOk(s) && CanMakeRunnable(s, w) && c in s.tasks && s.tasks[c].waiter.Some?
    ensures WaiterOk(MakeRunnable(s, w).workers, c, s.tasks[c])
  {
    assert WaiterOk(s.workers, c, s.tasks[c]);
    if c == s.workers[w].pc.t {
      assert FinalizerOk(s.tasks, s.workers, c);
    }
  }

  lemma WaitersMakeRunnable(s: State, w: WorkerId)
    requires WaitersOk(s) && CanMakeRunnable(s, w)
    ensures WaitersOk(MakeRunnable(s, w))
  {
    hide WaiterOk;
    var s' := MakeRunnable(s, w);
    SameFibersMakeRunnable(s, w);
    forall c | c in s'.tasks && s'.tasks[c].waiter.Some?
      ensures WaiterOk(s'.workers, c, s'.tasks[c])
    {
      WaiterMakeRunnable(s, w, c);
    }
    forall v | 0 <= v < |s'.workers| && s'.workers[v].pc.Finalizing?
      ensures FinalizerOk(s'.tasks, s'.workers, s'.workers[v].pc.t)
    {
      assert FinalizerOk(s.tasks, s.workers, s.workers[v].pc.t);
    }
  }

  /** From the push on, the finalizer is between the push and the wake-up. */
  lemma SleepMakeRunnable(s: State, w: WorkerId)
    requires SleepGroupOk(s) && CanMakeRunnable(s, w)
    ensures SleepGroupOk(MakeRunnable(s, w))
  {
    var s' := MakeRunnable(s, w);
    forall v | 0 <= v < |s'.workers| && s'.workers[v].runnable != []
      ensures AwakeOk(s'.workers, v)
    {
      assert s.workers[v].runnable != [] ==> AwakeOk(s.workers, v);
    }
  }

  lemma HandsMakeRunnable(s: State, w: WorkerId)
    requires HandsOk(s) && CanMakeRunnable(s, w)
    ensures HandsOk(MakeRunnable(s, w))
  {
  }

  lemma MovedMakeRunnable(s: State, w: WorkerId)
    requires CanMakeRunnable(s, w)
    ensures OnlyMoved(s, MakeRunnable(s, w), w)
    ensures MakeRunnable(s, w).workers[w].currentTask == s.workers[w].currentTask
  {
  }

  lemma MakeRunnableKeeps(s: State, w: WorkerId)
    requires Inv(s) && CanMakeRunnable(s, w)
    ensures Inv(MakeRunnable(s, w))
  {
    hide ControlOk, HandsOk, CountsOk, FibersOk, ActiveOk, RunnablesOk, WaitingsOk, WaitersOk, UnitsOk, SleepGroupOk,
      OnlyMoved;
    var s' := MakeRunnable(s, w);
    MovedMakeRunnable(s, w);
    FibersMakeRunnable(s, w);
    ActiveMakeRunnable(s, w);
    RunnablesMakeRunnable(s, w);
    WaitingsMakeRunnable(s, w);
    WaitersMakeRunnable(s, w);
    SleepMakeRunnable(s, w);
    HandsMakeRunnable(s, w);
    ControlFrame(s, s', w);
    CountsMoved(s, s', w, 0);
    UnitsMoved(s, s', 0);
  }

  // ----- Waking and sleeping -----

  lemma SleepWakeOwner(s: State, w: WorkerId)
    requires SleepGroupOk(s) && CanWakeOwner(s, w)
    ensures SleepGroupOk(WakeOwner(s, w))
  {
  }

  lemma HandsWakeOwner(s: State, w: WorkerId)
    requires HandsOk(s) && CanWakeOwner(s, w)
    ensures HandsOk(WakeOwner(s, w))
  {
  }

  lemma MovedWakeOwner(s: State, w: WorkerId)
    requires CanWakeOwner(s, w)
    ensures OnlyMoved(s, WakeOwner(s, w), w) && SameParking(s, WakeOwner(s, w))
    ensures WakeOwner(s, w).workers[w].currentTask == s.workers[w].currentTask
  {
  }

  lemma WakeOwnerKeeps(s: State, w: WorkerId)
    requires Inv(s) && CanWakeOwner(s, w)
    ensures Inv(WakeOwner(s, w))
  {
    hide ControlOk, HandsOk, CountsOk, FiberGroupOk, UnitsOk, SleepGroupOk, OnlyMoved, SameParking;
    var s' := WakeOwner(s, w);
    MovedWakeOwner(s, w);
    SleepWakeOwner(s, w);
    HandsWakeOwner(s, w);
    ControlFrame(s, s', w);
    FiberFrame(s, s', w);
    CountsMoved(s, s', w, 0);
    UnitsMoved(s, s', 0);
  }

  lemma IdleGoToSleep(s: State, w: WorkerId)
    requires IdleOk(s) && CanGoToSleep(s, w)
    ensures IdleOk(GoToSleep(s, w))
  {
  }

  /** A worker only falls asleep with runnable fibers if their finalizer is still to wake it. */
  lemma SleepGoToSleep(s: State, w: WorkerId)
    requires SleepOk(s) && CanGoToSleep(s, w)
    ensures SleepOk(GoToSleep(s, w))
  {
    var s' := GoToSleep(s, w);
    forall v | 0 <= v < |s'.workers| && s'.workers[v].runnable != []
      ensures AwakeOk(s'.workers, v)
    {
      assert AwakeOk(s.workers, v);
    }
  }

  lemma HandsGoToSleep(s: State, w: WorkerId)
    requires HandsOk(s) && CanGoToSleep(s, w)
    ensures HandsOk(GoToSleep(s, w))
  {
  }

  lemma MovedGoToSleep(s: State, w: WorkerId)
    requires CanGoToSleep(s, w)
    ensures OnlyMoved(s, GoToSleep(s, w), w) && SameParking(s, GoToSleep(s, w))
    ensures GoToSleep(s, w).workers[w].currentTask == s.workers[w].currentTask
  {
  }

  lemma GoToSleepKeeps(s: State, w: WorkerId)
    requires Inv(s) && CanGoToSleep(s, w)
    ensures Inv(GoToSleep(s, w))
  {
    hide ControlOk, HandsOk, CountsOk, FiberGroupOk, UnitsOk, IdleOk, SleepOk, OnlyMoved, SameParking;
    var s' := GoToSleep(s, w);
    MovedGoToSleep(s, w);
    IdleGoToSleep(s, w);
    SleepGoToSleep(s, w);
    HandsGoToSleep(s, w);
    ControlFrame(s, s', w);
    FiberFrame(s, s', w);
    CountsMoved(s, s', w, 0);
    UnitsMoved(s, s', 0);
  }
}
