/**
  Frame lemmas for the scheduler's invariants: what a step leaves alone stays true
  (src/scheduler/Scheduler.cpp).
*/
module SchedulerFrames {
  import opened Basics
  import opened SchedulerModel
  import opened SchedulerInvariant

  // ----- What a step leaves alone -----

  /** Only worker `w` moved. */
  ghost predicate OnlyMoved(s: State, s': State, w: WorkerId)
  {
    && |s'.workers| == |s.workers|
    && forall v :: 0 <= v < |s.workers| && v != w ==>
      s'.workers[v].pc == s.workers[v].pc && s'.workers[v].currentTask == s.workers[v].currentTask
  }

  ghost predicate SameControl(x: Task, y: Task)
  {
    && x.exhausted == y.exhausted && x.coolingDown == y.coolingDown && x.finalized == y.finalized
    && x.deployed == y.deployed && x.returned == y.returned
    && x.finalizations == y.finalizations && x.lastReturn == y.lastReturn
  }

  lemma ControlFrame(s: State, s': State, w: WorkerId)
    requires ControlOk(s) && OnlyMoved(s, s', w) && w < |s.workers|
    requires s'.queue == s.queue && s'.queueLock == s.queueLock
    requires s'.tasks.Keys == s.tasks.Keys && forall t :: t in s.tasks ==> SameControl(s.tasks[t], s'.tasks[t])
    requires Return(s.workers[w].pc) == Return(s'.workers[w].pc) == None
    requires !Scanning(s.workers[w].pc) && !Scanning(s'.workers[w].pc)
    ensures ControlOk(s')
  {
    QueueFrame(s, s', w);
    ReturnFrame(s, s', w);
  }

  lemma QueueFrame(s: State, s': State, w: WorkerId)
    requires QueueOk(s) && LockOk(s) && OnlyMoved(s, s', w) && w < |s.workers|
    requires s'.queue == s.queue && s'.queueLock == s.queueLock
    requires s'.tasks.Keys == s.tasks.Keys
    requires forall t :: t in s.tasks ==> s.tasks[t].coolingDown == s'.tasks[t].coolingDown
    requires Scanning(s.workers[w].pc) == Scanning(s'.workers[w].pc) && ScanOk(s.queue, s'.workers[w].pc)
    ensures QueueOk(s') && LockOk(s')
  {
    assert forall t :: t in s'.tasks <==> t in s.tasks;
  }

  lemma ReturnFrame(s: State, s': State, w: WorkerId)
    requires ReturnsOk(s) && FinalOk(s) && OnlyMoved(s, s', w) && w < |s.workers|
    requires s'.tasks.Keys == s.tasks.Keys && forall t :: t in s.tasks ==> SameControl(s.tasks[t], s'.tasks[t])
    requires ReturnOk(s'.tasks, s'.workers[w].pc)
    requires Return(s.workers[w].pc) == Return(s'.workers[w].pc)
    ensures ReturnsOk(s') && FinalOk(s')
  {
    assert forall t :: t in s'.tasks <==> t in s.tasks;
    forall t | t in s'.tasks
      ensures TaskOk(s'.workers, t, s'.tasks[t])
    {
      assert TaskOk(s.workers, t, s.tasks[t]) && SameControl(s.tasks[t], s'.tasks[t]);
    }
  }

  ghost predicate NoFiberAt(pc: Pc)
  {
    OnWorker(pc) == None && !pc.Yielded? && !pc.Finalizing?
  }

  ghost predicate SameFate(x: Task, y: Task)
  {
    x.finalized == y.finalized && x.waiter == y.waiter && (x.finalized ==> x.lastReturn == y.lastReturn)
  }

  ghost predicate SameParking(s: State, s': State)
  {
    forall v :: 0 <= v < |s.workers| == |s'.workers| ==>
      s'.workers[v].runnable == s.workers[v].runnable && s'.workers[v].waiting == s.workers[v].waiting
  }

  lemma FiberFrame(s: State, s': State, w: WorkerId)
    requires FiberGroupOk(s) && OnlyMoved(s, s', w) && SameParking(s, s') && w < |s.workers|
    requires s'.fibers == s.fibers
    requires s'.tasks.Keys == s.tasks.Keys && forall t :: t in s.tasks ==> SameFate(s.tasks[t], s'.tasks[t])
    requires NoFiberAt(s.workers[w].pc) && NoFiberAt(s'.workers[w].pc)
    requires s'.workers[w].pc.Waking? ==> s'.workers[w].pc.v < |s.workers|
    ensures FiberGroupOk(s')
  {
    assert forall t :: t in s'.tasks <==> t in s.tasks;
    FiberFrameFibers(s, s', w);
    FiberFrameParked(s, s', w);
    FiberFrameWaiters(s, s', w);
  }

  lemma FiberFrameFibers(s: State, s': State, w: WorkerId)
    requires FibersOk(s) && ActiveOk(s) && OnlyMoved(s, s', w) && SameParking(s, s') && w < |s.workers|
    requires s'.fibers == s.fibers && s'.tasks.Keys == s.tasks.Keys
    requires NoFiberAt(s.workers[w].pc) && NoFiberAt(s'.workers[w].pc)
    ensures FibersOk(s') && ActiveOk(s')
  {
    assert forall t :: t in s'.tasks <==> t in s.tasks;
  }

  lemma FiberFrameParked(s: State, s': State, w: WorkerId)
    requires RunnablesOk(s) && WaitingsOk(s) && OnlyMoved(s, s', w) && SameParking(s, s') && w < |s.workers|
    requires s'.fibers == s.fibers
    requires s'.tasks.Keys == s.tasks.Keys && forall t :: t in s.tasks ==> SameFate(s.tasks[t], s'.tasks[t])
    requires NoFiberAt(s.workers[w].pc) && NoFiberAt(s'.workers[w].pc)
    ensures RunnablesOk(s') && WaitingsOk(s')
  {
    assert forall t :: t in s'.tasks <==> t in s.tasks;
  }

  lemma FiberFrameWaiters(s: State, s': State, w: WorkerId)
    requires WaitersOk(s) && OnlyMoved(s, s', w) && SameParking(s, s') && w < |s.workers|
    requires s'.tasks.Keys == s.tasks.Keys && forall t :: t in s.tasks ==> SameFate(s.tasks[t], s'.tasks[t])
    requires !s.workers[w].pc.Finalizing? && !s'.workers[w].pc.Finalizing?
    requires s'.workers[w].pc.Waking? ==> s'.workers[w].pc.v < |s.workers|
    ensures WaitersOk(s')
  {
    assert forall t :: t in s'.tasks <==> t in s.tasks;
    forall c | c in s'.tasks && s'.tasks[c].waiter.Some?
      ensures WaiterOk(s'.workers, c, s'.tasks[c])
    {
      assert SameFate(s.tasks[c], s'.tasks[c]) && WaiterOk(s.workers, c, s.tasks[c]);
    }
  }

  ghost predicate SameSleep(s: State, s': State)
  {
    && s'.idle == s.idle
    && forall v :: 0 <= v < |s.workers| == |s'.workers| ==>
      && s'.workers[v].runnable == s.workers[v].runnable && s'.workers[v].waker == s.workers[v].waker
      && s'.workers[v].allowedToSleep == s.workers[v].allowedToSleep
      && s'.workers[v].shouldSleep == s.workers[v].shouldSleep && s'.workers[v].inIdleList == s.workers[v].inIdleList
  }

  lemma SleepFrame(s: State, s': State, w: WorkerId)
    requires SleepGroupOk(s) && OnlyMoved(s, s', w) && SameSleep(s, s') && w < |s.workers|
    requires GoingToSleep(s'.workers[w].pc) ==> GoingToSleep(s.workers[w].pc) || s.workers[w].runnable == []
    requires !s.workers[w].pc.Waking? && !s'.workers[w].pc.Asleep?
    ensures SleepGroupOk(s')
  {
    forall v | 0 <= v < |s'.workers| && s'.workers[v].runnable != []
      ensures AwakeOk(s'.workers, v)
    {
      assert AwakeOk(s.workers, v);
    }
  }

  // ----- Counting -----

  ghost function Held(x: Worker, t: TaskId): int
  {
    Bit(Hand(x.pc) == Some(t)) + Bit(x.currentTask == Some(t))
  }

  ghost function Detached(fs: map<FiberId, Fiber>, f: FiberId, t: TaskId): int
  {
    Bit(f in fs && fs[f].task == t && fs[f].detached)
  }

  /** Deployments stay balanced when the worker and the fiber that changed account for the difference. */
  lemma CountsMoved(s: State, s': State, w: WorkerId, f: FiberId)
    requires CountsOk(s) && OnlyMoved(s, s', w) && w < |s.workers| && DifferAt(s.fibers, s'.fibers, f)
    requires s'.tasks.Keys == s.tasks.Keys
    requires forall t :: t in s.tasks ==>
      s'.tasks[t].deployed - s'.tasks[t].returned - (s.tasks[t].deployed - s.tasks[t].returned)
      == Held(s'.workers[w], t) - Held(s.workers[w], t) + Detached(s'.fibers, f, t) - Detached(s.fibers, f, t)
    ensures CountsOk(s')
  {
    forall t | t in s'.tasks
      ensures s'.tasks[t].deployed == s'.tasks[t].returned + Holders(s'.workers, s'.fibers, t)
    {
      assert t in s.tasks;
      WorkerChanged(s.workers, s'.workers, w, HandIs(t));
      WorkerChanged(s.workers, s'.workers, w, CurrentIs(t));
      FiberChanged(s.fibers, s'.fibers, f, DetachedOf(t));
    }
  }

  lemma CountsBalanced(s: State)
    requires CountsOk(s)
    ensures Balanced(s)
  {
    forall w | 0 <= w < |s.workers| && Hand(s.workers[w].pc).Some? && Hand(s.workers[w].pc).value in s.tasks
      ensures s.tasks[Hand(s.workers[w].pc).value].returned < s.tasks[Hand(s.workers[w].pc).value].deployed
    {
      var t := Hand(s.workers[w].pc).value;
      assert w in WorkersWith(s.workers, HandIs(t));
    }
  }

  ghost function Unfinished(fs: map<FiberId, Fiber>, f: FiberId, t: TaskId): int
  {
    Bit(f in fs && fs[f].task == t)
  }

  ghost function Registered(fs: map<FiberId, Fiber>, f: FiberId, t: TaskId): int
  {
    Bit(f in fs && fs[f].task == t && fs[f].registered)
  }

  ghost predicate UnitsBalanced(s: State, s': State, f: FiberId, t: TaskId)
    requires t in s.tasks && t in s'.tasks
  {
    var x, y := s.tasks[t], s'.tasks[t];
    var more := Unfinished(s'.fibers, f, t) - Unfinished(s.fibers, f, t);
    && (y.reserved - y.performed) - (x.reserved - x.performed) == more
    && y.nonCompletedFibers - x.nonCompletedFibers == more
    && y.yieldedFibers - x.yieldedFibers == Registered(s'.fibers, f, t) - Registered(s.fibers, f, t)
  }

  lemma UnitsMoved(s: State, s': State, f: FiberId)
    requires UnitsOk(s) && DifferAt(s.fibers, s'.fibers, f) && s'.tasks.Keys == s.tasks.Keys
    requires forall t :: t in s.tasks ==> UnitsBalanced(s, s', f, t)
    ensures UnitsOk(s')
  {
    forall t | t in s'.tasks
      ensures
        && s'.tasks[t].reserved == s'.tasks[t].performed + |FibersWith(s'.fibers, OfTask(t))|
        && s'.tasks[t].nonCompletedFibers == |FibersWith(s'.fibers, OfTask(t))|
        && s'.tasks[t].yieldedFibers == |FibersWith(s'.fibers, RegisteredOf(t))|
    {
      assert t in s.tasks && UnitsBalanced(s, s', f, t);
      FiberChanged(s.fibers, s'.fibers, f, OfTask(t));
      FiberChanged(s.fibers, s'.fibers, f, RegisteredOf(t));
    }
  }

  // ----- Steps that move one worker and update one task -----

  ghost predicate SameUnits(x: Task, y: Task)
  {
    && x.reserved == y.reserved && x.performed == y.performed
    && x.nonCompletedFibers == y.nonCompletedFibers && x.yieldedFibers == y.yieldedFibers
  }

  /** Worker `w` moved to `pc` and at most task `t` changed. */
  ghost predicate TaskStep(s: State, s': State, w: WorkerId, pc: Pc, t: TaskId)
  {
    && w < |s.workers| && s'.workers == s.workers[w := s.workers[w].(pc := pc)]
    && s'.fibers == s.fibers && s'.idle == s.idle
    && (s'.tasks == s.tasks || (t in s.tasks && t in s'.tasks && s'.tasks == s.tasks[t := s'.tasks[t]]))
  }

  lemma TaskStepFrames(s: State, s': State, w: WorkerId, pc: Pc, t: TaskId)
    requires TaskStep(s, s', w, pc, t)
    ensures OnlyMoved(s, s', w) && SameParking(s, s') && SameSleep(s, s') && s'.tasks.Keys == s.tasks.Keys
  {
  }

  /** Fibers, units and sleeping are not touched by a step that handles tasks only. */
  lemma TaskStepKeeps(s: State, s': State, w: WorkerId, pc: Pc, t: TaskId)
    requires FiberGroupOk(s) && UnitsOk(s) && SleepGroupOk(s) && TaskStep(s, s', w, pc, t)
    requires s'.tasks != s.tasks ==> SameFate(s.tasks[t], s'.tasks[t]) && SameUnits(s.tasks[t], s'.tasks[t])
    requires NoFiberAt(pc) && NoFiberAt(s.workers[w].pc)
    requires !pc.Waking? && !s.workers[w].pc.Waking? && !pc.Asleep?
    requires GoingToSleep(pc) ==> GoingToSleep(s.workers[w].pc) || s.workers[w].runnable == []
    ensures FiberGroupOk(s') && UnitsOk(s') && SleepGroupOk(s')
  {
    hide FiberGroupOk, UnitsOk, SleepGroupOk, OnlyMoved, SameParking, SameSleep;
    TaskStepFrames(s, s', w, pc, t);
    FiberFrame(s, s', w);
    SleepFrame(s, s', w);
    UnitsMoved(s, s', 0);
  }

  lemma HandsFrame(s: State, s': State, w: WorkerId, pc: Pc, t: TaskId)
    requires HandsOk(s) && TaskStep(s, s', w, pc, t)
    requires Hand(pc) == Hand(s.workers[w].pc) || Hand(pc) == None || Hand(pc).value in s.tasks
    requires FreshTurn(pc) ==> FreshTurn(s.workers[w].pc) || s.workers[w].currentTask == None
    ensures HandsOk(s')
  {
    forall v | 0 <= v < |s'.workers|
      ensures HandOk(s'.tasks, s'.workers[v])
    {
      assert HandOk(s.tasks, s.workers[v]);
    }
  }

  lemma CountsFrame(s: State, s': State, w: WorkerId, pc: Pc, t: TaskId)
    requires CountsOk(s) && TaskStep(s, s', w, pc, t)
    requires Hand(pc) == Hand(s.workers[w].pc)
    requires s'.tasks != s.tasks ==>
      s'.tasks[t].deployed == s.tasks[t].deployed && s'.tasks[t].returned == s.tasks[t].returned
    ensures CountsOk(s')
  {
    hide CountsOk, OnlyMoved;
    TaskStepFrames(s, s', w, pc, t);
    CountsMoved(s, s', w, 0);
  }

  lemma GotoKeeps(s: State, w: WorkerId, pc: Pc)
    requires Inv(s) && w < |s.workers|
    requires Hand(pc) == Hand(s.workers[w].pc)
    requires FreshTurn(pc) ==> FreshTurn(s.workers[w].pc) || s.workers[w].currentTask == None
    requires Return(pc) == Return(s.workers[w].pc) && ReturnOk(s.tasks, pc)
    requires Scanning(pc) == Scanning(s.workers[w].pc) && ScanOk(s.queue, pc)
    requires NoFiberAt(pc) && NoFiberAt(s.workers[w].pc)
    requires !pc.Waking? && !s.workers[w].pc.Waking? && !pc.Asleep?
    requires GoingToSleep(pc) ==> GoingToSleep(s.workers[w].pc) || s.workers[w].runnable == []
    ensures Inv(Goto(s, w, pc))
  {
    hide QueueOk, LockOk, ReturnsOk, FinalOk, HandsOk, CountsOk, FiberGroupOk, UnitsOk, SleepGroupOk, OnlyMoved;
    var s' := Goto(s, w, pc);
    TaskStepFrames(s, s', w, pc, 0);
    TaskStepKeeps(s, s', w, pc, 0);
    HandsFrame(s, s', w, pc, 0);
    CountsFrame(s, s', w, pc, 0);
    QueueFrame(s, s', w);
    ReturnFrame(s, s', w);
  }

  // ----- Steps on one fiber -----

  ghost predicate HoldsAtMost(pc: Pc, t: TaskId)
  {
    Hand(pc) == None || Hand(pc) == Some(t)
  }

  /**
    Worker `w` handled fiber `f` of task `t`; nobody else moved and no task changed its standing
    with the scheduler.
  */
  ghost predicate FiberStep(s: State, s': State, w: WorkerId, f: FiberId, t: TaskId)
  {
    && w < |s.workers| && OnlyMoved(s, s', w) && s'.workers[w].currentTask == s.workers[w].currentTask
    && HoldsAtMost(s.workers[w].pc, t) && HoldsAtMost(s'.workers[w].pc, t)
    && DifferAt(s.fibers, s'.fibers, f)
    && (f in s.fibers ==> s.fibers[f].task == t) && (f in s'.fibers ==> s'.fibers[f].task == t)
    && t in s.tasks && t in s'.tasks && s'.tasks == s.tasks[t := s'.tasks[t]] && SameControl(s.tasks[t], s'.tasks[t])
  }

  lemma FiberStepCounts(s: State, s': State, w: WorkerId, f: FiberId, t: TaskId)
    requires CountsOk(s) && UnitsOk(s) && FiberStep(s, s', w, f, t)
    requires Held(s'.workers[w], t) + Detached(s'.fibers, f, t) == Held(s.workers[w], t) + Detached(s.fibers, f, t)
    requires UnitsBalanced(s, s', f, t)
    ensures CountsOk(s') && UnitsOk(s')
  {
    hide CountsOk, UnitsOk, OnlyMoved, DifferAt;
    assert s'.tasks.Keys == s.tasks.Keys;
    CountsMoved(s, s', w, f);
    UnitsMoved(s, s', f);
  }

  lemma FiberStepControl(s: State, s': State, w: WorkerId, f: FiberId, t: TaskId)
    requires ControlOk(s) && FiberStep(s, s', w, f, t)
    requires s'.queue == s.queue && s'.queueLock == s.queueLock
    requires Return(s.workers[w].pc) == Return(s'.workers[w].pc) == None
    requires !Scanning(s.workers[w].pc) && !Scanning(s'.workers[w].pc)
    ensures ControlOk(s')
  {
    hide ControlOk, OnlyMoved, DifferAt;
    ControlFrame(s, s', w);
  }
}
