/**
  The steps of the scheduler that choose, deploy and return tasks keep the
  invariant (src/scheduler/Scheduler.cpp).
*/
module SchedulerTaskSteps {
  import opened Basics
  import opened SchedulerModel
  import opened SchedulerInvariant
  import opened SchedulerFrames

  // ----- Steps that only move the worker -----

  lemma FindNoFiberKeeps(s: State, w: WorkerId)
    requires Inv(s) && CanFindNoFiber(s, w)
    ensures Inv(FindNoFiber(s, w))
  {
    hide ControlOk, HandsOk, CountsOk, FiberGroupOk, UnitsOk, SleepGroupOk;
    GotoKeeps(s, w, NoFiber);
  }

  lemma CannotAllocateKeeps(s: State, w: WorkerId)
    requires Inv(s) && CanCannotAllocate(s, w)
    ensures Inv(CannotAllocate(s, w))
  {
    hide ControlOk, HandsOk, CountsOk, FiberGroupOk, UnitsOk, SleepGroupOk;
    GotoKeeps(s, w, Top);
  }

  lemma CheckHandKeeps(s: State, w: WorkerId)
    requires Inv(s) && CanCheckHand(s, w)
    ensures Inv(CheckHand(s, w))
  {
    hide ControlOk, HandsOk, CountsOk, FiberGroupOk, UnitsOk, SleepGroupOk;
    var t := s.workers[w].pc.t;
    GotoKeeps(s, w, if s.tasks[t].exhausted then Returning(t) else Starting(t));
  }

  lemma ScanYieldedKeeps(s: State, w: WorkerId)
    requires Inv(s) && CanScanYielded(s, w)
    ensures Inv(ScanYielded(s, w))
  {
    hide CountsOk, FiberGroupOk, UnitsOk, SleepGroupOk, QueueOk, ReturnsOk, FinalOk;
    GotoKeeps(s, w, ScanYielded(s, w).workers[w].pc);
  }

  lemma StartFailsKeeps(s: State, w: WorkerId)
    requires Inv(s) && CanStartFails(s, w)
    ensures Inv(StartFails(s, w))
  {
    hide ControlOk, HandsOk, CountsOk, FiberGroupOk, UnitsOk, SleepGroupOk;
    GotoKeeps(s, w, Returning(s.workers[w].pc.t));
  }

  lemma WakeUpKeeps(s: State, w: WorkerId)
    requires Inv(s) && CanWakeUp(s, w)
    ensures Inv(WakeUp(s, w))
  {
    hide ControlOk, HandsOk, CountsOk, FiberGroupOk, UnitsOk, SleepGroupOk;
    GotoKeeps(s, w, Top);
  }

  // ----- Choosing a task -----

  lemma TakeCurrentKeeps(s: State, w: WorkerId)
    requires Inv(s) && CanTakeCurrent(s, w)
    ensures Inv(TakeCurrent(s, w))
  {
    hide ControlOk, CountsOk, FiberGroupOk, UnitsOk, SleepGroupOk, OnlyMoved;
    var s' := TakeCurrent(s, w);
    assert HandOk(s.tasks, s.workers[w]);
    if s.workers[w].currentTask == None {
      GotoKeeps(s, w, NeedTask);
    } else {
      ControlFrame(s, s', w);
      FiberFrame(s, s', w);
      SleepFrame(s, s', w);
      CountsMoved(s, s', w, 0);
      UnitsMoved(s, s', 0);
    }
  }

  lemma QueueLockQueue(s: State, w: WorkerId)
    requires QueueOk(s) && LockOk(s) && CanLockQueue(s, w)
    ensures QueueOk(LockQueue(s, w)) && LockOk(LockQueue(s, w))
  {
  }

  lemma LockQueueKeeps(s: State, w: WorkerId)
    requires Inv(s) && CanLockQueue(s, w)
    ensures Inv(LockQueue(s, w))
  {
    hide QueueOk, LockOk, ReturnsOk, FinalOk, HandsOk, CountsOk, FiberGroupOk, UnitsOk, SleepGroupOk, OnlyMoved;
    var s' := LockQueue(s, w);
    QueueLockQueue(s, w);
    var pc := s'.workers[w].pc;
    TaskStepFrames(s, s', w, pc, 0);
    ReturnFrame(s, s', w);
    TaskStepKeeps(s, s', w, pc, 0);
    HandsFrame(s, s', w, pc, 0);
    CountsFrame(s, s', w, pc, 0);
  }

  lemma QueueScanTask(s: State, w: WorkerId)
    requires QueueOk(s) && LockOk(s) && CanScanTask(s, w)
    ensures QueueOk(ScanTask(s, w)) && LockOk(ScanTask(s, w))
  {
  }

  lemma ReturnScanTask(s: State, w: WorkerId)
    requires ReturnsOk(s) && FinalOk(s) && CanScanTask(s, w) && s.tasks[s.queue[s.workers[w].pc.pos]].exhausted
    ensures ReturnsOk(ScanTask(s, w)) && FinalOk(ScanTask(s, w))
  {
  }

  lemma ScanTaskKeeps(s: State, w: WorkerId)
    requires Inv(s) && CanScanTask(s, w)
    ensures Inv(ScanTask(s, w))
  {
    hide QueueOk, ReturnsOk, FinalOk, HandsOk, CountsOk, FiberGroupOk, UnitsOk, SleepGroupOk, OnlyMoved;
    var s' := ScanTask(s, w);
    if s.tasks[s.queue[s.workers[w].pc.pos]].exhausted {
      QueueScanTask(s, w);
      ReturnScanTask(s, w);
      var pc, t := s.workers[w].pc, s.queue[s.workers[w].pc.pos];
      TaskStepKeeps(s, s', w, pc, t);
      HandsFrame(s, s', w, pc, t);
      CountsFrame(s, s', w, pc, t);
    } else {
      GotoKeeps(s, w, s'.workers[w].pc);
    }
  }

  lemma QueueScanEnd(s: State, w: WorkerId)
    requires QueueOk(s) && LockOk(s) && CanScanEnd(s, w)
    ensures QueueOk(ScanEnd(s, w)) && LockOk(ScanEnd(s, w))
  {
  }

  lemma ScanEndKeeps(s: State, w: WorkerId)
    requires Inv(s) && CanScanEnd(s, w)
    ensures Inv(ScanEnd(s, w))
  {
    hide QueueOk, LockOk, ReturnsOk, FinalOk, HandsOk, CountsOk, FiberGroupOk, UnitsOk, SleepGroupOk, OnlyMoved,
      TaskStep,
      ScanEnd;
    var s' := ScanEnd(s, w);
    QueueScanEnd(s, w);
    var pc := StepScanEnd(s, w);
    TaskStepFrames(s, s', w, pc, 0);
    ReturnFrame(s, s', w);
    TaskStepKeeps(s, s', w, pc, 0);
    HandsFrame(s, s', w, pc, 0);
    CountsFrame(s, s', w, pc, 0);
  }

  lemma StepScanEnd(s: State, w: WorkerId) returns (pc: Pc)
    requires CanScanEnd(s, w)
    ensures var s' := ScanEnd(s, w);
      && TaskStep(s, s', w, pc, 0) && s'.tasks == s.tasks && |s'.workers| == |s.workers| && s'.workers[w].pc == pc
      && (pc.Drowsy? || pc.Deploying?)
  {
    pc := ScanEnd(s, w).workers[w].pc;
  }

  lemma QueueDeployTask(s: State, w: WorkerId)
    requires QueueOk(s) && LockOk(s) && CanDeployTask(s, w)
    ensures QueueOk(DeployTask(s, w)) && LockOk(DeployTask(s, w))
    ensures !s.tasks[s.workers[w].pc.t].coolingDown
  {
  }

  /** A task is only deployed while it is queued, so never once it has cooled down. */
  lemma ReturnDeployTask(s: State, w: WorkerId)
    requires ReturnsOk(s) && FinalOk(s) && Balanced(s) && CanDeployTask(s, w) && !s.tasks[s.workers[w].pc.t].coolingDown
    ensures ReturnsOk(DeployTask(s, w)) && FinalOk(DeployTask(s, w))
  {
  }

  lemma DeployTaskKeeps(s: State, w: WorkerId)
    requires Inv(s) && CanDeployTask(s, w)
    ensures Inv(DeployTask(s, w))
  {
    hide QueueOk, LockOk, ReturnsOk, FinalOk, HandsOk, CountsOk, FiberGroupOk, UnitsOk, SleepGroupOk, Balanced,
      OnlyMoved;
    var s' := DeployTask(s, w);
    CountsBalanced(s);
    QueueDeployTask(s, w);
    ReturnDeployTask(s, w);
    var pc := s'.workers[w].pc;
    TaskStepFrames(s, s', w, pc, s.workers[w].pc.t);
    TaskStepKeeps(s, s', w, pc, s.workers[w].pc.t);
    HandsFrame(s, s', w, pc, s.workers[w].pc.t);
    CountsMoved(s, s', w, 0);
  }

  // ----- Running out of work, keeping and returning -----

  /** A task is exhausted by a worker that holds it, so its last return is still to come. */
  lemma ReturnExhaust(s: State, w: WorkerId)
    requires ReturnsOk(s) && FinalOk(s) && Balanced(s) && CanExhaust(s, w)
    ensures ReturnsOk(Exhaust(s, w)) && FinalOk(Exhaust(s, w))
  {
  }

  lemma ExhaustKeeps(s: State, w: WorkerId)
    requires Inv(s) && CanExhaust(s, w)
    ensures Inv(Exhaust(s, w))
  {
    hide QueueOk, LockOk, ReturnsOk, FinalOk, HandsOk, CountsOk, FiberGroupOk, UnitsOk, SleepGroupOk, Balanced,
      OnlyMoved;
    var s' := Exhaust(s, w);
    CountsBalanced(s);
    ReturnExhaust(s, w);
    var pc := s'.workers[w].pc;
    TaskStepFrames(s, s', w, pc, s.workers[w].pc.t);
    QueueFrame(s, s', w);
    TaskStepKeeps(s, s', w, pc, s.workers[w].pc.t);
    HandsFrame(s, s', w, pc, s.workers[w].pc.t);
    CountsFrame(s, s', w, pc, s.workers[w].pc.t);
  }

  lemma KeepOrReturnKeeps(s: State, w: WorkerId)
    requires Inv(s) && CanKeepOrReturn(s, w)
    ensures Inv(KeepOrReturn(s, w))
  {
    hide Inv;
    InvHand(s, w);
    if s.tasks[s.workers[w].pc.t].exhausted {
      GotoKeeps(s, w, Returning(s.workers[w].pc.t));
    } else {
      KeepKeeps(s, w);
    }
  }

  lemma InvHand(s: State, w: WorkerId)
    requires Inv(s) && w < |s.workers|
    ensures HandOk(s.tasks, s.workers[w])
  {
  }

  lemma KeepKeeps(s: State, w: WorkerId)
    requires Inv(s) && CanKeepOrReturn(s, w) && !s.tasks[s.workers[w].pc.t].exhausted
    ensures Inv(KeepOrReturn(s, w))
  {
    hide ControlOk, CountsOk, FiberGroupOk, UnitsOk, SleepGroupOk, OnlyMoved, SameParking, SameSleep, HandsOk;
    var s' := KeepOrReturn(s, w);
    KeepFrames(s, w);
    ControlFrame(s, s', w);
    FiberFrame(s, s', w);
    SleepFrame(s, s', w);
    CountsMoved(s, s', w, 0);
    UnitsMoved(s, s', 0);
  }

  lemma KeepFrames(s: State, w: WorkerId)
    requires HandsOk(s) && CanKeepOrReturn(s, w) && !s.tasks[s.workers[w].pc.t].exhausted
    ensures var s' := KeepOrReturn(s, w);
      && OnlyMoved(s, s', w) && SameParking(s, s') && SameSleep(s, s') && HandsOk(s')
      && forall t :: Held(s'.workers[w], t) == Held(s.workers[w], t)
  {
    assert HandOk(s.tasks, s.workers[w]);
  }

  lemma NumberDrawn(s: State, w: WorkerId)
    requires ReturnsOk(s) && CanCountReturn(s, w) && s.tasks[s.workers[w].pc.t].returned >= 0
    ensures ReturnsOk(CountReturn(s, w))
  {
  }

  lemma TaskCountReturn(s: State, w: WorkerId, t: TaskId)
    requires ReturnsOk(s) && FinalOk(s) && Balanced(s) && CanCountReturn(s, w) && t in s.tasks
    ensures var s' := CountReturn(s, w); t in s'.tasks && TaskOk(s'.workers, t, s'.tasks[t])
    ensures t == s.workers[w].pc.t ==> !s.tasks[t].finalized
  {
    assert TaskOk(s.workers, t, s.tasks[t]);
  }

  lemma ReturnCountReturn(s: State, w: WorkerId)
    requires ReturnsOk(s) && FinalOk(s) && Balanced(s) && CanCountReturn(s, w)
    ensures ReturnsOk(CountReturn(s, w)) && FinalOk(CountReturn(s, w))
    ensures !s.tasks[s.workers[w].pc.t].finalized
  {
    assert TaskOk(s.workers, s.workers[w].pc.t, s.tasks[s.workers[w].pc.t]);
    hide ReturnsOk, Balanced, TaskOk;
    var s' := CountReturn(s, w);
    NumberDrawn(s, w);
    TaskCountReturn(s, w, s.workers[w].pc.t);
    forall t | t in s'.tasks
      ensures TaskOk(s'.workers, t, s'.tasks[t])
    {
      TaskCountReturn(s, w, t);
    }
  }

  /** The deployment in the worker's hand becomes a counted return. */
  lemma StepCountReturn(s: State, w: WorkerId)
    requires CanCountReturn(s, w)
    ensures var s' := CountReturn(s, w);
      && TaskStep(s, s', w, s'.workers[w].pc, s.workers[w].pc.t) && s'.tasks.Keys == s.tasks.Keys
      && forall u :: u in s.tasks ==>
        s'.tasks[u].deployed - s'.tasks[u].returned - (s.tasks[u].deployed - s.tasks[u].returned)
        == Held(s'.workers[w], u) - Held(s.workers[w], u) + Detached(s'.fibers, 0, u) - Detached(s.fibers, 0, u)
  {
  }

  lemma CountReturnKeeps(s: State, w: WorkerId)
    requires Inv(s) && CanCountReturn(s, w)
    ensures Inv(CountReturn(s, w))
  {
    hide QueueOk, LockOk, ReturnsOk, FinalOk, HandsOk, CountsOk, FiberGroupOk, UnitsOk, SleepGroupOk, Balanced,
      OnlyMoved, TaskStep;
    var s' := CountReturn(s, w);
    var pc, t := s'.workers[w].pc, s.workers[w].pc.t;
    CountsBalanced(s);
    ReturnCountReturn(s, w);
    StepCountReturn(s, w);
    TaskStepFrames(s, s', w, pc, t);
    QueueFrame(s, s', w);
    TaskStepKeeps(s, s', w, pc, t);
    HandsFrame(s, s', w, pc, t);
    CountsMoved(s, s', w, 0);
  }

  /** Leaving returnTask without finalizing, because there is still work or another return is still to come. */
  lemma ReturnDropped(s: State, w: WorkerId)
    requires ReturnsOk(s) && FinalOk(s) && w < |s.workers| && Return(s.workers[w].pc).Some?
    requires !s.tasks[s.workers[w].pc.t].exhausted || s.tasks[s.workers[w].pc.t].deployed != s.workers[w].pc.num
    ensures ReturnsOk(Goto(s, w, Top)) && FinalOk(Goto(s, w, Top))
  {
  }

  lemma LeaveKeeps(s: State, w: WorkerId)
    requires Inv(s) && w < |s.workers| && Return(s.workers[w].pc).Some? && s.workers[w].pc.t in s.tasks
    requires !s.tasks[s.workers[w].pc.t].exhausted || s.tasks[s.workers[w].pc.t].deployed != s.workers[w].pc.num
    ensures Inv(Goto(s, w, Top))
  {
    hide QueueOk, LockOk, ReturnsOk, FinalOk, HandsOk, CountsOk, FiberGroupOk, UnitsOk, SleepGroupOk, OnlyMoved;
    var s' := Goto(s, w, Top);
    ReturnDropped(s, w);
    var pc := s'.workers[w].pc;
    TaskStepFrames(s, s', w, pc, 0);
    QueueFrame(s, s', w);
    TaskStepKeeps(s, s', w, pc, 0);
    HandsFrame(s, s', w, pc, 0);
    CountsFrame(s, s', w, pc, 0);
  }

  lemma CheckExhaustedKeeps(s: State, w: WorkerId)
    requires Inv(s) && CanCheckExhausted(s, w)
    ensures Inv(CheckExhausted(s, w))
  {
    hide QueueOk, LockOk, FinalOk, HandsOk, CountsOk, FiberGroupOk, UnitsOk, SleepGroupOk;
    var pc := s.workers[w].pc;
    if s.tasks[pc.t].exhausted {
      assert ReturnOk(s.tasks, pc);
      GotoKeeps(s, w, Cooling(pc.t, pc.num));
    } else {
      LeaveKeeps(s, w);
    }
  }

  lemma QueueCoolDown(s: State, w: WorkerId)
    requires QueueOk(s) && LockOk(s) && CanCoolDown(s, w)
    ensures QueueOk(CoolDown(s, w)) && LockOk(CoolDown(s, w))
  {
    var t := s.workers[w].pc.t;
    if !s.tasks[t].coolingDown {
      DequeueOk(s.queue, t);
    }
  }

  lemma ReturnCoolDown(s: State, w: WorkerId)
    requires ReturnsOk(s) && FinalOk(s) && CanCoolDown(s, w)
    ensures ReturnsOk(CoolDown(s, w)) && FinalOk(CoolDown(s, w))
  {
    var s' := CoolDown(s, w);
    assert ReturnOk(s.tasks, s.workers[w].pc);
    forall t | t in s'.tasks
      ensures TaskOk(s'.workers, t, s'.tasks[t])
    {
      assert TaskOk(s.workers, t, s.tasks[t]);
    }
  }

  lemma CoolDownKeeps(s: State, w: WorkerId)
    requires Inv(s) && CanCoolDown(s, w)
    ensures Inv(CoolDown(s, w))
  {
    hide QueueOk, LockOk, ReturnsOk, FinalOk, HandsOk, CountsOk, FiberGroupOk, UnitsOk, SleepGroupOk, TaskStep,
      CoolDown;
    QueueCoolDown(s, w);
    ReturnCoolDown(s, w);
    StepCoolDown(s, w);
    var s', pc, t := CoolDown(s, w), Comparing(s.workers[w].pc.t, s.workers[w].pc.num), s.workers[w].pc.t;
    TaskStepKeeps(s, s', w, pc, t);
    HandsFrame(s, s', w, pc, t);
    CountsFrame(s, s', w, pc, t);
  }

  lemma StepCoolDown(s: State, w: WorkerId)
    requires CanCoolDown(s, w)
    ensures var s', x := CoolDown(s, w), s.workers[w].pc;
      && TaskStep(s, s', w, Comparing(x.t, x.num), x.t) && x.t in s'.tasks && s'.tasks.Keys == s.tasks.Keys
      && SameFate(s.tasks[x.t], s'.tasks[x.t]) && SameUnits(s.tasks[x.t], s'.tasks[x.t])
      && forall u :: u in s.tasks ==>
        s'.tasks[u].deployed == s.tasks[u].deployed && s'.tasks[u].returned == s.tasks[u].returned
  {
  }

  // ----- Finalizing -----

  lemma TaskCompare(s: State, w: WorkerId, t: TaskId)
    requires ReturnsOk(s) && FinalOk(s) && Balanced(s) && CanCompare(s, w) && t in s.tasks
    requires s.tasks[s.workers[w].pc.t].deployed == s.workers[w].pc.num
    ensures var s' := Compare(s, w); t in s'.tasks && TaskOk(s'.workers, t, s'.tasks[t])
    ensures t == s.workers[w].pc.t ==> !s.tasks[t].finalized && s.tasks[t].lastReturn == w
  {
    assert TaskOk(s.workers, t, s.tasks[t]) && ReturnOk(s.tasks, s.workers[w].pc);
  }

  lemma ReturnCompare(s: State, w: WorkerId)
    requires ReturnsOk(s) && FinalOk(s) && Balanced(s) && CanCompare(s, w)
    requires s.tasks[s.workers[w].pc.t].deployed == s.workers[w].pc.num
    ensures ReturnsOk(Compare(s, w)) && FinalOk(Compare(s, w))
    ensures var x := s.tasks[s.workers[w].pc.t]; !x.finalized && x.lastReturn == w
  {
    hide Balanced, TaskOk;
    var s' := Compare(s, w);
    TaskCompare(s, w, s.workers[w].pc.t);
    forall t | t in s'.tasks
      ensures TaskOk(s'.workers, t, s'.tasks[t])
    {
      TaskCompare(s, w, t);
    }
  }

  lemma WaitersCompare(s: State, w: WorkerId)
    requires WaitersOk(s) && CanCompare(s, w)
    requires var x := s.tasks[s.workers[w].pc.t]; x.deployed == s.workers[w].pc.num && !x.finalized && x.lastReturn == w
    ensures WaitersOk(Compare(s, w))
  {
  }

  lemma FibersCompare(s: State, w: WorkerId)
    requires FibersOk(s) && ActiveOk(s) && CanCompare(s, w)
    ensures FibersOk(Compare(s, w)) && ActiveOk(Compare(s, w))
  {
  }

  lemma ParkedCompare(s: State, w: WorkerId)
    requires RunnablesOk(s) && WaitingsOk(s) && CanCompare(s, w)
    ensures RunnablesOk(Compare(s, w)) && WaitingsOk(Compare(s, w))
  {
  }

  lemma CompareKeeps(s: State, w: WorkerId)
    requires Inv(s) && CanCompare(s, w)
    ensures Inv(Compare(s, w))
  {
    hide Inv;
    if s.tasks[s.workers[w].pc.t].deployed == s.workers[w].pc.num {
      FinalizeKeeps(s, w);
    } else {
      LeaveKeeps(s, w);
    }
  }

  lemma FinalizeKeeps(s: State, w: WorkerId)
    requires Inv(s) && CanCompare(s, w) && s.tasks[s.workers[w].pc.t].deployed == s.workers[w].pc.num
    ensures Inv(Compare(s, w))
  {
    hide QueueOk, LockOk, ReturnsOk, FinalOk, HandsOk, CountsOk, FibersOk, ActiveOk, RunnablesOk, WaitingsOk, WaitersOk,
      UnitsOk, SleepGroupOk, Balanced, OnlyMoved, TaskStep, SameSleep;
    var s', pc, t := Compare(s, w), Finalizing(s.workers[w].pc.t), s.workers[w].pc.t;
    assert TaskStep(s, s', w, pc, t) by { StepFinalize(s, w); }
    CountsBalanced(s);
    TaskStepFrames(s, s', w, pc, t);
    QueueFrame(s, s', w);
    ReturnCompare(s, w);
    HandsFrame(s, s', w, pc, t);
    CountsFrame(s, s', w, pc, t);
    WaitersCompare(s, w);
    FibersCompare(s, w);
    ParkedCompare(s, w);
    SleepFrame(s, s', w);
    UnitsMoved(s, s', 0);
  }

  lemma StepFinalize(s: State, w: WorkerId)
    requires CanCompare(s, w) && s.tasks[s.workers[w].pc.t].deployed == s.workers[w].pc.num
    ensures var t := s.workers[w].pc.t; TaskStep(s, Compare(s, w), w, Finalizing(t), t)
  {
  }
}
