/**
  The steps of the scheduler that run, park, resume and finish fibers keep the
  invariant (src/scheduler/Scheduler.cpp).
*/
module SchedulerFiberSteps {
  import opened SchedulerModel
  import opened SchedulerInvariant
  import opened SchedulerFrames

  lemma FiberTakeFiber(s: State, w: WorkerId, f: FiberId)
    requires FibersOk(s) && RunnablesOk(s) && CanTakeFiber(s, w) && f in s.fibers
    ensures var s' := TakeFiber(s, w); f in s'.fibers && FiberOk(s'.tasks, s'.workers, f, s'.fibers[f])
  {
    var q := s.workers[w].runnable;
    assert q[0] in q;
    assert FiberOk(s.tasks, s.workers, f, s.fibers[f]) && RunnableOk(s.tasks, s.fibers, w, q[0]);
    assert f in q ==> f == q[0] || f in q[1..];
    assert f in q[1..] ==> f in q;
  }

  lemma FibersTakeFiber(s: State, w: WorkerId)
    requires FibersOk(s) && RunnablesOk(s) && CanTakeFiber(s, w)
    ensures FibersOk(TakeFiber(s, w))
  {
    hide FiberOk;
    var s' := TakeFiber(s, w);
    forall f | f in s'.fibers
      ensures FiberOk(s'.tasks, s'.workers, f, s'.fibers[f])
    {
      FiberTakeFiber(s, w, f);
    }
  }

  lemma ActiveTakeFiber(s: State, w: WorkerId)
    requires FibersOk(s) && ActiveOk(s) && RunnablesOk(s) && CanTakeFiber(s, w)
    ensures ActiveOk(TakeFiber(s, w))
  {
    hide FiberOk;
    var s', f := TakeFiber(s, w), s.workers[w].runnable[0];
    assert f in s.workers[w].runnable;
    assert RunnableOk(s.tasks, s.fibers, w, f);
    FiberIsDetached(s, f);
    forall v | 0 <= v < |s'.workers|
      ensures OnWorker(s'.workers[v].pc).Some? ==> OnWorkerOk(s'.fibers, v, s'.workers[v])
      ensures s'.workers[v].pc.Yielded? ==> JustYieldedOk(s'.fibers, v, s'.workers[v].pc.f)
    {
    }
  }

  lemma FiberIsDetached(s: State, f: FiberId)
    requires FibersOk(s) && f in s.fibers && !s.fibers[f].running
    ensures s.fibers[f].detached
  {
    assert FiberOk(s.tasks, s.workers, f, s.fibers[f]);
  }

  lemma RunnablesTakeFiber(s: State, w: WorkerId)
    requires RunnablesOk(s) && ActiveOk(s) && WaitingsOk(s) && CanTakeFiber(s, w)
    ensures RunnablesOk(TakeFiber(s, w))
  {
    var q := s.workers[w].runnable;
    assert q[0] in q;
    assert forall g :: g in q ==> g == q[0] || g in q[1..];
    assert forall g :: g in q[1..] ==> g in q;
    assert forall i :: 0 <= i < |q[1..]| ==> q[1..][i] == q[i + 1];
  }

  lemma WaitingsTakeFiber(s: State, w: WorkerId)
    requires WaitingsOk(s) && ActiveOk(s) && RunnablesOk(s) && CanTakeFiber(s, w)
    ensures WaitingsOk(TakeFiber(s, w))
  {
    var q := s.workers[w].runnable;
    assert q[0] in q;
    assert forall g :: g in q ==> g == q[0] || g in q[1..];
    assert forall g :: g in q[1..] ==> g in q;
  }

  lemma WaitersTakeFiber(s: State, w: WorkerId)
    requires WaitersOk(s) && CanTakeFiber(s, w)
    ensures WaitersOk(TakeFiber(s, w))
  {
  }

  lemma GroupTakeFiber(s: State, w: WorkerId)
    requires FiberGroupOk(s) && HandsOk(s) && CanTakeFiber(s, w)
    ensures FiberGroupOk(TakeFiber(s, w))
  {
    hide FibersOk, ActiveOk, RunnablesOk, WaitingsOk, WaitersOk, HandsOk, TakeFiber;
    FibersTakeFiber(s, w);
    ActiveTakeFiber(s, w);
    RunnablesTakeFiber(s, w);
    WaitingsTakeFiber(s, w);
    WaitersTakeFiber(s, w);
  }

  lemma HandsTakeFiber(s: State, w: WorkerId)
    requires HandsOk(s) && FibersOk(s) && ActiveOk(s) && CanTakeFiber(s, w)
    ensures HandsOk(TakeFiber(s, w))
  {
  }

  lemma StepTakeFiber(s: State, w: WorkerId)
    requires FibersOk(s) && ActiveOk(s) && RunnablesOk(s) && HandsOk(s) && CanTakeFiber(s, w)
    ensures var f := s.workers[w].runnable[0]; FiberStep(s, TakeFiber(s, w), w, f, s.fibers[f].task)
  {
    var q := s.workers[w].runnable;
    assert q[0] in q;
    assert forall g :: g in q ==> g == q[0] || g in q[1..];
    assert forall g :: g in q[1..] ==> g in q;
  }

  lemma SleepTakeFiber(s: State, w: WorkerId)
    requires SleepGroupOk(s) && CanTakeFiber(s, w)
    ensures SleepGroupOk(TakeFiber(s, w))
  {
  }

  lemma TakeFiberKeeps(s: State, w: WorkerId)
    requires Inv(s) && CanTakeFiber(s, w)
    ensures Inv(TakeFiber(s, w))
  {
    hide ControlOk, CountsOk, RunnablesOk, WaitingsOk, WaitersOk, UnitsOk, SleepGroupOk, HandsOk, DifferAt, OnlyMoved;
    var s' := TakeFiber(s, w);
    var f := s.workers[w].runnable[0];
    var t := s.fibers[f].task;
    StepTakeFiber(s, w);
    GroupTakeFiber(s, w);
    HandsTakeFiber(s, w);
    FiberStepControl(s, s', w, f, t);
    FiberStepCounts(s, s', w, f, t);
    SleepTakeFiber(s, w);
  }

  lemma FibersStartFiber(s: State, w: WorkerId, f: FiberId)
    requires FibersOk(s) && ActiveOk(s) && RunnablesOk(s) && WaitingsOk(s) && HandsOk(s) && CanStartFiber(s, w, f)
    ensures FibersOk(StartFiber(s, w, f))
  {
  }

  lemma ActiveStartFiber(s: State, w: WorkerId, f: FiberId)
    requires FibersOk(s) && ActiveOk(s) && RunnablesOk(s) && CanStartFiber(s, w, f)
    ensures ActiveOk(StartFiber(s, w, f))
  {
  }

  lemma RunnablesStartFiber(s: State, w: WorkerId, f: FiberId)
    requires RunnablesOk(s) && ActiveOk(s) && WaitingsOk(s) && CanStartFiber(s, w, f)
    ensures RunnablesOk(StartFiber(s, w, f))
  {
  }

  lemma WaitingsStartFiber(s: State, w: WorkerId, f: FiberId)
    requires WaitingsOk(s) && ActiveOk(s) && RunnablesOk(s) && CanStartFiber(s, w, f)
    ensures WaitingsOk(StartFiber(s, w, f))
  {
  }

  lemma WaitersStartFiber(s: State, w: WorkerId, f: FiberId)
    requires WaitersOk(s) && CanStartFiber(s, w, f)
    ensures WaitersOk(StartFiber(s, w, f))
  {
  }

  lemma GroupStartFiber(s: State, w: WorkerId, f: FiberId)
    requires FiberGroupOk(s) && HandsOk(s) && CanStartFiber(s, w, f)
    ensures FiberGroupOk(StartFiber(s, w, f))
  {
    hide FibersOk, ActiveOk, RunnablesOk, WaitingsOk, WaitersOk, HandsOk, StartFiber;
    FibersStartFiber(s, w, f);
    ActiveStartFiber(s, w, f);
    RunnablesStartFiber(s, w, f);
    WaitingsStartFiber(s, w, f);
    WaitersStartFiber(s, w, f);
  }

  lemma HandsStartFiber(s: State, w: WorkerId, f: FiberId)
    requires HandsOk(s) && FibersOk(s) && ActiveOk(s) && CanStartFiber(s, w, f)
    ensures HandsOk(StartFiber(s, w, f))
  {
  }

  lemma StepStartFiber(s: State, w: WorkerId, f: FiberId)
    requires FibersOk(s) && ActiveOk(s) && RunnablesOk(s) && HandsOk(s) && CanStartFiber(s, w, f)
    ensures FiberStep(s, StartFiber(s, w, f), w, f, s.workers[w].pc.t)
  {
  }

  lemma StartFiberKeeps(s: State, w: WorkerId, f: FiberId)
    requires Inv(s) && CanStartFiber(s, w, f)
    ensures Inv(StartFiber(s, w, f))
  {
    hide ControlOk, CountsOk, RunnablesOk, WaitingsOk, WaitersOk, UnitsOk, SleepGroupOk, HandsOk, DifferAt, OnlyMoved;
    var s' := StartFiber(s, w, f);
    var t := s.workers[w].pc.t;
    StepStartFiber(s, w, f);
    GroupStartFiber(s, w, f);
    HandsStartFiber(s, w, f);
    FiberStepControl(s, s', w, f, t);
    FiberStepCounts(s, s', w, f, t);
    SleepFrame(s, s', w);
  }

  lemma FibersYieldFiber(s: State, w: WorkerId)
    requires FibersOk(s) && ActiveOk(s) && RunnablesOk(s) && WaitingsOk(s) && HandsOk(s) && CanYieldFiber(s, w)
    ensures FibersOk(YieldFiber(s, w))
  {
  }

  lemma ActiveYieldFiber(s: State, w: WorkerId)
    requires FibersOk(s) && ActiveOk(s) && RunnablesOk(s) && CanYieldFiber(s, w)
    ensures ActiveOk(YieldFiber(s, w))
  {
  }

  lemma RunnablesYieldFiber(s: State, w: WorkerId)
    requires RunnablesOk(s) && ActiveOk(s) && WaitingsOk(s) && CanYieldFiber(s, w)
    ensures RunnablesOk(YieldFiber(s, w))
  {
  }

  lemma WaitingsYieldFiber(s: State, w: WorkerId)
    requires WaitingsOk(s) && ActiveOk(s) && RunnablesOk(s) && CanYieldFiber(s, w)
    ensures WaitingsOk(YieldFiber(s, w))
  {
  }

  lemma WaitersYieldFiber(s: State, w: WorkerId)
    requires WaitersOk(s) && CanYieldFiber(s, w)
    ensures WaitersOk(YieldFiber(s, w))
  {
  }

  lemma GroupYieldFiber(s: State, w: WorkerId)
    requires FiberGroupOk(s) && HandsOk(s) && CanYieldFiber(s, w)
    ensures FiberGroupOk(YieldFiber(s, w))
  {
    hide FibersOk, ActiveOk, RunnablesOk, WaitingsOk, WaitersOk, HandsOk, YieldFiber;
    FibersYieldFiber(s, w);
    ActiveYieldFiber(s, w);
    RunnablesYieldFiber(s, w);
    WaitingsYieldFiber(s, w);
    WaitersYieldFiber(s, w);
  }

  lemma HandsYieldFiber(s: State, w: WorkerId)
    requires HandsOk(s) && FibersOk(s) && ActiveOk(s) && CanYieldFiber(s, w)
    ensures HandsOk(YieldFiber(s, w))
  {
  }

  lemma StepYieldFiber(s: State, w: WorkerId)
    requires FibersOk(s) && ActiveOk(s) && RunnablesOk(s) && HandsOk(s) && CanYieldFiber(s, w)
    ensures var f := s.workers[w].pc.f; FiberStep(s, YieldFiber(s, w), w, f, s.fibers[f].task)
  {
  }

  lemma YieldFiberKeeps(s: State, w: WorkerId)
    requires Inv(s) && CanYieldFiber(s, w)
    ensures Inv(YieldFiber(s, w))
  {
    hide ControlOk, CountsOk, FibersOk, ActiveOk, RunnablesOk, WaitingsOk, WaitersOk, UnitsOk, SleepGroupOk, HandsOk,
      FiberStep, YieldFiber, UnitsBalanced;
    var s' := YieldFiber(s, w);
    var f := s.workers[w].pc.f;
    var t := s.fibers[f].task;
    StepYieldFiber(s, w);
    FramesYieldFiber(s, w);
    GroupYieldFiber(s, w);
    HandsYieldFiber(s, w);
    FiberStepControl(s, s', w, f, t);
    FiberStepCounts(s, s', w, f, t);
    SleepFrame(s, s', w);
  }

  lemma FramesYieldFiber(s: State, w: WorkerId)
    requires ActiveOk(s) && CanYieldFiber(s, w)
    ensures var s', f := YieldFiber(s, w), s.workers[w].pc.f;
      && OnlyMoved(s, s', w) && SameSleep(s, s') && s'.queue == s.queue && s'.queueLock == s.queueLock
      && (s'.workers[w].pc.Yielded? || s'.workers[w].pc.Top?) && s'.tasks == s.tasks
      && var t := s.fibers[f].task;
      && Held(s'.workers[w], t) + Detached(s'.fibers, f, t) == Held(s.workers[w], t) + Detached(s.fibers, f, t)
      && (t in s.tasks ==> UnitsBalanced(s, s', f, t))
  {
    assert OnWorkerOk(s.fibers, w, s.workers[w]);
  }

  lemma FibersRegisterYield(s: State, w: WorkerId)
    requires FibersOk(s) && ActiveOk(s) && RunnablesOk(s) && WaitingsOk(s) && HandsOk(s) && CanRegisterYield(s, w)
    ensures FibersOk(RegisterYield(s, w))
  {
  }

  lemma ActiveRegisterYield(s: State, w: WorkerId)
    requires FibersOk(s) && ActiveOk(s) && RunnablesOk(s) && CanRegisterYield(s, w)
    ensures ActiveOk(RegisterYield(s, w))
  {
  }

  lemma RunnablesRegisterYield(s: State, w: WorkerId)
    requires RunnablesOk(s) && ActiveOk(s) && WaitingsOk(s) && CanRegisterYield(s, w)
    ensures RunnablesOk(RegisterYield(s, w))
  {
  }

  lemma WaitingsRegisterYield(s: State, w: WorkerId)
    requires WaitingsOk(s) && ActiveOk(s) && RunnablesOk(s) && CanRegisterYield(s, w)
    ensures WaitingsOk(RegisterYield(s, w))
  {
  }

  lemma WaitersRegisterYield(s: State, w: WorkerId)
    requires WaitersOk(s) && CanRegisterYield(s, w)
    ensures WaitersOk(RegisterYield(s, w))
  {
  }

  lemma GroupRegisterYield(s: State, w: WorkerId)
    requires FiberGroupOk(s) && HandsOk(s) && CanRegisterYield(s, w)
    ensures FiberGroupOk(RegisterYield(s, w))
  {
    hide FibersOk, ActiveOk, RunnablesOk, WaitingsOk, WaitersOk, HandsOk, RegisterYield;
    FibersRegisterYield(s, w);
    ActiveRegisterYield(s, w);
    RunnablesRegisterYield(s, w);
    WaitingsRegisterYield(s, w);
    WaitersRegisterYield(s, w);
  }

  lemma HandsRegisterYield(s: State, w: WorkerId)
    requires HandsOk(s) && FibersOk(s) && ActiveOk(s) && CanRegisterYield(s, w)
    ensures HandsOk(RegisterYield(s, w))
  {
  }

  lemma StepRegisterYield(s: State, w: WorkerId)
    requires FibersOk(s) && ActiveOk(s) && RunnablesOk(s) && HandsOk(s) && CanRegisterYield(s, w)
    ensures var f := s.workers[w].pc.f; FiberStep(s, RegisterYield(s, w), w, f, s.fibers[f].task)
  {
  }

  lemma RegisterYieldKeeps(s: State, w: WorkerId)
    requires Inv(s) && CanRegisterYield(s, w)
    ensures Inv(RegisterYield(s, w))
  {
    hide ControlOk, CountsOk, RunnablesOk, WaitingsOk, WaitersOk, UnitsOk, SleepGroupOk, HandsOk, DifferAt, OnlyMoved;
    var s' := RegisterYield(s, w);
    var f := s.workers[w].pc.f;
    var t := s.fibers[f].task;
    StepRegisterYield(s, w);
    GroupRegisterYield(s, w);
    HandsRegisterYield(s, w);
    FiberStepControl(s, s', w, f, t);
    FiberStepCounts(s, s', w, f, t);
    SleepFrame(s, s', w);
  }

  lemma FibersCompleteFiber(s: State, w: WorkerId)
    requires FibersOk(s) && ActiveOk(s) && RunnablesOk(s) && WaitingsOk(s) && HandsOk(s) && CanCompleteFiber(s, w)
    ensures FibersOk(CompleteFiber(s, w))
  {
  }

  lemma ActiveCompleteFiber(s: State, w: WorkerId)
    requires FibersOk(s) && ActiveOk(s) && RunnablesOk(s) && CanCompleteFiber(s, w)
    ensures ActiveOk(CompleteFiber(s, w))
  {
    var s' := CompleteFiber(s, w);
    forall v | 0 <= v < |s'.workers|
      ensures OnWorker(s'.workers[v].pc).Some? ==> OnWorkerOk(s'.fibers, v, s'.workers[v])
      ensures s'.workers[v].pc.Yielded? ==> JustYieldedOk(s'.fibers, v, s'.workers[v].pc.f)
    {
      assert OnWorkerOk(s.fibers, w, s.workers[w]);
    }
  }

  lemma RunnablesCompleteFiber(s: State, w: WorkerId)
    requires RunnablesOk(s) && ActiveOk(s) && WaitingsOk(s) && CanCompleteFiber(s, w)
    ensures RunnablesOk(CompleteFiber(s, w))
  {
  }

  lemma WaitingsCompleteFiber(s: State, w: WorkerId)
    requires WaitingsOk(s) && ActiveOk(s) && RunnablesOk(s) && CanCompleteFiber(s, w)
    ensures WaitingsOk(CompleteFiber(s, w))
  {
  }

  lemma WaitersCompleteFiber(s: State, w: WorkerId)
    requires WaitersOk(s) && CanCompleteFiber(s, w)
    ensures WaitersOk(CompleteFiber(s, w))
  {
  }

  lemma GroupCompleteFiber(s: State, w: WorkerId)
    requires FiberGroupOk(s) && HandsOk(s) && CanCompleteFiber(s, w)
    ensures FiberGroupOk(CompleteFiber(s, w))
  {
    hide FibersOk, ActiveOk, RunnablesOk, WaitingsOk, WaitersOk, HandsOk, CompleteFiber;
    FibersCompleteFiber(s, w);
    ActiveCompleteFiber(s, w);
    RunnablesCompleteFiber(s, w);
    WaitingsCompleteFiber(s, w);
    WaitersCompleteFiber(s, w);
  }

  lemma HandsCompleteFiber(s: State, w: WorkerId)
    requires HandsOk(s) && FibersOk(s) && ActiveOk(s) && CanCompleteFiber(s, w)
    ensures HandsOk(CompleteFiber(s, w))
  {
  }

  lemma StepCompleteFiber(s: State, w: WorkerId)
    requires FibersOk(s) && ActiveOk(s) && RunnablesOk(s) && HandsOk(s) && CanCompleteFiber(s, w)
    ensures var f := s.workers[w].pc.f; FiberStep(s, CompleteFiber(s, w), w, f, s.fibers[f].task)
  {
  }

  lemma CompleteFiberKeeps(s: State, w: WorkerId)
    requires Inv(s) && CanCompleteFiber(s, w)
    ensures Inv(CompleteFiber(s, w))
  {
    hide ControlOk, CountsOk, RunnablesOk, WaitingsOk, WaitersOk, UnitsOk, SleepGroupOk, HandsOk, DifferAt, OnlyMoved;
    var s' := CompleteFiber(s, w);
    var f := s.workers[w].pc.f;
    var t := s.fibers[f].task;
    StepCompleteFiber(s, w);
    GroupCompleteFiber(s, w);
    HandsCompleteFiber(s, w);
    FiberStepControl(s, s', w, f, t);
    FiberStepCounts(s, s', w, f, t);
    SleepFrame(s, s', w);
  }
}
