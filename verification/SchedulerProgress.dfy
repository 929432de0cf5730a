/**
  Which tasks the scheduler (src/scheduler/Scheduler.cpp) leaves behind: a worker that
  found the queue empty goes to sleep without looking at it again, so an enqueue in
  between may be noticed by nobody.
*/
module SchedulerProgress {
  import opened Basics
  import opened SchedulerModel
  import opened SchedulerInvariant
  import opened Scheduler

  /** The worker waits for its condition variable and nothing has been signalled. */
  predicate Sleeping(x: Worker)
  {
    x.pc.Asleep? && x.shouldSleep
  }

  /** The worker has found no task and its next step puts it to sleep. */
  predicate AboutToSleep(x: Worker)
  {
    x.pc.Drowsy? && x.allowedToSleep
  }

  ghost predicate AllSleep(s: State)
  {
    forall w :: 0 <= w < |s.workers| ==> Sleeping(s.workers[w])
  }

  ghost predicate AllAboutToSleep(s: State)
  {
    forall w :: 0 <= w < |s.workers| ==> AboutToSleep(s.workers[w])
  }

  predicate HasWork(s: State, t: TaskId)
  {
    t in s.queue && t in s.tasks && !s.tasks[t].exhausted
  }

  /** Everybody sleeps although a task with work is queued. */
  ghost predicate LeftBehind(s: State, t: TaskId)
  {
    HasWork(s, t) && AllSleep(s)
  }

  // ----- When nobody can move -----

  lemma SleepersCannotMove(s: State, w: WorkerId)
    requires AllSleep(s)
    ensures !CanMove(s, w)
  {
  }

  /** Some worker has a step exactly if somebody is awake or has been signalled. */
  lemma SomeoneMovesExactly(s: State)
    requires Reachable(s)
    ensures (exists v :: 0 <= v < |s.workers| && CanMove(s, v)) <==> !AllSleep(s)
  {
    hide Reachable, CanMove;
    if AllSleep(s) {
      forall v | 0 <= v < |s.workers|
        ensures !CanMove(s, v)
      {
        SleepersCannotMove(s, v);
      }
    } else {
      var w :| 0 <= w < |s.workers| && !Sleeping(s.workers[w]);
      NeverDeadlocked(s, w);
    }
  }

  /** Once everybody sleeps, only another enqueue can happen. */
  lemma OnlyEnqueueWakes(s: State, step: Step, s': State)
    requires AllSleep(s) && StepTo(s, step, s')
    ensures step.EnqueueStep?
  {
    hide Enqueue, StartFiber, AwaitChild, GoToSleep, LockQueue, ScanTask, ScanYielded, ScanEnd, TakeFiber,
      FindNoFiber, TakeCurrent, CheckHand, Exhaust, StartFails, YieldFiber, RegisterYield, CompleteFiber,
      KeepOrReturn, CountReturn, CheckExhausted, CoolDown, Compare, DeployTask, MakeRunnable, WakeOwner,
      WakeUp, CannotAllocate;
  }

  // ----- What a step does to its worker, to the others and to the tasks -----

  /** At most the worker was signalled. */
  predicate Signalled(x: Worker, x': Worker)
  {
    && x'.pc == x.pc && (x'.allowedToSleep ==> x.allowedToSleep)
    && (x'.shouldSleep ==> x.shouldSleep && x'.inIdleList == x.inIdleList)
  }

  predicate ScansAt(s: State, w: WorkerId)
  {
    w < |s.workers| && Scanning(s.workers[w].pc)
  }

  /** Nobody but the actor moves or changes the queue, and no known task comes back to it or gets new work. */
  ghost predicate Quiet(s: State, s': State, actor: Option<WorkerId>)
  {
    && |s'.workers| == |s.workers|
    && (forall v :: 0 <= v < |s.workers| && actor != Some(v) ==> Signalled(s.workers[v], s'.workers[v]))
    && (forall t :: t in s.tasks ==> t in s'.tasks && (s.tasks[t].exhausted ==> s'.tasks[t].exhausted))
    && (forall t :: t in s.tasks && t in s'.queue ==> t in s.queue)
    && (s'.queue == s.queue || s.queueLock == None || (actor.Some? && ScansAt(s, actor.value)))
  }

  /** A scan in progress has found something or has the task still before it. */
  predicate WillFind(queue: seq<TaskId>, pc: Pc, t: TaskId)
  {
    match pc
    case ScanAt(pos, best) => best.Some? || (pos <= |queue| && t in queue[pos..])
    case ScanYields(pos, best) => best.Some? || (pos <= |queue| && t in queue[pos..])
    case _ => true
  }

  /** The worker will not fall asleep before it has looked for a task and found this one or another. */
  predicate Minds(queue: seq<TaskId>, x: Worker, t: TaskId)
  {
    !Sleeping(x) && !AboutToSleep(x) && WillFind(queue, x.pc, t)
  }

  /**
    The actor goes on minding tasks that have work, sleeps only in the idle list and scans the
    queue from its front.
  */
  ghost predicate Attentive(s: State, s': State, w: WorkerId)
  {
    && w < |s.workers| == |s'.workers|
    && (forall t :: HasWork(s, t) && Minds(s.queue, s.workers[w], t) ==> Minds(s'.queue, s'.workers[w], t))
    && (Sleeping(s'.workers[w]) ==> s'.workers[w].inIdleList)
    && (Scanning(s'.workers[w].pc) && !Scanning(s.workers[w].pc) ==> s'.workers[w].pc == ScanAt(0, None))
  }

  ghost predicate Moves(s: State, s': State, w: WorkerId)
  {
    Quiet(s, s', Some(w)) && Attentive(s, s', w)
  }

  lemma StartMoves(s: State, w: WorkerId)
    ensures CanTakeFiber(s, w) ==> Moves(s, TakeFiber(s, w), w)
    ensures CanFindNoFiber(s, w) ==> Moves(s, FindNoFiber(s, w), w)
    ensures CanCannotAllocate(s, w) ==> Moves(s, CannotAllocate(s, w), w)
  {
  }

  lemma HandMoves(s: State, w: WorkerId)
    ensures CanTakeCurrent(s, w) ==> Moves(s, TakeCurrent(s, w), w)
    ensures CanCheckHand(s, w) ==> Moves(s, CheckHand(s, w), w)
  {
  }

  lemma WorkMoves(s: State, w: WorkerId)
    ensures CanExhaust(s, w) ==> Moves(s, Exhaust(s, w), w)
    ensures CanStartFails(s, w) ==> Moves(s, StartFails(s, w), w)
    ensures CanCompleteFiber(s, w) ==> Moves(s, CompleteFiber(s, w), w)
  {
  }

  lemma YieldMoves(s: State, w: WorkerId)
    ensures CanYieldFiber(s, w) ==> Moves(s, YieldFiber(s, w), w)
    ensures CanRegisterYield(s, w) ==> Moves(s, RegisterYield(s, w), w)
  {
  }

  lemma ReturnMoves(s: State, w: WorkerId)
    ensures CanKeepOrReturn(s, w) ==> Moves(s, KeepOrReturn(s, w), w)
    ensures CanCountReturn(s, w) ==> Moves(s, CountReturn(s, w), w)
    ensures CanCheckExhausted(s, w) ==> Moves(s, CheckExhausted(s, w), w)
  {
  }

  lemma FinalMoves(s: State, w: WorkerId)
    ensures CanCoolDown(s, w) ==> Moves(s, CoolDown(s, w), w)
    ensures CanCompare(s, w) ==> Moves(s, Compare(s, w), w)
  {
    if CanCoolDown(s, w) {
      DequeueSubset(s.queue, s.workers[w].pc.t);
    }
  }

  lemma WakeMoves(s: State, w: WorkerId)
    ensures CanMakeRunnable(s, w) ==> Moves(s, MakeRunnable(s, w), w)
    ensures CanDeployTask(s, w) ==> Moves(s, DeployTask(s, w), w)
  {
  }

  lemma AwakeMoves(s: State, w: WorkerId)
    ensures CanWakeOwner(s, w) ==> Moves(s, WakeOwner(s, w), w)
    ensures CanWakeUp(s, w) ==> Moves(s, WakeUp(s, w), w)
  {
  }

  lemma GoToSleepMoves(s: State, w: WorkerId)
    requires CanGoToSleep(s, w)
    ensures Moves(s, GoToSleep(s, w), w)
  {
  }

  lemma LockQueueMoves(s: State, w: WorkerId)
    requires CanLockQueue(s, w)
    ensures Moves(s, LockQueue(s, w), w)
  {
    assert s.queue[0..] == s.queue;
  }

  lemma ScanTaskMoves(s: State, w: WorkerId)
    requires CanScanTask(s, w)
    ensures Moves(s, ScanTask(s, w), w)
  {
    var pos := s.workers[w].pc.pos;
    assert s.queue[pos..] == [s.queue[pos]] + s.queue[pos + 1..];
    assert (s.queue[..pos] + s.queue[pos + 1..])[pos..] == s.queue[pos + 1..];
  }

  lemma ScanYieldedMoves(s: State, w: WorkerId)
    requires CanScanYielded(s, w)
    ensures Moves(s, ScanYielded(s, w), w)
  {
  }

  /** A scan cannot end empty-handed while a task it had before it has work. */
  lemma ScanEndMoves(s: State, w: WorkerId)
    requires CanScanEnd(s, w)
    ensures Moves(s, ScanEnd(s, w), w)
  {
  }

  lemma EnqueueQuiet(s: State, t: TaskId)
    requires CanEnqueue(s, t)
    ensures Quiet(s, Enqueue(s, t), None)
  {
  }

  lemma StartFiberMoves(s: State, w: WorkerId, f: FiberId)
    requires CanStartFiber(s, w, f)
    ensures Moves(s, StartFiber(s, w, f), w)
  {
  }

  lemma AwaitChildMoves(s: State, w: WorkerId, child: TaskId)
    requires CanAwaitChild(s, w, child)
    ensures Moves(s, AwaitChild(s, w, child), w)
  {
  }

  /** Every step is the move of one worker or an enqueue from outside. */
  lemma StepMoves(s: State, step: Step, s': State)
    requires StepTo(s, step, s')
    ensures if step.EnqueueStep? then Quiet(s, s', None) else Moves(s, s', step.w)
  {
    hide Moves, Quiet, Enqueue, StartFiber, AwaitChild, GoToSleep, LockQueue, ScanTask, ScanYielded, ScanEnd,
      TakeFiber, FindNoFiber, CannotAllocate, TakeCurrent, CheckHand, Exhaust, StartFails, YieldFiber,
      RegisterYield, CompleteFiber, KeepOrReturn, CountReturn, CheckExhausted, CoolDown, Compare, DeployTask,
      MakeRunnable, WakeOwner, WakeUp, CanEnqueue, CanStartFiber, CanAwaitChild, CanGoToSleep, CanLockQueue,
      CanScanTask, CanScanYielded, CanScanEnd, CanTakeFiber, CanFindNoFiber, CanCannotAllocate,
      CanTakeCurrent, CanCheckHand, CanExhaust, CanStartFails, CanYieldFiber, CanRegisterYield,
      CanCompleteFiber, CanKeepOrReturn, CanCountReturn, CanCheckExhausted, CanCoolDown, CanCompare,
      CanDeployTask, CanMakeRunnable, CanWakeOwner, CanWakeUp;
    match step
    case EnqueueStep(t) => EnqueueQuiet(s, t);
    case StartFiberStep(w, f) => StartFiberMoves(s, w, f);
    case AwaitChildStep(w, child) => AwaitChildMoves(s, w, child);
    case LockQueueStep(w) => LockQueueMoves(s, w);
    case ScanTaskStep(w) => ScanTaskMoves(s, w);
    case ScanYieldedStep(w) => ScanYieldedMoves(s, w);
    case ScanEndStep(w) => ScanEndMoves(s, w);
    case GoToSleepStep(w) => GoToSleepMoves(s, w);
    case _ =>
      StartMoves(s, step.w); HandMoves(s, step.w); WorkMoves(s, step.w); YieldMoves(s, step.w);
      ReturnMoves(s, step.w); FinalMoves(s, step.w); WakeMoves(s, step.w); AwakeMoves(s, step.w);
  }

  lemma {:induction false} DequeueSubset(q: seq<TaskId>, t: TaskId)
    ensures forall u :: u in Dequeue(q, t) ==> u in q
  {
    if q == [] {
    } else {
      DequeueSubset(q[1..], t);
    }
  }

  // ----- Sleepers are in the idle list -----

  ghost predicate SleepersListed(s: State)
  {
    forall w :: 0 <= w < |s.workers| && Sleeping(s.workers[w]) ==> s.workers[w].inIdleList
  }

  lemma ListedStep(s: State, step: Step, s': State)
    requires SleepersListed(s) && StepTo(s, step, s')
    ensures SleepersListed(s')
  {
    hide StepTo;
    StepMoves(s, step, s');
  }

  lemma ListedInit(s: State)
    requires Init(s)
    ensures SleepersListed(s)
  {
  }

  lemma {:induction false} ListedInRun(trace: seq<State>, i: nat)
    requires Run(trace) && i < |trace|
    ensures SleepersListed(trace[i])
  {
    hide StepTo, SleepersListed, Init;
    if i == 0 {
      ListedInit(trace[0]);
    } else {
      ListedInRun(trace, i - 1);
      assert Next(trace[i - 1], trace[i - 1 + 1]);
      var step :| StepTo(trace[i - 1], step, trace[i]);
      ListedStep(trace[i - 1], step, trace[i]);
    }
  }

  lemma ReachableListed(s: State)
    requires Reachable(s)
    ensures SleepersListed(s)
  {
    hide SleepersListed, Init;
    var trace, i :| Run(trace) && 0 <= i < |trace| && trace[i] == s;
    ListedInRun(trace, i);
  }

  // ----- A worker that minds a task goes on minding it -----

  lemma MindsStep(s: State, step: Step, s': State, w: WorkerId, t: TaskId)
    requires LockOk(s) && StepTo(s, step, s') && HasWork(s, t)
    requires w < |s.workers| && Minds(s.queue, s.workers[w], t)
    ensures |s'.workers| == |s.workers| && Minds(s'.queue, s'.workers[w], t)
  {
    hide StepTo, Minds;
    StepMoves(s, step, s');
    if step.EnqueueStep? || step.w != w {
      SignalledMinds(s.queue, s'.queue, s.workers[w], s'.workers[w], t);
    }
  }

  lemma SignalledMinds(queue: seq<TaskId>, queue': seq<TaskId>, x: Worker, x': Worker, t: TaskId)
    requires Signalled(x, x') && Minds(queue, x, t) && (queue' == queue || !Scanning(x.pc))
    ensures Minds(queue', x', t)
  {
  }

  /** A task that has left the queue, or has run out of work, stays that way. */
  lemma HadWork(s: State, step: Step, s': State, t: TaskId)
    requires StepTo(s, step, s') && t in s.tasks
    ensures t in s'.tasks && (HasWork(s', t) ==> HasWork(s, t))
  {
    hide StepTo;
    StepMoves(s, step, s');
  }

  /** Steps one after the other. */
  ghost predicate Path(trace: seq<State>)
  {
    trace != [] && forall i :: 0 <= i < |trace| - 1 ==> Next(trace[i], trace[i + 1])
  }

  lemma {:induction false} MindsAlong(trace: seq<State>, i: nat, w: WorkerId, t: TaskId)
    requires Path(trace) && i < |trace| && Inv(trace[0]) && t in trace[0].tasks
    requires w < |trace[0].workers| && Minds(trace[0].queue, trace[0].workers[w], t)
    ensures Inv(trace[i]) && t in trace[i].tasks && |trace[i].workers| == |trace[0].workers|
    ensures HasWork(trace[i], t) ==> Minds(trace[i].queue, trace[i].workers[w], t)
  {
    hide StepTo, Inv, HasWork, Minds;
    if i == 0 {
    } else {
      MindsAlong(trace, i - 1, w, t);
      var s := trace[i - 1];
      assert Next(trace[i - 1], trace[i - 1 + 1]);
      var step :| StepTo(s, step, trace[i]);
      StepKeepsInv(s, step, trace[i]);
      HadWork(s, step, trace[i], t);
      SameCrew(s, step, trace[i]);
      InvQueue(s);
      if HasWork(trace[i], t) {
        MindsStep(s, step, trace[i], w, t);
      }
    }
  }

  lemma SameCrew(s: State, step: Step, s': State)
    requires StepTo(s, step, s')
    ensures |s'.workers| == |s.workers|
  {
    hide StepTo;
    StepMoves(s, step, s');
  }

  lemma MindersDoNotSleep(s: State, w: WorkerId, t: TaskId)
    requires w < |s.workers| && (HasWork(s, t) ==> Minds(s.queue, s.workers[w], t))
    ensures !LeftBehind(s, t)
  {
  }

  // ----- Exactly when an enqueued task can be left behind -----

  /** The task may go unnoticed: some continuation ends with everybody asleep and the task queued. */
  ghost predicate MayBeLeft(s: State, t: TaskId)
  {
    exists trace :: Path(trace) && trace[0] == s && LeftBehind(trace[|trace| - 1], t)
  }

  lemma NotLeft(s: State, w: WorkerId, t: TaskId)
    requires Inv(s) && t in s.tasks && w < |s.workers| && Minds(s.queue, s.workers[w], t)
    ensures !MayBeLeft(s, t)
  {
    hide Inv, Minds, HasWork, LeftBehind;
    forall trace | Path(trace) && trace[0] == s
      ensures !LeftBehind(trace[|trace| - 1], t)
    {
      MindsAlong(trace, |trace| - 1, w, t);
      MindersDoNotSleep(trace[|trace| - 1], w, t);
    }
  }

  /** An enqueue signals every sleeper, and nobody scans while it holds the mutex. */
  lemma EnqueueMinded(s: State, t: TaskId, w: WorkerId)
    requires LockOk(s) && SleepersListed(s) && CanEnqueue(s, t) && w < |s.workers| && !AboutToSleep(s.workers[w])
    ensures var s' := Enqueue(s, t); |s'.workers| == |s.workers| && Minds(s'.queue, s'.workers[w], t)
  {
  }

  /** From worker `k` on they fall asleep one after the other. */
  lemma {:induction false} SleepOneByOne(s: State, k: nat, t: TaskId) returns (trace: seq<State>)
    requires HasWork(s, t) && s.queueLock == None && k <= |s.workers|
    requires forall w :: 0 <= w < k ==> Sleeping(s.workers[w])
    requires forall w :: k <= w < |s.workers| ==> AboutToSleep(s.workers[w])
    ensures Path(trace) && trace[0] == s && LeftBehind(trace[|trace| - 1], t)
    decreases |s.workers| - k
  {
    if k == |s.workers| {
      trace := [s];
    } else {
      var s' := GoToSleep(s, k);
      var rest := SleepOneByOne(s', k + 1, t);
      assert StepTo(s, GoToSleepStep(k), s');
      trace := [s] + rest;
      PathFrom(s, rest);
    }
  }

  lemma PathFrom(s: State, rest: seq<State>)
    requires Path(rest) && Next(s, rest[0])
    ensures Path([s] + rest)
  {
    var trace := [s] + rest;
    forall i | 0 <= i < |trace| - 1
      ensures Next(trace[i], trace[i + 1])
    {
      if i > 0 {
        assert Next(rest[i - 1], rest[i - 1 + 1]);
      }
    }
  }

  lemma EnqueueUnminded(s: State, t: TaskId)
    requires CanEnqueue(s, t) && AllAboutToSleep(s)
    ensures MayBeLeft(Enqueue(s, t), t)
  {
    var trace := SleepOneByOne(Enqueue(s, t), 0, t);
  }

  /**
    A task enqueued from outside can be left behind exactly if at that moment every
    worker has already found the queue empty and is about to go to sleep.
  */
  lemma LeftBehindExactly(s: State, t: TaskId)
    requires Reachable(s) && CanEnqueue(s, t)
    ensures MayBeLeft(Enqueue(s, t), t) <==> AllAboutToSleep(s)
  {
    hide Inv, Reachable, Minds, MayBeLeft, Enqueue, LockOk, SleepersListed;
    if AllAboutToSleep(s) {
      EnqueueUnminded(s, t);
    } else {
      var w :| 0 <= w < |s.workers| && !AboutToSleep(s.workers[w]);
      ReachableInv(s);
      ReachableListed(s);
      InvQueue(s);
      EnqueueMinded(s, t, w);
      EnqueueKnown(s, t);
      NotLeft(Enqueue(s, t), w, t);
    }
  }

  lemma EnqueueKnown(s: State, t: TaskId)
    requires Inv(s) && CanEnqueue(s, t)
    ensures t in Enqueue(s, t).tasks && Inv(Enqueue(s, t))
  {
    hide Inv;
    StepKeepsInv(s, EnqueueStep(t), Enqueue(s, t));
  }

  /** A child task is never left behind: the worker whose fiber awaits it is awake and will look for a task. */
  lemma ChildNeverLeft(s: State, w: WorkerId, child: TaskId)
    requires Reachable(s) && CanAwaitChild(s, w, child)
    ensures !MayBeLeft(AwaitChild(s, w, child), child)
  {
    hide Inv, Reachable, MayBeLeft;
    ReachableInv(s);
    StepKeepsInv(s, AwaitChildStep(w, child), AwaitChild(s, w, child));
    NotLeft(AwaitChild(s, w, child), w, child);
  }

  // ----- A run that leaves a task behind -----

  /** A single worker with nothing to do. */
  function Alone(pc: Pc, lock: Option<WorkerId>): State
  {
    State(map[], map[], [Worker(pc, None, [], map[], true, true, false, 0)], [], lock, [])
  }

  lemma AloneSteps()
    ensures StepTo(Alone(Top, None), FindNoFiberStep(0), Alone(NoFiber, None))
    ensures StepTo(Alone(NoFiber, None), TakeCurrentStep(0), Alone(NeedTask, None))
    ensures StepTo(Alone(NeedTask, None), LockQueueStep(0), Alone(ScanAt(0, None), Some(0)))
    ensures StepTo(Alone(ScanAt(0, None), Some(0)), ScanEndStep(0), Alone(Drowsy, None))
  {
  }

  lemma AloneLeft() returns (s: State, s': State)
    ensures StepTo(Alone(Drowsy, None), EnqueueStep(0), s) && StepTo(s, GoToSleepStep(0), s')
    ensures LeftBehind(s', 0) && s'.queue == [0] && s'.tasks[0] == NewTask(None) && |s'.workers| == 1
  {
    s := Enqueue(Alone(Drowsy, None), 0);
    s' := GoToSleep(s, 0);
  }

  /** One worker finds nothing, a task is enqueued, the worker goes to sleep: the task is never deployed. */
  lemma TaskLeftBehind() returns (trace: seq<State>, s: State)
    ensures Run(trace) && s == trace[|trace| - 1] && |s.workers| == 1
    ensures LeftBehind(s, 0) && s.queue == [0] && s.tasks[0] == NewTask(None)
    ensures forall step, s' :: StepTo(s, step, s') ==> step.EnqueueStep?
  {
    hide StepTo, LeftBehind;
    AloneSteps();
    var queued;
    queued, s := AloneLeft();
    trace := [Alone(Top, None), Alone(NoFiber, None), Alone(NeedTask, None), Alone(ScanAt(0, None), Some(0)),
              Alone(Drowsy, None), queued, s];
    assert forall i :: 0 <= i < |trace| - 1 ==> Next(trace[i], trace[i + 1]);
    forall step, s' | StepTo(s, step, s')
      ensures step.EnqueueStep?
    {
      AllSleepWhenLeft(s, 0);
      OnlyEnqueueWakes(s, step, s');
    }
  }

  lemma AllSleepWhenLeft(s: State, t: TaskId)
    requires LeftBehind(s, t)
    ensures AllSleep(s)
  {
  }
}
