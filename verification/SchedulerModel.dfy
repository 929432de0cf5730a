/**
  The fiber scheduler (src/scheduler/Scheduler.cpp) as a state machine over its
  atomic steps.

  A step is one access to shared data, or one critical section whose data is
  only touched under its mutex. Task selection holds `taskQueueMutex` over several
  steps because `hasWork()` and `yieldedFibers` are read without any mutex, so they
  may change while a worker is scanning the queue. Any number of workers take steps
  in any order.

  `allocateWork` is the task's own code: it may reserve a unit or not, but it only
  fails once the task's `workExhausted` is set, and nothing else sets that flag.
  `reserved`, `performed`, `finalizations`, `lastReturn` and `waker` record history
  and are never read by a step.
*/
module SchedulerModel {
  import opened Basics

  type TaskId = nat
  type FiberId = nat
  type WorkerId = nat

  datatype Task = Task(
    exhausted: bool, coolingDown: bool, finalized: bool,
    yieldedFibers: int, nonCompletedFibers: int, deployed: int, returned: int,
    waiter: Option<WorkerId>,
    reserved: nat, performed: nat, finalizations: nat, lastReturn: WorkerId)

  /** A fiber that was started and has not finished. `detached` fibers have yielded and keep their task deployed. */
  datatype Fiber = Fiber(owner: WorkerId, task: TaskId, running: bool, detached: bool, registered: bool,
    awaits: Option<TaskId>)

  /** Where a worker is in its loop. */
  datatype Pc =
    | Top
    | NoFiber
    | InHand(t: TaskId)
    | NeedTask
    | ScanAt(pos: nat, best: Option<(int, TaskId)>)
    | ScanYields(pos: nat, best: Option<(int, TaskId)>)
    | Deploying(t: TaskId)
    | Drowsy
    | Asleep
    | Starting(t: TaskId)
    | Running(f: FiberId, hand: Option<TaskId>)
    | Awaiting(f: FiberId, child: TaskId, hand: Option<TaskId>)
    | Yielded(f: FiberId)
    | Finished(t: TaskId)
    | Returning(t: TaskId)
    | Returned(t: TaskId, num: int)
    | Cooling(t: TaskId, num: int)
    | Comparing(t: TaskId, num: int)
    | Finalizing(t: TaskId)
    | Waking(v: WorkerId)

  datatype Worker = Worker(
    pc: Pc, currentTask: Option<TaskId>,
    runnable: seq<FiberId>, waiting: map<TaskId, FiberId>,
    allowedToSleep: bool, shouldSleep: bool, inIdleList: bool, waker: WorkerId)

  datatype State = State(
    tasks: map<TaskId, Task>, fibers: map<FiberId, Fiber>, workers: seq<Worker>,
    queue: seq<TaskId>, queueLock: Option<WorkerId>, idle: seq<WorkerId>)

  // ----- What a worker holds -----

  /** The task a worker holds in its local variable `currTask` and still owes to the scheduler. */
  function Hand(pc: Pc): Option<TaskId>
  {
    match pc
    case InHand(t) => Some(t)
    case Starting(t) => Some(t)
    case Running(_, hand) => hand
    case Awaiting(_, _, hand) => hand
    case Finished(t) => Some(t)
    case Returning(t) => Some(t)
    case _ => None
  }

  /** The fiber executing on a worker. */
  function OnWorker(pc: Pc): Option<FiberId>
  {
    match pc
    case Running(f, _) => Some(f)
    case Awaiting(f, _, _) => Some(f)
    case _ => None
  }

  /** A worker inside returnTask, past the counter, with the number it drew. */
  function Return(pc: Pc): Option<(TaskId, int)>
  {
    match pc
    case Returned(t, num) => Some((t, num))
    case Cooling(t, num) => Some((t, num))
    case Comparing(t, num) => Some((t, num))
    case _ => None
  }

  predicate Scanning(pc: Pc)
  {
    pc.ScanAt? || pc.ScanYields? || pc.Deploying?
  }

  // ----- Updates -----

  function NewTask(waiter: Option<WorkerId>): Task
  {
    Task(false, false, false, 0, 0, 0, 0, waiter, 0, 0, 0, 0)
  }

  function Goto(s: State, w: WorkerId, pc: Pc): State
    requires w < |s.workers|
  {
    s.(workers := s.workers[w := s.workers[w].(pc := pc)])
  }

  function PutTask(s: State, t: TaskId, x: Task): State
  {
    s.(tasks := s.tasks[t := x])
  }

  function Dequeue(q: seq<TaskId>, t: TaskId): seq<TaskId>
  {
    if q == [] then [] else if q[0] == t then q[1..] else [q[0]] + Dequeue(q[1..], t)
  }

  /** enqueueTask: append the task and wake every idle worker. */
  function EnqueueTask(s: State, t: TaskId, x: Task): State
  {
    s.(tasks := s.tasks[t := x], queue := s.queue + [t], idle := [],
       workers := seq(|s.workers|, i requires 0 <= i < |s.workers| =>
         if s.workers[i].inIdleList then s.workers[i].(inIdleList := false, shouldSleep := false) else s.workers[i]))
  }

  // ----- Steps -----

  predicate FiberYielded(s: State, v: WorkerId, child: TaskId)
  {
    && v < |s.workers| && child in s.workers[v].waiting
    && s.workers[v].waiting[child] in s.fibers && !s.fibers[s.workers[v].waiting[child]].running
  }

  /** awaitEntryTask and enqueueTask, by any thread. */
  predicate CanEnqueue(s: State, t: TaskId)
  {
    s.queueLock == None && t !in s.tasks
  }

  function Enqueue(s: State, t: TaskId): State
    requires CanEnqueue(s, t)
  {
    EnqueueTask(s, t, NewTask(None))
  }

  /** Lines 629-636: resume the front of runnableFibers. */
  predicate CanTakeFiber(s: State, w: WorkerId)
  {
    w < |s.workers| && s.workers[w].pc.Top? && s.workers[w].runnable != [] && s.workers[w].runnable[0] in s.fibers
  }

  function TakeFiber(s: State, w: WorkerId): State
    requires CanTakeFiber(s, w)
  {
    var x := s.workers[w];
    var f := x.runnable[0];
    s.(workers := s.workers[w := x.(pc := Running(f, None), runnable := x.runnable[1..])],
       fibers := s.fibers[f := s.fibers[f].(running := true)])
  }

  /** Lines 629-636: nothing is runnable. */
  predicate CanFindNoFiber(s: State, w: WorkerId)
  {
    w < |s.workers| && s.workers[w].pc.Top? && s.workers[w].runnable == []
  }

  function FindNoFiber(s: State, w: WorkerId): State
    requires CanFindNoFiber(s, w)
  {
    Goto(s, w, NoFiber)
  }

  /** Line 709: no stack is left for another fiber. */
  predicate CanCannotAllocate(s: State, w: WorkerId)
  {
    w < |s.workers| && s.workers[w].pc.NoFiber?
  }

  function CannotAllocate(s: State, w: WorkerId): State
    requires CanCannotAllocate(s, w)
  {
    Goto(s, w, Top)
  }

  /** Lines 656-671: go on with the task kept from the last turn, if any. */
  predicate CanTakeCurrent(s: State, w: WorkerId)
  {
    w < |s.workers| && s.workers[w].pc.NoFiber?
  }

  function TakeCurrent(s: State, w: WorkerId): State
    requires CanTakeCurrent(s, w)
  {
    var x := s.workers[w];
    if x.currentTask.Some?
    then s.(workers := s.workers[w := x.(pc := InHand(x.currentTask.value), currentTask := None)])
    else Goto(s, w, NeedTask)
  }

  /** Lines 664-668. */
  predicate CanCheckHand(s: State, w: WorkerId)
  {
    w < |s.workers| && s.workers[w].pc.InHand? && s.workers[w].pc.t in s.tasks
  }

  function CheckHand(s: State, w: WorkerId): State
    requires CanCheckHand(s, w)
  {
    var t := s.workers[w].pc.t;
    Goto(s, w, if s.tasks[t].exhausted then Returning(t) else Starting(t))
  }

  /** getTask, line 428. */
  predicate CanLockQueue(s: State, w: WorkerId)
  {
    w < |s.workers| && s.workers[w].pc.NeedTask? && s.queueLock == None
  }

  function LockQueue(s: State, w: WorkerId): State
    requires CanLockQueue(s, w)
  {
    Goto(s, w, ScanAt(0, None)).(queueLock := Some(w))
  }

  /** getTask, lines 432-440: drop an exhausted task from the queue. */
  predicate CanScanTask(s: State, w: WorkerId)
  {
    w < |s.workers| && s.workers[w].pc.ScanAt? && s.workers[w].pc.pos < |s.queue|
      && s.queue[s.workers[w].pc.pos] in s.tasks
  }

  function ScanTask(s: State, w: WorkerId): State
    requires CanScanTask(s, w)
  {
    var pc := s.workers[w].pc;
    var t := s.queue[pc.pos];
    if s.tasks[t].exhausted
    then PutTask(s, t, s.tasks[t].(coolingDown := true)).(queue := s.queue[..pc.pos] + s.queue[pc.pos + 1..])
    else Goto(s, w, ScanYields(pc.pos, pc.best))
  }

  /** getTask, lines 441-451: take a task without yielded fibers, else remember the one with fewest. */
  predicate CanScanYielded(s: State, w: WorkerId)
  {
    w < |s.workers| && s.workers[w].pc.ScanYields? && s.workers[w].pc.pos < |s.queue|
      && s.queue[s.workers[w].pc.pos] in s.tasks
  }

  function ScanYielded(s: State, w: WorkerId): State
    requires CanScanYielded(s, w)
  {
    var pc := s.workers[w].pc;
    var t := s.queue[pc.pos];
    var y := s.tasks[t].yieldedFibers;
    if y == 0 then Goto(s, w, Deploying(t))
    else
      var better := y < 0 || pc.best == None || y < pc.best.value.0;
      Goto(s, w, ScanAt(pc.pos + 1, if better then Some((y, t)) else pc.best))
  }

  /** getTask, lines 453-456. */
  predicate CanScanEnd(s: State, w: WorkerId)
  {
    w < |s.workers| && s.workers[w].pc.ScanAt? && s.workers[w].pc.pos == |s.queue|
  }

  function ScanEnd(s: State, w: WorkerId): State
    requires CanScanEnd(s, w)
  {
    var pc := s.workers[w].pc;
    if pc.best.Some? then Goto(s, w, Deploying(pc.best.value.1)) else Goto(s, w, Drowsy).(queueLock := None)
  }

  /** getTask, lines 443-444 and 454-456. */
  predicate CanDeployTask(s: State, w: WorkerId)
  {
    w < |s.workers| && s.workers[w].pc.Deploying? && s.workers[w].pc.t in s.tasks
  }

  function DeployTask(s: State, w: WorkerId): State
    requires CanDeployTask(s, w)
  {
    var t := s.workers[w].pc.t;
    PutTask(Goto(s, w, Starting(t)), t, s.tasks[t].(deployed := s.tasks[t].deployed + 1)).(queueLock := None)
  }

  /** allocateWork runs out of work. */
  predicate CanExhaust(s: State, w: WorkerId)
  {
    w < |s.workers| && s.workers[w].pc.Starting? && s.workers[w].pc.t in s.tasks
  }

  function Exhaust(s: State, w: WorkerId): State
    requires CanExhaust(s, w)
  {
    var t := s.workers[w].pc.t;
    PutTask(s, t, s.tasks[t].(exhausted := true))
  }

  /** startFiber succeeds and the fiber begins to run, lines 294-297 and 680-685. */
  predicate CanStartFiber(s: State, w: WorkerId, f: FiberId)
  {
    w < |s.workers| && s.workers[w].pc.Starting? && s.workers[w].pc.t in s.tasks && f !in s.fibers
  }

  function StartFiber(s: State, w: WorkerId, f: FiberId): State
    requires CanStartFiber(s, w, f)
  {
    var t := s.workers[w].pc.t;
    var task := s.tasks[t].(reserved := s.tasks[t].reserved + 1,
      nonCompletedFibers := s.tasks[t].nonCompletedFibers + 1);
    PutTask(Goto(s, w, Running(f, Some(t))), t, task).(fibers := s.fibers[f := Fiber(w, t, true, false, false, None)])
  }

  /** startFiber fails, lines 675-677. */
  predicate CanStartFails(s: State, w: WorkerId)
  {
    w < |s.workers| && s.workers[w].pc.Starting? && s.workers[w].pc.t in s.tasks && s.tasks[s.workers[w].pc.t].exhausted
  }

  function StartFails(s: State, w: WorkerId): State
    requires CanStartFails(s, w)
  {
    Goto(s, w, Returning(s.workers[w].pc.t))
  }

  /** awaitChildTask, lines 600-622: park the running fiber and enqueue the child. */
  predicate CanAwaitChild(s: State, w: WorkerId, child: TaskId)
  {
    w < |s.workers| && s.workers[w].pc.Running? && s.workers[w].pc.f in s.fibers && s.queueLock == None
      && child !in s.tasks
  }

  /** The running fiber moves from the worker to its waitingOnTasks. */
  function Park(s: State, w: WorkerId, child: TaskId): State
    requires CanAwaitChild(s, w, child)
  {
    var x := s.workers[w];
    var f := x.pc.f;
    s.(workers := s.workers[w := x.(pc := Awaiting(f, child, x.pc.hand), waiting := x.waiting[child := f])],
       fibers := s.fibers[f := s.fibers[f].(awaits := Some(child))])
  }

  function AwaitChild(s: State, w: WorkerId, child: TaskId): State
    requires CanAwaitChild(s, w, child)
  {
    EnqueueTask(Park(s, w, child), child, NewTask(Some(w)))
  }

  /** awaitChildTask, line 623: the fiber yields back to its worker. */
  predicate CanYieldFiber(s: State, w: WorkerId)
  {
    w < |s.workers| && s.workers[w].pc.Awaiting? && s.workers[w].pc.f in s.fibers
  }

  function YieldFiber(s: State, w: WorkerId): State
    requires CanYieldFiber(s, w)
  {
    var pc := s.workers[w].pc;
    Goto(s, w, if pc.hand.Some? then Yielded(pc.f) else Top)
      .(fibers := s.fibers[pc.f := s.fibers[pc.f].(running := false, detached := true)])
  }

  /** Lines 689-693: the fiber's first yield is counted. */
  predicate CanRegisterYield(s: State, w: WorkerId)
  {
    w < |s.workers| && s.workers[w].pc.Yielded? && s.workers[w].pc.f in s.fibers
      && s.fibers[s.workers[w].pc.f].task in s.tasks
  }

  function RegisterYield(s: State, w: WorkerId): State
    requires CanRegisterYield(s, w)
  {
    var f := s.workers[w].pc.f;
    var t := s.fibers[f].task;
    PutTask(Goto(s, w, Top), t, s.tasks[t].(yieldedFibers := s.tasks[t].yieldedFibers + 1))
      .(fibers := s.fibers[f := s.fibers[f].(registered := true)])
  }

  /** Lines 637-641, 643-650 and 686-688: the fiber has performed its unit of work. */
  predicate CanCompleteFiber(s: State, w: WorkerId)
  {
    w < |s.workers| && s.workers[w].pc.Running? && s.workers[w].pc.f in s.fibers
      && s.fibers[s.workers[w].pc.f].task in s.tasks
  }

  function CompleteFiber(s: State, w: WorkerId): State
    requires CanCompleteFiber(s, w)
  {
    var pc := s.workers[w].pc;
    var t := s.fibers[pc.f].task;
    var task := s.tasks[t].(
      nonCompletedFibers := s.tasks[t].nonCompletedFibers - 1, performed := s.tasks[t].performed + 1,
      yieldedFibers := if pc.hand.Some? then s.tasks[t].yieldedFibers else s.tasks[t].yieldedFibers - 1);
    PutTask(Goto(s, w, if pc.hand.Some? then Finished(t) else Returning(t)), t, task).(fibers := s.fibers - {pc.f})
  }

  /** Lines 694-699. */
  predicate CanKeepOrReturn(s: State, w: WorkerId)
  {
    w < |s.workers| && s.workers[w].pc.Finished? && s.workers[w].pc.t in s.tasks
  }

  function KeepOrReturn(s: State, w: WorkerId): State
    requires CanKeepOrReturn(s, w)
  {
    var x := s.workers[w];
    if s.tasks[x.pc.t].exhausted then Goto(s, w, Returning(x.pc.t))
    else s.(workers := s.workers[w := x.(pc := Top, currentTask := Some(x.pc.t))])
  }

  /** returnTask, line 461. */
  predicate CanCountReturn(s: State, w: WorkerId)
  {
    w < |s.workers| && s.workers[w].pc.Returning? && s.workers[w].pc.t in s.tasks
  }

  function CountReturn(s: State, w: WorkerId): State
    requires CanCountReturn(s, w)
  {
    var t := s.workers[w].pc.t;
    var num := s.tasks[t].returned + 1;
    PutTask(Goto(s, w, Returned(t, num)), t, s.tasks[t].(returned := num, lastReturn := w))
  }

  /** returnTask, line 462. */
  predicate CanCheckExhausted(s: State, w: WorkerId)
  {
    w < |s.workers| && s.workers[w].pc.Returned? && s.workers[w].pc.t in s.tasks
  }

  function CheckExhausted(s: State, w: WorkerId): State
    requires CanCheckExhausted(s, w)
  {
    var pc := s.workers[w].pc;
    Goto(s, w, if s.tasks[pc.t].exhausted then Cooling(pc.t, pc.num) else Top)
  }

  /** returnTask, lines 463-469. */
  predicate CanCoolDown(s: State, w: WorkerId)
  {
    w < |s.workers| && s.workers[w].pc.Cooling? && s.workers[w].pc.t in s.tasks && s.queueLock == None
  }

  function CoolDown(s: State, w: WorkerId): State
    requires CanCoolDown(s, w)
  {
    var pc := s.workers[w].pc;
    var moved := Goto(s, w, Comparing(pc.t, pc.num));
    if s.tasks[pc.t].coolingDown then moved
    else PutTask(moved, pc.t, s.tasks[pc.t].(coolingDown := true)).(queue := Dequeue(s.queue, pc.t))
  }

  /** returnTask, lines 471-477. */
  predicate CanCompare(s: State, w: WorkerId)
  {
    w < |s.workers| && s.workers[w].pc.Comparing? && s.workers[w].pc.t in s.tasks
  }

  function Compare(s: State, w: WorkerId): State
    requires CanCompare(s, w)
  {
    var pc := s.workers[w].pc;
    var task := s.tasks[pc.t];
    if task.deployed == pc.num
    then PutTask(Goto(s, w, Finalizing(pc.t)), pc.t, task.(finalized := true, finalizations := task.finalizations + 1))
    else Goto(s, w, Top)
  }

  /** onFinalize, lines 608-618: once the waiting fiber has yielded, move it to its worker's runnableFibers. */
  predicate CanMakeRunnable(s: State, w: WorkerId)
  {
    w < |s.workers| && s.workers[w].pc.Finalizing? && s.workers[w].pc.t in s.tasks
      && (s.tasks[s.workers[w].pc.t].waiter.Some? ==>
      FiberYielded(s, s.tasks[s.workers[w].pc.t].waiter.value, s.workers[w].pc.t))
  }

  function MakeRunnable(s: State, w: WorkerId): State
    requires CanMakeRunnable(s, w)
  {
    var c := s.workers[w].pc.t;
    match s.tasks[c].waiter
    case None => Goto(s, w, Top)
    case Some(v) =>
      var moved := Goto(s, w, Waking(v));
      var y := moved.workers[v];
      moved.(workers := moved.workers[v :=
        y.(runnable := y.runnable + [y.waiting[c]], waiting := y.waiting - {c}, waker := w)])
  }

  /** wakeupWorker, lines 590-597. */
  predicate CanWakeOwner(s: State, w: WorkerId)
  {
    w < |s.workers| && s.workers[w].pc.Waking? && s.workers[w].pc.v < |s.workers|
  }

  function WakeOwner(s: State, w: WorkerId): State
    requires CanWakeOwner(s, w)
  {
    var v := s.workers[w].pc.v;
    var moved := Goto(s, w, Top);
    moved.(workers := moved.workers[v := moved.workers[v].(allowedToSleep := false, shouldSleep := false)])
  }

  /** putWorkerToSleep, lines 875-889. */
  predicate CanGoToSleep(s: State, w: WorkerId)
  {
    w < |s.workers| && s.workers[w].pc.Drowsy? && s.queueLock == None
  }

  function GoToSleep(s: State, w: WorkerId): State
    requires CanGoToSleep(s, w)
  {
    var x := s.workers[w];
    if x.allowedToSleep
    then s.(workers := s.workers[w := x.(pc := Asleep, shouldSleep := true, inIdleList := true)],
            idle := if x.inIdleList then s.idle else [w] + s.idle)
    else s.(workers := s.workers[w := x.(pc := Top, allowedToSleep := true)])
  }

  /** putWorkerToSleep, line 886: the condition variable's predicate holds. */
  predicate CanWakeUp(s: State, w: WorkerId)
  {
    w < |s.workers| && s.workers[w].pc.Asleep? && !s.workers[w].shouldSleep
  }

  function WakeUp(s: State, w: WorkerId): State
    requires CanWakeUp(s, w)
  {
    Goto(s, w, Top)
  }

  /** The steps, with their parameters. */
  datatype Step =
    | EnqueueStep(t: TaskId)
    | StartFiberStep(w: WorkerId, f: FiberId)
    | AwaitChildStep(w: WorkerId, child: TaskId)
    | TakeFiberStep(w: WorkerId)
    | FindNoFiberStep(w: WorkerId)
    | CannotAllocateStep(w: WorkerId)
    | TakeCurrentStep(w: WorkerId)
    | CheckHandStep(w: WorkerId)
    | LockQueueStep(w: WorkerId)
    | ScanTaskStep(w: WorkerId)
    | ScanYieldedStep(w: WorkerId)
    | ScanEndStep(w: WorkerId)
    | DeployTaskStep(w: WorkerId)
    | ExhaustStep(w: WorkerId)
    | StartFailsStep(w: WorkerId)
    | YieldFiberStep(w: WorkerId)
    | RegisterYieldStep(w: WorkerId)
    | CompleteFiberStep(w: WorkerId)
    | KeepOrReturnStep(w: WorkerId)
    | CountReturnStep(w: WorkerId)
    | CheckExhaustedStep(w: WorkerId)
    | CoolDownStep(w: WorkerId)
    | CompareStep(w: WorkerId)
    | MakeRunnableStep(w: WorkerId)
    | WakeOwnerStep(w: WorkerId)
    | GoToSleepStep(w: WorkerId)
    | WakeUpStep(w: WorkerId)

  ghost predicate StepTo(s: State, step: Step, s': State)
  {
    match step
    case EnqueueStep(t) => CanEnqueue(s, t) && s' == Enqueue(s, t)
    case StartFiberStep(w, f) => CanStartFiber(s, w, f) && s' == StartFiber(s, w, f)
    case AwaitChildStep(w, child) => CanAwaitChild(s, w, child) && s' == AwaitChild(s, w, child)
    case TakeFiberStep(w) => CanTakeFiber(s, w) && s' == TakeFiber(s, w)
    case FindNoFiberStep(w) => CanFindNoFiber(s, w) && s' == FindNoFiber(s, w)
    case CannotAllocateStep(w) => CanCannotAllocate(s, w) && s' == CannotAllocate(s, w)
    case TakeCurrentStep(w) => CanTakeCurrent(s, w) && s' == TakeCurrent(s, w)
    case CheckHandStep(w) => CanCheckHand(s, w) && s' == CheckHand(s, w)
    case LockQueueStep(w) => CanLockQueue(s, w) && s' == LockQueue(s, w)
    case ScanTaskStep(w) => CanScanTask(s, w) && s' == ScanTask(s, w)
    case ScanYieldedStep(w) => CanScanYielded(s, w) && s' == ScanYielded(s, w)
    case ScanEndStep(w) => CanScanEnd(s, w) && s' == ScanEnd(s, w)
    case DeployTaskStep(w) => CanDeployTask(s, w) && s' == DeployTask(s, w)
    case ExhaustStep(w) => CanExhaust(s, w) && s' == Exhaust(s, w)
    case StartFailsStep(w) => CanStartFails(s, w) && s' == StartFails(s, w)
    case YieldFiberStep(w) => CanYieldFiber(s, w) && s' == YieldFiber(s, w)
    case RegisterYieldStep(w) => CanRegisterYield(s, w) && s' == RegisterYield(s, w)
    case CompleteFiberStep(w) => CanCompleteFiber(s, w) && s' == CompleteFiber(s, w)
    case KeepOrReturnStep(w) => CanKeepOrReturn(s, w) && s' == KeepOrReturn(s, w)
    case CountReturnStep(w) => CanCountReturn(s, w) && s' == CountReturn(s, w)
    case CheckExhaustedStep(w) => CanCheckExhausted(s, w) && s' == CheckExhausted(s, w)
    case CoolDownStep(w) => CanCoolDown(s, w) && s' == CoolDown(s, w)
    case CompareStep(w) => CanCompare(s, w) && s' == Compare(s, w)
    case MakeRunnableStep(w) => CanMakeRunnable(s, w) && s' == MakeRunnable(s, w)
    case WakeOwnerStep(w) => CanWakeOwner(s, w) && s' == WakeOwner(s, w)
    case GoToSleepStep(w) => CanGoToSleep(s, w) && s' == GoToSleep(s, w)
    case WakeUpStep(w) => CanWakeUp(s, w) && s' == WakeUp(s, w)
  }

  ghost predicate Init(s: State)
  {
    && s.tasks == map[] && s.fibers == map[] && s.queue == [] && s.queueLock == None && s.idle == []
    && forall w :: 0 <= w < |s.workers| ==> s.workers[w] == Worker(Top, None, [], map[], true, true, false, 0)
  }

  /** A run of the scheduler: each state follows from the previous one by an enabled step. */
  ghost predicate Run(trace: seq<State>)
  {
    && trace != [] && Init(trace[0])
    && forall i :: 0 <= i < |trace| - 1 ==> Next(trace[i], trace[i + 1])
  }

  ghost predicate Next(s: State, s': State)
  {
    exists step :: StepTo(s, step, s')
  }
}
