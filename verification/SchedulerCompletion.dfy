/**
  What the scheduler (src/scheduler/Scheduler.cpp) comes to when work stops arriving:
  every schedule ends, everybody sleeps, and every task is finalized unless it was
  enqueued when all workers were already about to go to sleep.
*/
module SchedulerCompletion {
  import opened Basics
  import opened Sums
  import opened SchedulerModel
  import opened SchedulerInvariant
  import opened Scheduler
  import opened SchedulerProgress

  // ----- A measure -----

  /** The rank of a worker at the top of its loop, if the queue never exceeds `q`. */
  function TopRank(q: nat): nat
  {
    2 * q + 10
  }

  /** What waking another worker may add to its rank. */
  function WakeCost(q: nat): nat
  {
    2 * TopRank(q) + 1
  }

  /** What a task kept for the next turn leads to. */
  function KeptCost(q: nat): nat
  {
    WakeCost(q) + 9
  }

  /** What an unfinished fiber leads to. */
  function FiberCost(q: nat): nat
  {
    KeptCost(q) + 3
  }

  /** What a worker does for nothing that found a task with work, which has since run out of it. */
  function StaleCost(q: nat): nat
  {
    TopRank(q) + WakeCost(q) + 5
  }

  function PcRank(q: nat, len: nat, pc: Pc): nat
  {
    match pc
    case Top => TopRank(q)
    case NoFiber => TopRank(q) - 1
    case NeedTask => TopRank(q) - 2
    case ScanAt(pos, _) => if pos <= len then 2 * (len - pos) + 6 else 6
    case ScanYields(pos, _) => if pos <= len then 2 * (len - pos) + 5 else 5
    case Deploying(_) => 4
    case Drowsy => 3
    case Starting(_) => 2
    case Asleep => 0
    case InHand(_) => TopRank(q) + WakeCost(q) + 7
    case Running(_, _) => TopRank(q) - 1
    case Awaiting(_, _, _) => TopRank(q) + 2
    case Yielded(_) => TopRank(q) + 1
    case Finished(_) => TopRank(q) + KeptCost(q) + 1
    case Returning(_) => TopRank(q) + WakeCost(q) + 6
    case Returned(_, _) => TopRank(q) + WakeCost(q) + 5
    case Cooling(_, _) => TopRank(q) + WakeCost(q) + 4
    case Comparing(_, _) => TopRank(q) + WakeCost(q) + 3
    case Finalizing(_) => TopRank(q) + WakeCost(q) + 2
    case Waking(_) => TopRank(q) + WakeCost(q) + 1
  }

  predicate RunOut(tasks: map<TaskId, Task>, t: TaskId)
  {
    t in tasks && tasks[t].exhausted
  }

  /** The worker goes after a task that has run out of work. */
  predicate Stale(tasks: map<TaskId, Task>, queue: seq<TaskId>, pc: Pc)
  {
    match pc
    case ScanAt(_, best) => best.Some? && RunOut(tasks, best.value.1)
    case ScanYields(pos, best) =>
      (best.Some? && RunOut(tasks, best.value.1)) || (pos < |queue| && RunOut(tasks, queue[pos]))
    case Deploying(t) => RunOut(tasks, t)
    case Starting(t) => RunOut(tasks, t)
    case _ => false
  }

  function Rank(q: nat, s: State, x: Worker): nat
  {
    PcRank(q, |s.queue|, x.pc)
    + (if x.pc.Asleep? && !x.shouldSleep then TopRank(q) + 1 else 0)
    + (if x.currentTask.Some? then KeptCost(q) else 0)
    + (if x.allowedToSleep then 0 else TopRank(q))
    + (if Stale(s.tasks, s.queue, x.pc) then StaleCost(q) else 0)
  }

  ghost function Ranks(q: nat, s: State): (r: seq<nat>)
    ensures |r| == |s.workers|
  {
    seq(|s.workers|, w requires 0 <= w < |s.workers| => Rank(q, s, s.workers[w]))
  }

  ghost function WithWorkLeft(tasks: map<TaskId, Task>): set<TaskId>
  {
    set t | t in tasks && !tasks[t].exhausted
  }

  /** How far the scheduler is from rest. */
  ghost function Measure(q: nat, s: State): nat
  {
    Scaled(|WithWorkLeft(s.tasks)|, Scaled(|s.workers|, StaleCost(q)) + 1) + Scaled(|s.fibers|, FiberCost(q))
    + Sum(Ranks(q, s))
  }

  // ----- Every step that adds no work lowers it -----

  /** Nothing that counts changes but at worker `w`. */
  ghost predicate Local(s: State, s': State, w: WorkerId)
  {
    && w < |s.workers| == |s'.workers| && |s'.queue| <= |s.queue|
    && s'.tasks.Keys == s.tasks.Keys
    && (forall t :: t in s.tasks ==> s'.tasks[t].exhausted == s.tasks[t].exhausted)
    && (forall v :: 0 <= v < |s.workers| && v != w ==> SameRank(s.workers[v], s'.workers[v]))
    && (s'.queue == s.queue || forall v :: 0 <= v < |s.workers| && v != w ==> !Scanning(s.workers[v].pc))
  }

  predicate SameRank(x: Worker, x': Worker)
  {
    x'.pc == x.pc && x'.currentTask == x.currentTask && x'.allowedToSleep == x.allowedToSleep
      && x'.shouldSleep == x.shouldSleep
  }

  ghost predicate Lower(q: nat, s: State, s': State, w: WorkerId)
  {
    && Local(s, s', w)
    && var r, r' := Rank(q, s, s.workers[w]), Rank(q, s', s'.workers[w]);
      || (|s'.fibers| == |s.fibers| && r' < r)
      || (|s'.fibers| + 1 == |s.fibers| && r' < r + FiberCost(q))
  }

  lemma LowerFalls(q: nat, s: State, s': State, w: WorkerId)
    requires Lower(q, s, s', w)
    ensures Measure(q, s') < Measure(q, s)
  {
    hide Rank, FiberCost, StaleCost, Scaled;
    assert WithWorkLeft(s'.tasks) == WithWorkLeft(s.tasks);
    var r := Rank(q, s', s'.workers[w]);
    forall v | 0 <= v < |s.workers| && v != w
      ensures Rank(q, s', s'.workers[v]) == Rank(q, s, s.workers[v])
    {
      assert SameRank(s.workers[v], s'.workers[v]);
      RankKept(q, s, s', s.workers[v], s'.workers[v]);
    }
    assert Ranks(q, s') == Ranks(q, s)[w := r];
    SumUpdate(Ranks(q, s), w, r);
    ScaledNext(|s'.fibers|, FiberCost(q));
  }

  lemma RankKept(q: nat, s: State, s': State, x: Worker, x': Worker)
    requires SameRank(x, x') && s'.tasks.Keys == s.tasks.Keys
    requires forall t :: t in s.tasks ==> s'.tasks[t].exhausted == s.tasks[t].exhausted
    requires s'.queue == s.queue || !Scanning(x.pc)
    ensures Rank(q, s', x') == Rank(q, s, x)
  {
  }

  lemma TakeFiberLower(q: nat, s: State, w: WorkerId)
    requires |s.queue| <= q && CanTakeFiber(s, w)
    ensures Lower(q, s, TakeFiber(s, w), w)
  {
  }

  lemma FindNoFiberLower(q: nat, s: State, w: WorkerId)
    requires CanFindNoFiber(s, w)
    ensures Lower(q, s, FindNoFiber(s, w), w)
  {
  }

  lemma TakeCurrentLower(q: nat, s: State, w: WorkerId)
    requires |s.queue| <= q && CanTakeCurrent(s, w)
    ensures Lower(q, s, TakeCurrent(s, w), w)
  {
  }

  lemma CheckHandLower(q: nat, s: State, w: WorkerId)
    requires CanCheckHand(s, w)
    ensures Lower(q, s, CheckHand(s, w), w)
  {
  }

  lemma LockQueueLower(q: nat, s: State, w: WorkerId)
    requires |s.queue| <= q && CanLockQueue(s, w)
    ensures Lower(q, s, LockQueue(s, w), w)
  {
  }

  lemma ScanTaskLower(q: nat, s: State, w: WorkerId)
    requires LockOk(s) && CanScanTask(s, w)
    ensures Lower(q, s, ScanTask(s, w), w)
  {
  }

  lemma ScanYieldedLower(q: nat, s: State, w: WorkerId)
    requires LockOk(s) && CanScanYielded(s, w)
    ensures Lower(q, s, ScanYielded(s, w), w)
  {
  }

  lemma ScanEndLower(q: nat, s: State, w: WorkerId)
    requires LockOk(s) && CanScanEnd(s, w)
    ensures Lower(q, s, ScanEnd(s, w), w)
  {
  }

  lemma DeployTaskLower(q: nat, s: State, w: WorkerId)
    requires CanDeployTask(s, w)
    ensures Lower(q, s, DeployTask(s, w), w)
  {
  }

  lemma StartFailsLower(q: nat, s: State, w: WorkerId)
    requires CanStartFails(s, w)
    ensures Lower(q, s, StartFails(s, w), w)
  {
  }

  lemma KeepOrReturnLower(q: nat, s: State, w: WorkerId)
    requires CanKeepOrReturn(s, w)
    ensures Lower(q, s, KeepOrReturn(s, w), w)
  {
  }

  lemma YieldFiberLower(q: nat, s: State, w: WorkerId)
    requires CanYieldFiber(s, w)
    ensures Lower(q, s, YieldFiber(s, w), w)
  {
  }

  lemma RegisterYieldLower(q: nat, s: State, w: WorkerId)
    requires CanRegisterYield(s, w)
    ensures Lower(q, s, RegisterYield(s, w), w)
  {
  }

  lemma CountReturnLower(q: nat, s: State, w: WorkerId)
    requires CanCountReturn(s, w)
    ensures Lower(q, s, CountReturn(s, w), w)
  {
  }

  lemma CheckExhaustedLower(q: nat, s: State, w: WorkerId)
    requires CanCheckExhausted(s, w)
    ensures Lower(q, s, CheckExhausted(s, w), w)
  {
  }

  lemma CompareLower(q: nat, s: State, w: WorkerId)
    requires CanCompare(s, w)
    ensures Lower(q, s, Compare(s, w), w)
  {
  }

  lemma MakeRunnableLower(q: nat, s: State, w: WorkerId)
    requires CanMakeRunnable(s, w)
    ensures Lower(q, s, MakeRunnable(s, w), w)
  {
  }

  lemma GoToSleepLower(q: nat, s: State, w: WorkerId)
    requires CanGoToSleep(s, w)
    ensures Lower(q, s, GoToSleep(s, w), w)
  {
  }

  lemma WakeUpLower(q: nat, s: State, w: WorkerId)
    requires CanWakeUp(s, w)
    ensures Lower(q, s, WakeUp(s, w), w)
  {
  }

  lemma CompleteFiberLower(q: nat, s: State, w: WorkerId)
    requires CanCompleteFiber(s, w)
    ensures Lower(q, s, CompleteFiber(s, w), w)
  {
    OneLess(s.fibers, s.workers[w].pc.f);
  }

  lemma OneLess(fs: map<FiberId, Fiber>, f: FiberId)
    requires f in fs
    ensures |fs - {f}| + 1 == |fs|
  {
    assert (fs - {f}).Keys == fs.Keys - {f};
    assert |fs - {f}| == |(fs - {f}).Keys| && |fs| == |fs.Keys|;
  }

  lemma CoolDownLower(q: nat, s: State, w: WorkerId)
    requires LockOk(s) && CanCoolDown(s, w)
    ensures Lower(q, s, CoolDown(s, w), w)
  {
    hide Dequeue;
    DequeueShorter(s.queue, s.workers[w].pc.t);
  }

  lemma {:induction false} DequeueShorter(queue: seq<TaskId>, t: TaskId)
    ensures |Dequeue(queue, t)| <= |queue|
  {
    if queue == [] || queue[0] == t {
    } else {
      DequeueShorter(queue[1..], t);
    }
  }

  lemma WakeOwnerFalls(q: nat, s: State, w: WorkerId)
    requires CanWakeOwner(s, w)
    ensures WakeOwner(s, w).queue == s.queue && Measure(q, WakeOwner(s, w)) < Measure(q, s)
  {
    hide Rank, Scaled, FiberCost, StaleCost, WakeCost;
    var s', v := WakeOwner(s, w), s.workers[w].pc.v;
    var r, r' := Ranks(q, s), Ranks(q, s');
    forall u | 0 <= u < |s.workers| && u != w && u != v
      ensures r'[u] == r[u]
    {
      RankKept(q, s, s', s.workers[u], s'.workers[u]);
    }
    assert r' == r[w := r'[w]][v := r'[v]];
    SumUpdate(r, w, r'[w]);
    SumUpdate(r[w := r'[w]], v, r'[v]);
    WokenRanks(q, s, w);
  }

  /** What the waker loses and the woken worker gains. */
  lemma WokenRanks(q: nat, s: State, w: WorkerId)
    requires CanWakeOwner(s, w)
    ensures var s', v := WakeOwner(s, w), s.workers[w].pc.v;
      && Rank(q, s', s'.workers[v]) <= Rank(q, s, s.workers[v]) + WakeCost(q)
      && (v != w ==> Rank(q, s', s'.workers[w]) + WakeCost(q) < Rank(q, s, s.workers[w]))
      && (v == w ==> Rank(q, s', s'.workers[w]) < Rank(q, s, s.workers[w]))
  {
  }

  lemma ExhaustFalls(q: nat, s: State, w: WorkerId)
    requires CanExhaust(s, w) && !s.tasks[s.workers[w].pc.t].exhausted
    ensures Exhaust(s, w).queue == s.queue && Measure(q, Exhaust(s, w)) < Measure(q, s)
  {
    hide StaleCost, Rank, Scaled;
    var s', t := Exhaust(s, w), s.workers[w].pc.t;
    var n, c := |s.workers|, StaleCost(q);
    var r, r' := Ranks(q, s), Ranks(q, s');
    forall v | 0 <= v < n
      ensures r'[v] <= r[v] + c
    {
      RankStale(q, s, w, s.workers[v]);
    }
    SumRaised(r', r, c);
    var left, left' := WithWorkLeft(s.tasks), WithWorkLeft(s'.tasks);
    assert left' == left - {t} && t in left;
    assert |left| == |left'| + 1;
    ScaledNext(|left'|, Scaled(n, c) + 1);
  }

  lemma RankStale(q: nat, s: State, w: WorkerId, x: Worker)
    requires CanExhaust(s, w)
    ensures Rank(q, Exhaust(s, w), x) <= Rank(q, s, x) + StaleCost(q)
  {
    hide PcRank;
  }

  /** A step that adds no work: no new task or fiber, no failed stack allocation, no second exhaustion. */
  predicate Calm(s: State, step: Step)
  {
    && !step.EnqueueStep? && !step.StartFiberStep? && !step.AwaitChildStep? && !step.CannotAllocateStep?
    && (step.ExhaustStep? ==> CanExhaust(s, step.w) && !s.tasks[s.workers[step.w].pc.t].exhausted)
  }

  lemma StepLower(q: nat, s: State, step: Step, s': State)
    requires LockOk(s) && |s.queue| <= q && StepTo(s, step, s')
    requires !step.EnqueueStep? && !step.StartFiberStep? && !step.AwaitChildStep? && !step.CannotAllocateStep?
      && !step.ExhaustStep? && !step.WakeOwnerStep?
    ensures Lower(q, s, s', step.w)
  {
    hide Lower, LockOk, Enqueue, StartFiber, AwaitChild, CannotAllocate, TakeFiber, FindNoFiber, TakeCurrent, CheckHand,
      LockQueue, ScanTask, ScanYielded, ScanEnd, DeployTask, Exhaust, StartFails, YieldFiber, RegisterYield,
      CompleteFiber, KeepOrReturn, CountReturn, CheckExhausted, CoolDown, Compare, MakeRunnable, WakeOwner, GoToSleep,
      WakeUp, CanEnqueue, CanStartFiber, CanAwaitChild, CanCannotAllocate, CanTakeFiber, CanFindNoFiber, CanTakeCurrent,
      CanCheckHand, CanLockQueue, CanScanTask, CanScanYielded, CanScanEnd, CanDeployTask, CanExhaust, CanStartFails,
      CanYieldFiber, CanRegisterYield, CanCompleteFiber, CanKeepOrReturn, CanCountReturn, CanCheckExhausted,
        CanCoolDown,
      CanCompare, CanMakeRunnable, CanWakeOwner, CanGoToSleep, CanWakeUp;
    match step
    case TakeFiberStep(_) => TakeFiberLower(q, s, step.w);
    case FindNoFiberStep(_) => FindNoFiberLower(q, s, step.w);
    case TakeCurrentStep(_) => TakeCurrentLower(q, s, step.w);
    case CheckHandStep(_) => CheckHandLower(q, s, step.w);
    case LockQueueStep(_) => LockQueueLower(q, s, step.w);
    case ScanTaskStep(_) => ScanTaskLower(q, s, step.w);
    case ScanYieldedStep(_) => ScanYieldedLower(q, s, step.w);
    case ScanEndStep(_) => ScanEndLower(q, s, step.w);
    case DeployTaskStep(_) => DeployTaskLower(q, s, step.w);
    case StartFailsStep(_) => StartFailsLower(q, s, step.w);
    case YieldFiberStep(_) => YieldFiberLower(q, s, step.w);
    case RegisterYieldStep(_) => RegisterYieldLower(q, s, step.w);
    case CompleteFiberStep(_) => CompleteFiberLower(q, s, step.w);
    case KeepOrReturnStep(_) => KeepOrReturnLower(q, s, step.w);
    case CountReturnStep(_) => CountReturnLower(q, s, step.w);
    case CheckExhaustedStep(_) => CheckExhaustedLower(q, s, step.w);
    case CoolDownStep(_) => CoolDownLower(q, s, step.w);
    case CompareStep(_) => CompareLower(q, s, step.w);
    case MakeRunnableStep(_) => MakeRunnableLower(q, s, step.w);
    case GoToSleepStep(_) => GoToSleepLower(q, s, step.w);
    case WakeUpStep(_) => WakeUpLower(q, s, step.w);
  }

  lemma StepFalls(q: nat, s: State, step: Step, s': State)
    requires LockOk(s) && |s.queue| <= q && StepTo(s, step, s') && Calm(s, step)
    ensures |s'.queue| <= q && Measure(q, s') < Measure(q, s)
  {
    if step.ExhaustStep? {
      hide Measure, Exhaust;
      ExhaustFalls(q, s, step.w);
    } else if step.WakeOwnerStep? {
      hide Measure, WakeOwner;
      WakeOwnerFalls(q, s, step.w);
    } else {
      hide Measure, Lower, StepTo;
      StepLower(q, s, step, s');
      LowerFalls(q, s, s', step.w);
      LowerQueue(q, s, s', step.w);
    }
  }

  lemma LowerQueue(q: nat, s: State, s': State, w: WorkerId)
    requires Lower(q, s, s', w)
    ensures |s'.queue| <= |s.queue|
  {
  }

  lemma InvLock(s: State)
    requires Inv(s)
    ensures LockOk(s)
  {
  }

  ghost predicate CalmStep(s: State, step: Step, s': State)
  {
    StepTo(s, step, s') && Calm(s, step)
  }

  ghost predicate CalmNext(s: State, s': State)
  {
    exists step :: CalmStep(s, step, s')
  }

  lemma {:induction false} MeasureFalls(trace: seq<State>, i: nat, j: nat)
    requires Run(trace) && i <= j < |trace| && forall k :: i <= k < j ==> CalmNext(trace[k], trace[k + 1])
    ensures var q := |trace[i].queue|; |trace[j].queue| <= q && Measure(q, trace[j]) + (j - i) <= Measure(q, trace[i])
  {
    hide Measure, Inv, StepTo, Calm, Init, LockOk;
    if j == i {
    } else {
      MeasureFalls(trace, i, j - 1);
      var s := trace[j - 1];
      assert CalmNext(s, trace[j - 1 + 1]);
      var step :| CalmStep(s, step, trace[j]);
      RunInv(trace, j - 1);
      InvLock(s);
      StepFalls(|trace[i].queue|, s, step, trace[j]);
    }
  }

  /** Once work stops arriving, every schedule comes to an end, after at most this many steps. */
  lemma WindsDown(trace: seq<State>, i: nat)
    requires Run(trace) && i < |trace| && forall k :: i <= k < |trace| - 1 ==> CalmNext(trace[k], trace[k + 1])
    ensures |trace| - 1 - i <= Measure(|trace[i].queue|, trace[i])
  {
    hide Measure, CalmNext, Run;
    MeasureFalls(trace, i, |trace| - 1);
  }

  // ----- Who awaits whom -----

  /** A fiber keeps its task and what it awaits, or has nothing to await, or starts to await a task that is new. */
  ghost predicate AwaitKept(s: State, s': State, f: FiberId)
    requires f in s'.fibers
  {
    || s'.fibers[f].awaits == None
    || (f in s.fibers && s'.fibers[f].task == s.fibers[f].task
         && (s'.fibers[f].awaits == s.fibers[f].awaits || s'.fibers[f].awaits.value !in s.tasks))
  }

  ghost predicate StoryKept(s: State, s': State, born: set<TaskId>)
  {
    && s'.tasks.Keys == s.tasks.Keys + born
    && (forall t :: t in s.tasks ==> s'.tasks[t].waiter == s.tasks[t].waiter)
    && (forall f :: f in s'.fibers ==> AwaitKept(s, s', f))
  }

  lemma TurnStory(s: State, w: WorkerId)
    ensures CanTakeFiber(s, w) ==> StoryKept(s, TakeFiber(s, w), {})
    ensures CanFindNoFiber(s, w) ==> StoryKept(s, FindNoFiber(s, w), {})
    ensures CanCannotAllocate(s, w) ==> StoryKept(s, CannotAllocate(s, w), {})
    ensures CanTakeCurrent(s, w) ==> StoryKept(s, TakeCurrent(s, w), {})
    ensures CanCheckHand(s, w) ==> StoryKept(s, CheckHand(s, w), {})
  {
  }

  lemma ScanStory(s: State, w: WorkerId)
    ensures CanLockQueue(s, w) ==> StoryKept(s, LockQueue(s, w), {})
    ensures CanScanTask(s, w) ==> StoryKept(s, ScanTask(s, w), {})
    ensures CanScanYielded(s, w) ==> StoryKept(s, ScanYielded(s, w), {})
    ensures CanScanEnd(s, w) ==> StoryKept(s, ScanEnd(s, w), {})
    ensures CanDeployTask(s, w) ==> StoryKept(s, DeployTask(s, w), {})
  {
  }

  lemma WorkStory(s: State, w: WorkerId)
    ensures CanExhaust(s, w) ==> StoryKept(s, Exhaust(s, w), {})
    ensures CanStartFails(s, w) ==> StoryKept(s, StartFails(s, w), {})
    ensures CanYieldFiber(s, w) ==> StoryKept(s, YieldFiber(s, w), {})
    ensures CanRegisterYield(s, w) ==> StoryKept(s, RegisterYield(s, w), {})
    ensures CanCompleteFiber(s, w) ==> StoryKept(s, CompleteFiber(s, w), {})
  {
  }

  lemma ReturnStory(s: State, w: WorkerId)
    ensures CanKeepOrReturn(s, w) ==> StoryKept(s, KeepOrReturn(s, w), {})
    ensures CanCountReturn(s, w) ==> StoryKept(s, CountReturn(s, w), {})
    ensures CanCheckExhausted(s, w) ==> StoryKept(s, CheckExhausted(s, w), {})
    ensures CanCoolDown(s, w) ==> StoryKept(s, CoolDown(s, w), {})
    ensures CanCompare(s, w) ==> StoryKept(s, Compare(s, w), {})
  {
    hide Dequeue;
  }

  lemma WakeStory(s: State, w: WorkerId)
    ensures CanMakeRunnable(s, w) ==> StoryKept(s, MakeRunnable(s, w), {})
    ensures CanWakeOwner(s, w) ==> StoryKept(s, WakeOwner(s, w), {})
    ensures CanGoToSleep(s, w) ==> StoryKept(s, GoToSleep(s, w), {})
    ensures CanWakeUp(s, w) ==> StoryKept(s, WakeUp(s, w), {})
  {
  }

  lemma NewStory(s: State, step: Step)
    ensures step.EnqueueStep? && CanEnqueue(s, step.t) ==>
      StoryKept(s, Enqueue(s, step.t), {step.t}) && Enqueue(s, step.t).tasks[step.t].waiter == None
    ensures step.StartFiberStep? && CanStartFiber(s, step.w, step.f) ==>
      StoryKept(s, StartFiber(s, step.w, step.f), {})
    ensures step.AwaitChildStep? && CanAwaitChild(s, step.w, step.child) ==>
      StoryKept(s, AwaitChild(s, step.w, step.child), {step.child})
  {
  }

  ghost function Born(step: Step): set<TaskId>
  {
    match step
    case EnqueueStep(t) => {t}
    case AwaitChildStep(_, child) => {child}
    case _ => {}
  }

  lemma StepStory(s: State, step: Step, s': State)
    requires StepTo(s, step, s')
    ensures StoryKept(s, s', Born(step))
      && (step.EnqueueStep? ==> step.t in s'.tasks && s'.tasks[step.t].waiter == None)
  {
    hide StoryKept, Enqueue, StartFiber, AwaitChild, CannotAllocate, TakeFiber, FindNoFiber, TakeCurrent, CheckHand,
      LockQueue, ScanTask, ScanYielded, ScanEnd, DeployTask, Exhaust, StartFails, YieldFiber, RegisterYield,
      CompleteFiber, KeepOrReturn, CountReturn, CheckExhausted, CoolDown, Compare, MakeRunnable, WakeOwner, GoToSleep,
      WakeUp, CanEnqueue, CanStartFiber, CanAwaitChild, CanCannotAllocate, CanTakeFiber, CanFindNoFiber, CanTakeCurrent,
      CanCheckHand, CanLockQueue, CanScanTask, CanScanYielded, CanScanEnd, CanDeployTask, CanExhaust, CanStartFails,
      CanYieldFiber, CanRegisterYield, CanCompleteFiber, CanKeepOrReturn, CanCountReturn, CanCheckExhausted,
        CanCoolDown,
      CanCompare, CanMakeRunnable, CanWakeOwner, CanGoToSleep, CanWakeUp;
    NewStory(s, step);
    if step.EnqueueStep? {
      assert step.t in s'.tasks by { StoryBorn(s, s', step.t); }
    } else {
      TurnStory(s, step.w); ScanStory(s, step.w); WorkStory(s, step.w); ReturnStory(s, step.w); WakeStory(s, step.w);
    }
  }

  lemma StoryBorn(s: State, s': State, t: TaskId)
    requires StoryKept(s, s', {t})
    ensures t in s'.tasks
  {
    assert t in s'.tasks.Keys;
  }

  lemma {:induction false} TasksStay(trace: seq<State>, i: nat, j: nat, t: TaskId)
    requires Run(trace) && i <= j < |trace| && t in trace[i].tasks
    ensures t in trace[j].tasks && trace[j].tasks[t].waiter == trace[i].tasks[t].waiter
  {
    hide StepTo, Init;
    if i == j {
    } else {
      TasksStay(trace, i, j - 1, t);
      assert Next(trace[j - 1], trace[j - 1 + 1]);
      var step :| StepTo(trace[j - 1], step, trace[j]);
      StepStory(trace[j - 1], step, trace[j]);
      assert t in trace[j].tasks.Keys;
    }
  }

  /** The step that brought a task into the scheduler. */
  lemma {:induction false} Birth(trace: seq<State>, i: nat, t: TaskId) returns (j: nat, step: Step)
    requires Run(trace) && i < |trace| && t in trace[i].tasks
    ensures j < i && StepTo(trace[j], step, trace[j + 1]) && t in trace[j + 1].tasks
    ensures step == EnqueueStep(t) || (step.AwaitChildStep? && step.child == t)
    ensures step.EnqueueStep? ==> trace[i].tasks[t].waiter == None
  {
    hide StepTo;
    if i == 0 {
      assert false;
    } else {
      assert Next(trace[i - 1], trace[i - 1 + 1]);
      var last :| StepTo(trace[i - 1], last, trace[i]);
      StepStory(trace[i - 1], last, trace[i]);
      if t in trace[i - 1].tasks {
        j, step := Birth(trace, i - 1, t);
        TasksStay(trace, i - 1, i, t);
      } else {
        j, step := i - 1, last;
        assert t in trace[i].tasks.Keys && t in Born(last);
      }
    }
  }

  /** Task `t` was there when `c` was not. */
  ghost predicate Older(trace: seq<State>, i: nat, t: TaskId, c: TaskId)
  {
    exists j :: 0 <= j <= i && j < |trace| && t in trace[j].tasks && c !in trace[j].tasks
  }

  /** A fiber's task is older than the task it awaits. */
  lemma {:induction false} AwaitsYounger(trace: seq<State>, i: nat, f: FiberId)
    requires Run(trace) && i < |trace| && f in trace[i].fibers && trace[i].fibers[f].awaits.Some?
    ensures Older(trace, i, trace[i].fibers[f].task, trace[i].fibers[f].awaits.value)
  {
    hide StepTo, Inv;
    if i == 0 {
      assert false;
    } else {
      var s := trace[i - 1];
      assert Next(s, trace[i - 1 + 1]);
      var step :| StepTo(s, step, trace[i]);
      StepStory(s, step, trace[i]);
      assert AwaitKept(s, trace[i], f);
      if trace[i].fibers[f].awaits == s.fibers[f].awaits {
        AwaitsYounger(trace, i - 1, f);
      } else {
        RunInv(trace, i - 1);
        FiberTask(s, f);
        assert trace[i - 1] == s;
      }
    }
  }

  lemma FiberTask(s: State, f: FiberId)
    requires Inv(s) && f in s.fibers
    ensures s.fibers[f].task in s.tasks
  {
    assert FiberOk(s.tasks, s.workers, f, s.fibers[f]);
  }

  // ----- Rest -----

  /** In a state where everybody sleeps, a fiber waits for a task that is not finalized. */
  lemma RestingFiber(s: State, f: FiberId)
    requires Inv(s) && AllSleep(s) && f in s.fibers
    ensures s.fibers[f].detached && s.fibers[f].awaits.Some?
    ensures var c := s.fibers[f].awaits.value; c in s.tasks && !s.tasks[c].finalized && s.tasks[c].waiter.Some?
  {
    hide ControlOk, HandsOk, CountsOk, UnitsOk, IdleOk, ActiveOk, RunnablesOk;
    var x := s.fibers[f];
    assert FiberOk(s.tasks, s.workers, f, x);
    var w := x.owner;
    assert Sleeping(s.workers[w]);
    if f in s.workers[w].runnable {
      assert false;
    }
    var c := x.awaits.value;
    assert WaitingOk(s.tasks, s.fibers, w, s.workers[w], c);
    assert WaiterOk(s.workers, c, s.tasks[c]);
    if s.tasks[c].finalized {
      assert false;
    }
  }

  lemma RestingHolders(s: State, t: TaskId)
    requires Inv(s) && AllSleep(s) && forall f :: f in s.fibers ==> s.fibers[f].task != t
    ensures Holders(s.workers, s.fibers, t) == 0
    ensures forall w :: 0 <= w < |s.workers| && Return(s.workers[w].pc).Some? ==> Return(s.workers[w].pc).value.0 != t
  {
    hide ControlOk, CountsOk, FiberGroupOk, UnitsOk, SleepGroupOk;
    forall w | 0 <= w < |s.workers|
      ensures s.workers[w].pc.Asleep? && s.workers[w].currentTask == None
    {
      assert Sleeping(s.workers[w]) && HandOk(s.tasks, s.workers[w]);
    }
    assert WorkersWith(s.workers, HandIs(t)) == {};
    assert WorkersWith(s.workers, CurrentIs(t)) == {};
    assert FibersWith(s.fibers, DetachedOf(t)) == {};
  }

  /** At rest, a task without unfinished fibers is finalized or still has work. */
  lemma RestingTask(s: State, t: TaskId)
    requires Reachable(s) && AllSleep(s) && t in s.tasks && forall f :: f in s.fibers ==> s.fibers[f].task != t
    ensures s.tasks[t].finalized || HasWork(s, t)
  {
    hide Reachable, Inv;
    ReachableInv(s);
    RestingHolders(s, t);
    if s.tasks[t].exhausted {
      NeverOrphaned(s, t);
    } else {
      StillQueued(s, t);
    }
  }

  lemma StillQueued(s: State, t: TaskId)
    requires Inv(s) && t in s.tasks && !s.tasks[t].exhausted
    ensures t in s.queue
  {
    assert TaskOk(s.workers, t, s.tasks[t]);
  }

  /** Nobody was there to notice the task: every worker had found the queue empty and was about to go to sleep. */
  ghost predicate Unnoticed(trace: seq<State>, t: TaskId)
  {
    exists j :: 0 <= j < |trace| - 1 && CanEnqueue(trace[j], t) && trace[j + 1] == Enqueue(trace[j], t)
      && AllAboutToSleep(trace[j])
  }

  lemma LastReachable(trace: seq<State>, i: nat)
    requires Run(trace) && i < |trace|
    ensures Reachable(trace[i])
  {
  }

  /** A task left behind was not awaited and not noticed. */
  lemma LeftUnnoticed(trace: seq<State>, t: TaskId)
    requires Run(trace) && LeftBehind(trace[|trace| - 1], t)
    ensures trace[|trace| - 1].tasks[t].waiter == None && Unnoticed(trace, t)
  {
    hide Reachable, LeftBehind, MayBeLeft, AllAboutToSleep, Enqueue, AwaitChild, CanEnqueue, CanAwaitChild, Init;
    var n := |trace| - 1;
    assert t in trace[n].tasks by { LeftKnown(trace[n], t); }
    var j, step := Birth(trace, n, t);
    var path := trace[j + 1..];
    assert Path(path) by {
      forall k | 0 <= k < |path| - 1
        ensures Next(path[k], path[k + 1])
      {
        assert Next(trace[j + 1 + k], trace[j + 1 + k + 1]);
      }
    }
    LastReachable(trace, j);
    assert MayBeLeft(trace[j + 1], t) by { LeftAtEnd(path, t); }
    if step.EnqueueStep? {
      LeftBehindExactly(trace[j], t);
    } else {
      ChildNeverLeft(trace[j], step.w, t);
      assert false;
    }
  }

  lemma LeftKnown(s: State, t: TaskId)
    requires LeftBehind(s, t)
    ensures t in s.tasks
  {
  }

  lemma LeftAtEnd(path: seq<State>, t: TaskId)
    requires Path(path) && LeftBehind(path[|path| - 1], t)
    ensures MayBeLeft(path[0], t)
  {
  }

  /** When everybody sleeps, no fiber is unfinished: a youngest awaited task could not be unfinished either. */
  lemma {:induction false} NoFiberRests(trace: seq<State>, f: FiberId, k: nat)
    requires Run(trace) && AllSleep(trace[|trace| - 1]) && f in trace[|trace| - 1].fibers && k < |trace|
    requires trace[|trace| - 1].fibers[f].awaits.Some? ==> trace[|trace| - 1].fibers[f].awaits.value !in trace[k].tasks
    ensures false
    decreases |trace| - k
  {
    hide Inv, Reachable, Init, AllSleep, HasWork, Unnoticed;
    var n := |trace| - 1;
    var s := trace[n];
    RunInv(trace, n);
    LastReachable(trace, n);
    RestingFiber(s, f);
    var c := s.fibers[f].awaits.value;
    if g :| g in s.fibers && s.fibers[g].task == c {
      RestingFiber(s, g);
      AwaitsYounger(trace, n, g);
      var j :| 0 <= j <= n && c in trace[j].tasks && s.fibers[g].awaits.value !in trace[j].tasks;
      if j <= k {
        TasksStay(trace, j, k, c);
      }
      NoFiberRests(trace, g, j);
    } else {
      RestingTask(s, c);
      assert LeftBehind(s, c);
      LeftUnnoticed(trace, c);
    }
  }

  /** Everybody sleeps, no fiber is left, and every task is finalized that was not enqueued unnoticed. */
  ghost predicate Settled(trace: seq<State>)
    requires trace != []
  {
    var s := trace[|trace| - 1];
    && AllSleep(s) && s.fibers == map[]
    && forall t :: t in s.tasks ==> s.tasks[t].finalized || (s.tasks[t].waiter == None && Unnoticed(trace, t))
  }

  lemma SleepSettles(trace: seq<State>)
    requires Run(trace) && AllSleep(trace[|trace| - 1])
    ensures Settled(trace)
  {
    hide Reachable, Init, AllSleep, HasWork, Unnoticed, Inv;
    var n := |trace| - 1;
    var s := trace[n];
    if f :| f in s.fibers {
      var c := if s.fibers[f].awaits.Some? then s.fibers[f].awaits.value else 0;
      NoTasksAtFirst(trace, c);
      NoFiberRests(trace, f, 0);
    }
    assert s.fibers == map[];
    LastReachable(trace, n);
    forall t | t in s.tasks
      ensures s.tasks[t].finalized || (s.tasks[t].waiter == None && Unnoticed(trace, t))
    {
      RestingTask(s, t);
      if !s.tasks[t].finalized {
        assert LeftBehind(s, t);
        LeftUnnoticed(trace, t);
      }
    }
  }

  lemma NoTasksAtFirst(trace: seq<State>, c: TaskId)
    requires Run(trace)
    ensures c !in trace[0].tasks
  {
  }

  /** No step is possible that adds no work. */
  ghost predicate AtRest(s: State)
  {
    forall step, s' :: !CalmStep(s, step, s')
  }

  lemma TurnCalm(s: State, w: WorkerId)
    ensures CanTakeFiber(s, w) ==> CalmStep(s, TakeFiberStep(w), TakeFiber(s, w))
    ensures CanFindNoFiber(s, w) ==> CalmStep(s, FindNoFiberStep(w), FindNoFiber(s, w))
    ensures CanTakeCurrent(s, w) ==> CalmStep(s, TakeCurrentStep(w), TakeCurrent(s, w))
    ensures CanCheckHand(s, w) ==> CalmStep(s, CheckHandStep(w), CheckHand(s, w))
  {
    hide TakeFiber, FindNoFiber, TakeCurrent, CheckHand;
  }

  lemma ScanCalm(s: State, w: WorkerId)
    ensures CanLockQueue(s, w) ==> CalmStep(s, LockQueueStep(w), LockQueue(s, w))
    ensures CanScanTask(s, w) ==> CalmStep(s, ScanTaskStep(w), ScanTask(s, w))
    ensures CanScanYielded(s, w) ==> CalmStep(s, ScanYieldedStep(w), ScanYielded(s, w))
    ensures CanScanEnd(s, w) ==> CalmStep(s, ScanEndStep(w), ScanEnd(s, w))
    ensures CanDeployTask(s, w) ==> CalmStep(s, DeployTaskStep(w), DeployTask(s, w))
  {
    hide LockQueue, ScanTask, ScanYielded, ScanEnd, DeployTask;
  }

  lemma WorkCalm(s: State, w: WorkerId)
    ensures CanStartFails(s, w) ==> CalmStep(s, StartFailsStep(w), StartFails(s, w))
    ensures CanYieldFiber(s, w) ==> CalmStep(s, YieldFiberStep(w), YieldFiber(s, w))
    ensures CanRegisterYield(s, w) ==> CalmStep(s, RegisterYieldStep(w), RegisterYield(s, w))
    ensures CanCompleteFiber(s, w) ==> CalmStep(s, CompleteFiberStep(w), CompleteFiber(s, w))
  {
    hide StartFails, YieldFiber, RegisterYield, CompleteFiber;
  }

  lemma ReturnCalm(s: State, w: WorkerId)
    ensures CanKeepOrReturn(s, w) ==> CalmStep(s, KeepOrReturnStep(w), KeepOrReturn(s, w))
    ensures CanCountReturn(s, w) ==> CalmStep(s, CountReturnStep(w), CountReturn(s, w))
    ensures CanCheckExhausted(s, w) ==> CalmStep(s, CheckExhaustedStep(w), CheckExhausted(s, w))
    ensures CanCoolDown(s, w) ==> CalmStep(s, CoolDownStep(w), CoolDown(s, w))
  {
    hide KeepOrReturn, CountReturn, CheckExhausted, CoolDown;
  }

  lemma WakeCalm(s: State, w: WorkerId)
    ensures CanCompare(s, w) ==> CalmStep(s, CompareStep(w), Compare(s, w))
    ensures CanMakeRunnable(s, w) ==> CalmStep(s, MakeRunnableStep(w), MakeRunnable(s, w))
    ensures CanWakeOwner(s, w) ==> CalmStep(s, WakeOwnerStep(w), WakeOwner(s, w))
  {
    hide Compare, MakeRunnable, WakeOwner;
  }

  lemma SleepCalm(s: State, w: WorkerId)
    ensures CanGoToSleep(s, w) ==> CalmStep(s, GoToSleepStep(w), GoToSleep(s, w))
    ensures CanWakeUp(s, w) ==> CalmStep(s, WakeUpStep(w), WakeUp(s, w))
  {
    hide GoToSleep, WakeUp;
  }

  lemma ExhaustCalm(s: State, w: WorkerId)
    ensures CanCannotAllocate(s, w) ==> CanTakeCurrent(s, w)
    ensures CanExhaust(s, w) ==> CanStartFails(s, w) || CalmStep(s, ExhaustStep(w), Exhaust(s, w))
  {
  }

  /** A worker that has a step has one that adds no work. */
  lemma CalmMove(s: State, w: WorkerId)
    requires CanMove(s, w)
    ensures exists step, s' :: CalmStep(s, step, s')
  {
    hide CalmStep, CanCannotAllocate, CanExhaust, Exhaust, TakeFiber, FindNoFiber, TakeCurrent, CheckHand,
      LockQueue, ScanTask, ScanYielded, ScanEnd, DeployTask, StartFails, YieldFiber, RegisterYield, CompleteFiber,
      KeepOrReturn, CountReturn, CheckExhausted, CoolDown, Compare, MakeRunnable, WakeOwner, GoToSleep, WakeUp,
      CanTakeFiber, CanFindNoFiber, CanTakeCurrent, CanCheckHand, CanLockQueue, CanScanTask, CanScanYielded,
      CanScanEnd, CanDeployTask, CanStartFails, CanYieldFiber, CanRegisterYield, CanCompleteFiber, CanKeepOrReturn,
      CanCountReturn, CanCheckExhausted, CanCoolDown, CanCompare, CanMakeRunnable, CanWakeOwner, CanGoToSleep,
      CanWakeUp;
    TurnCalm(s, w); ScanCalm(s, w); WorkCalm(s, w); ReturnCalm(s, w); WakeCalm(s, w); SleepCalm(s, w);
    ExhaustCalm(s, w);
  }

  /** In every run: when no step is left that adds no work, everything enqueued and noticed has been finalized. */
  lemma RestSettles(trace: seq<State>)
    requires Run(trace) && AtRest(trace[|trace| - 1])
    ensures Settled(trace)
  {
    hide Reachable, Init, AllSleep, CanMove, CalmStep, Settled;
    var s := trace[|trace| - 1];
    LastReachable(trace, |trace| - 1);
    SomeoneMovesExactly(s);
    if !AllSleep(s) {
      var v :| 0 <= v < |s.workers| && CanMove(s, v);
      CalmMove(s, v);
      assert false;
    }
    SleepSettles(trace);
  }

  lemma {:induction false} SettleFrom(trace: seq<State>, q: nat) returns (full: seq<State>)
    requires Run(trace) && |trace[|trace| - 1].queue| <= q
    ensures Run(full) && trace <= full && Settled(full)
    ensures forall k :: |trace| - 1 <= k < |full| - 1 ==> CalmNext(full[k], full[k + 1])
    decreases Measure(q, trace[|trace| - 1])
  {
    hide Reachable, AllSleep, CanMove, Calm, Settled, Measure, StepTo, Inv, Init, LockOk;
    var s := trace[|trace| - 1];
    LastReachable(trace, |trace| - 1);
    SomeoneMovesExactly(s);
    if AllSleep(s) {
      full := trace;
      SleepSettles(trace);
    } else {
      var v :| 0 <= v < |s.workers| && CanMove(s, v);
      CalmMove(s, v);
      var step, s' :| CalmStep(s, step, s');
      RunInv(trace, |trace| - 1);
      InvLock(s);
      StepFalls(q, s, step, s');
      RunSnoc(trace, step, s');
      full := SettleFrom(trace + [s'], q);
      assert full[|trace| - 1] == s && full[|trace|] == s';
    }
  }

  lemma RunSnoc(trace: seq<State>, step: Step, s': State)
    requires Run(trace) && StepTo(trace[|trace| - 1], step, s')
    ensures Run(trace + [s'])
  {
    hide StepTo, Init;
    var longer := trace + [s'];
    forall k | 0 <= k < |longer| - 1
      ensures Next(longer[k], longer[k + 1])
    {
      if k < |trace| - 1 {
        assert Next(trace[k], trace[k + 1]);
      }
    }
  }

  /** Every run can be continued, without more work, to an end at which everything is settled. */
  lemma EveryRunSettles(trace: seq<State>) returns (full: seq<State>)
    requires Run(trace)
    ensures Run(full) && trace <= full && Settled(full)
    ensures forall k :: |trace| - 1 <= k < |full| - 1 ==> CalmNext(full[k], full[k + 1])
  {
    hide Init, Next, Settled, CalmNext;
    full := SettleFrom(trace, |trace[|trace| - 1].queue|);
  }

  function Fresh(n: nat): State
  {
    State(map[], map[], seq(n, _ => Worker(Top, None, [], map[], true, true, false, 0)), [], None, [])
  }

  /** With any number of workers, a task enqueued at the start can be carried through to its one finalization. */
  lemma FirstTaskFinalizes(n: nat, t: TaskId) returns (full: seq<State>)
    requires n > 0
    ensures Run(full) && |full| >= 2 && full[0] == Fresh(n) && full[1] == Enqueue(Fresh(n), t)
    ensures var s := full[|full| - 1]; t in s.tasks && s.tasks[t].finalized && AllSleep(s) && s.fibers == map[]
  {
    hide StepTo, AllSleep;
    var s0 := Fresh(n);
    FirstStep(n, t);
    RunSnoc([s0], EnqueueStep(t), Enqueue(s0, t));
    var trace := [s0] + [Enqueue(s0, t)];
    full := EveryRunSettles(trace);
    assert full[0] == trace[0] && full[1] == trace[1];
    var last := |full| - 1;
    TasksStay(full, 1, last, t);
    assert full[last].tasks[t].finalized || Unnoticed(full, t);
    if j :| 0 <= j < |full| - 1 && CanEnqueue(full[j], t) && AllAboutToSleep(full[j]) {
      if j > 0 {
        TasksStay(full, 1, j, t);
      }
      assert AboutToSleep(full[0].workers[0]);
    }
  }

  lemma FirstStep(n: nat, t: TaskId)
    ensures Init(Fresh(n)) && StepTo(Fresh(n), EnqueueStep(t), Enqueue(Fresh(n), t))
  {
  }
}
