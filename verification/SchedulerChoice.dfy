/**
  Which task getTask returns (src/scheduler/Scheduler.cpp), although the yield counts it
  compares are read one after the other and without a mutex.
*/
module SchedulerChoice {
  import opened Basics
  import opened SchedulerModel
  import opened SchedulerInvariant
  import opened Scheduler
  import opened SchedulerProgress

  // ----- What a scan has read -----

  /**
    When and what worker `w` has read in the scan it is in: at time `ks[j]` it looked at
    the task now at position `j` of the queue, which then had `cs[j]` yielded fibers, and
    it has held the queue mutex ever since.
  */
  ghost predicate Reads(trace: seq<State>, i: nat, w: WorkerId, ks: seq<nat>, cs: seq<int>)
    requires i < |trace|
  {
    |ks| == |cs| <= |trace[i].queue| && forall j :: 0 <= j < |ks| ==> ReadAt(trace, i, w, j, ks[j], cs[j])
  }

  ghost predicate ReadAt(trace: seq<State>, i: nat, w: WorkerId, j: nat, k: nat, c: int)
    requires i < |trace| && j < |trace[i].queue|
  {
    && k < i && w < |trace[k].workers| && trace[k].workers[w].pc.ScanYields? && trace[k].workers[w].pc.pos == j
    && j < |trace[k].queue| && trace[k].queue[j] == trace[i].queue[j]
    && trace[i].queue[j] in trace[k].tasks && c == trace[k].tasks[trace[i].queue[j]].yieldedFibers
    && forall l :: k <= l <= i ==> trace[l].queueLock == Some(w)
  }

  /** `m` is the first position with the least count. */
  ghost predicate FirstLeast(cs: seq<int>, m: nat)
  {
    m < |cs| && (forall j :: 0 <= j < |cs| ==> cs[m] <= cs[j]) && (forall j :: 0 <= j < m ==> cs[m] < cs[j])
  }

  ghost predicate AllPositive(cs: seq<int>)
  {
    forall j :: 0 <= j < |cs| ==> cs[j] > 0
  }

  /**
    What getTask returns: the task read last, if that was the first without yielded
    fibers; else, with the whole queue read, the first one with the fewest.
  */
  ghost predicate Chosen(queue: seq<TaskId>, cs: seq<int>, t: TaskId)
  {
    && 0 < |cs| <= |queue|
    && var last := |cs| - 1;
    || (t == queue[last] && cs[last] == 0 && AllPositive(cs[..last]))
    || (|cs| == |queue| && AllPositive(cs) && exists m: nat :: FirstLeast(cs, m) && t == queue[m])
  }

  ghost predicate BestSoFar(queue: seq<TaskId>, cs: seq<int>, best: Option<(int, TaskId)>)
    requires |cs| <= |queue|
  {
    && AllPositive(cs) && (best.None? <==> cs == [])
    && (best.Some? ==> exists m: nat :: FirstLeast(cs, m) && best.value == (cs[m], queue[m]))
  }

  ghost predicate ScanKnows(queue: seq<TaskId>, pc: Pc, cs: seq<int>)
    requires |cs| <= |queue|
  {
    match pc
    case ScanAt(pos, best) => |cs| == pos && BestSoFar(queue, cs, best)
    case ScanYields(pos, best) => |cs| == pos && BestSoFar(queue, cs, best)
    case Deploying(t) => Chosen(queue, cs, t)
    case _ => true
  }

  // ----- Steps of a scan -----

  /** Reading one more count. */
  lemma BestNext(queue: seq<TaskId>, cs: seq<int>, best: Option<(int, TaskId)>, y: int)
    requires |cs| < |queue| && BestSoFar(queue, cs, best) && y > 0
    ensures var better := best == None || y < best.value.0;
      BestSoFar(queue, cs + [y], if better then Some((y, queue[|cs|])) else best)
  {
    var cs' := cs + [y];
    if best == None || y < best.value.0 {
      if best.Some? {
        var m: nat :| FirstLeast(cs, m) && best.value == (cs[m], queue[m]);
      }
      assert FirstLeast(cs', |cs|);
    } else {
      var m: nat :| FirstLeast(cs, m) && best.value == (cs[m], queue[m]);
      assert FirstLeast(cs', m);
    }
  }

  lemma BestShorter(queue: seq<TaskId>, queue': seq<TaskId>, cs: seq<int>, best: Option<(int, TaskId)>)
    requires |cs| <= |queue| && |cs| <= |queue'| && queue'[..|cs|] == queue[..|cs|] && BestSoFar(queue, cs, best)
    ensures BestSoFar(queue', cs, best)
  {
    if best.Some? {
      var m: nat :| FirstLeast(cs, m) && best.value == (cs[m], queue[m]);
      assert queue'[..|cs|][m] == queue'[m] && queue[..|cs|][m] == queue[m];
    }
  }

  /** A scanning worker takes scan steps only. */
  lemma ScannerScans(s: State, step: Step, s': State, w: WorkerId)
    requires StepTo(s, step, s') && !step.EnqueueStep? && step.w == w && w < |s.workers| && Scanning(s.workers[w].pc)
    ensures s.workers[w].pc.ScanAt? ==> step.ScanTaskStep? || step.ScanEndStep?
    ensures s.workers[w].pc.ScanYields? ==> step.ScanYieldedStep?
    ensures s.workers[w].pc.Deploying? ==> step.DeployTaskStep?
  {
    hide Enqueue, StartFiber, AwaitChild, GoToSleep, LockQueue, ScanTask, ScanYielded, ScanEnd, TakeFiber, FindNoFiber,
      CannotAllocate, TakeCurrent, CheckHand, Exhaust, StartFails, YieldFiber, RegisterYield, CompleteFiber,
      KeepOrReturn, CountReturn, CheckExhausted, CoolDown, Compare, DeployTask, MakeRunnable, WakeOwner, WakeUp;
  }

  /** Steps of others leave a scan and the queue alone. */
  lemma OthersLeaveScan(s: State, step: Step, s': State, w: WorkerId)
    requires LockOk(s) && StepTo(s, step, s') && (step.EnqueueStep? || step.w != w)
    requires w < |s.workers| && Scanning(s.workers[w].pc)
    ensures |s'.workers| == |s.workers| && s'.workers[w].pc == s.workers[w].pc && s'.queue == s.queue
  {
    hide StepTo;
    StepMoves(s, step, s');
  }

  lemma ScanBegins(s: State, step: Step, s': State, w: WorkerId)
    requires StepTo(s, step, s') && w < |s.workers| && !Scanning(s.workers[w].pc)
    ensures |s'.workers| == |s.workers| && (Scanning(s'.workers[w].pc) ==> s'.workers[w].pc == ScanAt(0, None))
  {
    hide StepTo;
    StepMoves(s, step, s');
  }

  lemma ScanTaskKnows(s: State, w: WorkerId, cs: seq<int>)
    requires CanScanTask(s, w) && |cs| <= |s.queue| && ScanKnows(s.queue, s.workers[w].pc, cs)
    ensures var s' := ScanTask(s, w);
      && |cs| <= |s'.queue| && s'.queue[..|cs|] == s.queue[..|cs|]
      && ScanKnows(s'.queue, s'.workers[w].pc, cs)
  {
    var s', pc := ScanTask(s, w), s.workers[w].pc;
    assert s'.queue[..|cs|] == s.queue[..|cs|];
    BestShorter(s.queue, s'.queue, cs, pc.best);
  }

  lemma ScanYieldedKnows(s: State, w: WorkerId, cs: seq<int>)
    requires CanScanYielded(s, w) && |cs| <= |s.queue| && ScanKnows(s.queue, s.workers[w].pc, cs)
    requires s.tasks[s.queue[s.workers[w].pc.pos]].yieldedFibers >= 0
    ensures var s' := ScanYielded(s, w);
      s'.queue == s.queue
        && ScanKnows(s.queue, s'.workers[w].pc, cs + [s.tasks[s.queue[s.workers[w].pc.pos]].yieldedFibers])
  {
    var pc := s.workers[w].pc;
    var y := s.tasks[s.queue[pc.pos]].yieldedFibers;
    if y == 0 {
      assert (cs + [y])[..|cs|] == cs;
    } else {
      BestNext(s.queue, cs, pc.best, y);
    }
  }

  lemma ScanEndKnows(s: State, w: WorkerId, cs: seq<int>)
    requires CanScanEnd(s, w) && |cs| <= |s.queue| && ScanKnows(s.queue, s.workers[w].pc, cs)
    ensures var s' := ScanEnd(s, w);
      s'.queue == s.queue && ScanKnows(s.queue, s'.workers[w].pc, cs)
    ensures ScanEnd(s, w).workers[w].pc.Drowsy? ==> s.queue == []
  {
    var best := s.workers[w].pc.best;
    if best.Some? {
      var m: nat :| FirstLeast(cs, m) && best.value == (cs[m], s.queue[m]);
    }
  }

  // ----- Over a run -----

  lemma ReadsStay(trace: seq<State>, i: nat, w: WorkerId, ks: seq<nat>, cs: seq<int>)
    requires i + 1 < |trace| && Reads(trace, i, w, ks, cs) && trace[i + 1].queueLock == Some(w)
    requires |cs| <= |trace[i + 1].queue| && trace[i + 1].queue[..|cs|] == trace[i].queue[..|cs|]
    ensures Reads(trace, i + 1, w, ks, cs)
  {
    forall j | 0 <= j < |ks|
      ensures ReadAt(trace, i + 1, w, j, ks[j], cs[j])
    {
      assert ReadAt(trace, i, w, j, ks[j], cs[j]);
      assert trace[i + 1].queue[..|cs|][j] == trace[i].queue[..|cs|][j];
    }
  }

  lemma ReadsMore(trace: seq<State>, i: nat, w: WorkerId, ks: seq<nat>, cs: seq<int>)
    requires i + 1 < |trace| && Reads(trace, i, w, ks, cs) && w < |trace[i].workers|
    requires trace[i].queueLock == trace[i + 1].queueLock == Some(w) && trace[i + 1].queue == trace[i].queue
    requires CanScanYielded(trace[i], w) && trace[i].workers[w].pc.pos == |cs|
    ensures Reads(trace, i + 1, w, ks + [i], cs + [trace[i].tasks[trace[i].queue[|cs|]].yieldedFibers])
  {
    ReadsStay(trace, i, w, ks, cs);
    var ks', cs' := ks + [i], cs + [trace[i].tasks[trace[i].queue[|cs|]].yieldedFibers];
    forall j | 0 <= j < |ks'|
      ensures ReadAt(trace, i + 1, w, j, ks'[j], cs'[j])
    {
      if j < |ks| {
        assert ReadAt(trace, i + 1, w, j, ks[j], cs[j]);
      }
    }
  }

  /** What a scanning worker holds in its registers is justified by what it has read. */
  lemma {:induction false} ScanHistory(trace: seq<State>, i: nat, w: WorkerId) returns (ks: seq<nat>, cs: seq<int>)
    requires Run(trace) && i < |trace| && w < |trace[i].workers| && Scanning(trace[i].workers[w].pc)
    ensures Reads(trace, i, w, ks, cs) && ScanKnows(trace[i].queue, trace[i].workers[w].pc, cs)
  {
    hide StepTo, Inv, Reads, ScanKnows;
    if i == 0 {
      assert false;
    } else {
      RunInv(trace, i - 1); RunInv(trace, i);
      var s, s' := trace[i - 1], trace[i];
      assert Next(s, trace[i - 1 + 1]);
      var step :| StepTo(s, step, s');
      assert LockOk(s) && LockOk(s') && UnitsOk(s) by { InvParts(s); InvParts(s'); }
      SameCrew(s, step, s');
      if !Scanning(s.workers[w].pc) {
        ScanBegins(s, step, s', w);
        ks, cs := [], [];
        EmptyScan(trace, i, w);
      } else {
        ks, cs := ScanHistory(trace, i - 1, w);
        if step.EnqueueStep? || step.w != w {
          OthersLeaveScan(s, step, s', w);
          ReadsFit(trace, i - 1, w, ks, cs);
          ReadsStay(trace, i - 1, w, ks, cs);
        } else {
          ks, cs := OwnStep(trace, i - 1, step, w, ks, cs);
        }
      }
    }
  }

  lemma InvParts(s: State)
    requires Inv(s)
    ensures LockOk(s) && UnitsOk(s)
  {
  }

  lemma EmptyScan(trace: seq<State>, i: nat, w: WorkerId)
    requires i < |trace| && w < |trace[i].workers| && trace[i].workers[w].pc == ScanAt(0, None)
    ensures Reads(trace, i, w, [], []) && ScanKnows(trace[i].queue, trace[i].workers[w].pc, [])
  {
  }

  lemma OwnStep(trace: seq<State>, i: nat, step: Step, w: WorkerId, ks: seq<nat>, cs: seq<int>)
    returns (ks': seq<nat>, cs': seq<int>)
    requires i + 1 < |trace| && StepTo(trace[i], step, trace[i + 1]) && !step.EnqueueStep? && step.w == w
    requires LockOk(trace[i]) && UnitsOk(trace[i]) && LockOk(trace[i + 1])
    requires w < |trace[i].workers| == |trace[i + 1].workers|
    requires Scanning(trace[i].workers[w].pc) && Scanning(trace[i + 1].workers[w].pc)
    requires Reads(trace, i, w, ks, cs) && ScanKnows(trace[i].queue, trace[i].workers[w].pc, cs)
    ensures Reads(trace, i + 1, w, ks', cs') && ScanKnows(trace[i + 1].queue, trace[i + 1].workers[w].pc, cs')
  {
    hide Reads, ScanKnows, Enqueue, StartFiber, AwaitChild, GoToSleep, LockQueue, ScanTask, ScanYielded, ScanEnd,
      TakeFiber, FindNoFiber, CannotAllocate, TakeCurrent, CheckHand, Exhaust, StartFails, YieldFiber, RegisterYield,
      CompleteFiber, KeepOrReturn, CountReturn, CheckExhausted, CoolDown, Compare, MakeRunnable, WakeOwner, WakeUp;
    var s, s' := trace[i], trace[i + 1];
    ScannerScans(s, step, s', w);
    ks', cs' := ks, cs;
    assert |cs| <= |s.queue| by { ReadsFit(trace, i, w, ks, cs); }
    if step.ScanTaskStep? {
      ScanTaskKnows(s, w, cs);
      ReadsStay(trace, i, w, ks, cs);
    } else if step.ScanYieldedStep? {
      PositionKnown(s.queue, s.workers[w].pc, cs);
      ScanYieldedKnows(s, w, cs);
      ReadsMore(trace, i, w, ks, cs);
      ks', cs' := ks + [i], cs + [s.tasks[s.queue[|cs|]].yieldedFibers];
    } else if step.ScanEndStep? {
      ScanEndKnows(s, w, cs);
      ReadsStay(trace, i, w, ks, cs);
    }
  }

  lemma ReadsFit(trace: seq<State>, i: nat, w: WorkerId, ks: seq<nat>, cs: seq<int>)
    requires i < |trace| && Reads(trace, i, w, ks, cs)
    ensures |cs| <= |trace[i].queue|
  {
  }

  lemma PositionKnown(queue: seq<TaskId>, pc: Pc, cs: seq<int>)
    requires |cs| <= |queue| && pc.ScanYields? && ScanKnows(queue, pc, cs)
    ensures pc.pos == |cs|
  {
  }

  /** What getTask did when it let go of the queue mutex. */
  ghost predicate ScanResult(s: State, s': State, w: WorkerId, cs: seq<int>)
    requires w < |s'.workers|
  {
    match s'.workers[w].pc
    case Drowsy => s.queue == [] && s'.tasks == s.tasks
    case Starting(t) =>
      && Chosen(s.queue, cs, t) && t in s.tasks
      && s'.tasks == s.tasks[t := s.tasks[t].(deployed := s.tasks[t].deployed + 1)]
    case _ => false
  }

  lemma LetsGo(s: State, step: Step, s': State, w: WorkerId, cs: seq<int>)
    requires StepTo(s, step, s') && !step.EnqueueStep? && step.w == w && w < |s.workers| == |s'.workers|
    requires LockOk(s) && LockOk(s') && s.queueLock == Some(w) != s'.queueLock
    requires |cs| <= |s.queue| && ScanKnows(s.queue, s.workers[w].pc, cs)
    ensures s'.queue == s.queue && ScanResult(s, s', w, cs)
  {
    hide Enqueue, StartFiber, AwaitChild, GoToSleep, LockQueue, ScanTask, ScanYielded, ScanEnd, TakeFiber, FindNoFiber,
      CannotAllocate, TakeCurrent, CheckHand, Exhaust, StartFails, YieldFiber, RegisterYield, CompleteFiber,
      KeepOrReturn, CountReturn, CheckExhausted, CoolDown, Compare, DeployTask, MakeRunnable, WakeOwner, WakeUp,
      Chosen, BestSoFar;
    ScannerScans(s, step, s', w);
    if step.ScanTaskStep? {
      StillScans(s, w);
    } else if step.ScanYieldedStep? {
      StillScans(s, w);
    } else if step.ScanEndStep? {
      EndReturns(s, w, cs);
    } else {
      DeployReturns(s, w, cs);
    }
  }

  lemma StillScans(s: State, w: WorkerId)
    ensures CanScanTask(s, w) ==> ScanTask(s, w).queueLock == s.queueLock
    ensures CanScanYielded(s, w) ==> ScanYielded(s, w).queueLock == s.queueLock
  {
  }

  lemma EndReturns(s: State, w: WorkerId, cs: seq<int>)
    requires CanScanEnd(s, w) && |cs| <= |s.queue| && ScanKnows(s.queue, s.workers[w].pc, cs)
    ensures var s' := ScanEnd(s, w);
      s'.queueLock == s.queueLock || (s'.queue == s.queue && ScanResult(s, s', w, cs))
  {
    ScanEndKnows(s, w, cs);
  }

  lemma DeployReturns(s: State, w: WorkerId, cs: seq<int>)
    requires CanDeployTask(s, w) && |cs| <= |s.queue| && ScanKnows(s.queue, s.workers[w].pc, cs)
    ensures DeployTask(s, w).queue == s.queue && ScanResult(s, DeployTask(s, w), w, cs)
  {
  }

  /** The step in which a worker gives the mutex back is its own. */
  lemma OnlyOwnerLetsGo(s: State, step: Step, s': State, w: WorkerId)
    requires LockOk(s) && LockOk(s') && StepTo(s, step, s') && w < |s.workers| == |s'.workers|
    requires s.queueLock == Some(w) != s'.queueLock
    ensures !step.EnqueueStep? && step.w == w
  {
    hide StepTo;
    if step.EnqueueStep? || step.w != w {
      OthersLeaveScan(s, step, s', w);
    }
  }

  /**
    getTask in every run: whenever a worker lets go of the queue mutex, it has either
    emptied the queue or deployed one more worker on the task that its own reads of the
    queued tasks' counts single out.
  */
  lemma GetTaskChoice(trace: seq<State>, i: nat, w: WorkerId) returns (ks: seq<nat>, cs: seq<int>)
    requires Run(trace) && i + 1 < |trace| && trace[i].queueLock == Some(w) != trace[i + 1].queueLock
    ensures w < |trace[i].workers| == |trace[i + 1].workers|
    ensures Reads(trace, i, w, ks, cs) && trace[i + 1].queue == trace[i].queue
    ensures ScanResult(trace[i], trace[i + 1], w, cs)
  {
    hide StepTo, Inv, Reads, ScanKnows, ScanResult, Init;
    RunInv(trace, i); RunInv(trace, i + 1);
    var s, s' := trace[i], trace[i + 1];
    assert Next(s, s');
    var step :| StepTo(s, step, s');
    InvParts(s); InvParts(s');
    SameCrew(s, step, s');
    OnlyOwnerLetsGo(s, step, s', w);
    ks, cs := ScanHistory(trace, i, w);
    ReadsFit(trace, i, w, ks, cs);
    LetsGo(s, step, s', w, cs);
  }

  // ----- When nobody else moves meanwhile -----

  ghost predicate StepOf(s: State, s': State, w: WorkerId)
  {
    exists step :: StepTo(s, step, s') && !step.EnqueueStep? && step.w == w
  }

  /** The queued tasks that have work, in order. */
  ghost function WithWork(tasks: map<TaskId, Task>, queue: seq<TaskId>): seq<TaskId>
    requires forall t :: t in queue ==> t in tasks
  {
    if queue == [] then []
    else if tasks[queue[0]].exhausted then WithWork(tasks, queue[1..])
    else [queue[0]] + WithWork(tasks, queue[1..])
  }

  ghost function YieldCounts(tasks: map<TaskId, Task>, queue: seq<TaskId>): seq<int>
    requires forall t :: t in queue ==> t in tasks
  {
    seq(|queue|, j requires 0 <= j < |queue| => tasks[queue[j]].yieldedFibers)
  }

  lemma {:induction false} WithWorkSplits(tasks: map<TaskId, Task>, queue: seq<TaskId>, n: nat)
    requires (forall t :: t in queue ==> t in tasks) && n <= |queue|
    ensures WithWork(tasks, queue) == WithWork(tasks, queue[..n]) + WithWork(tasks, queue[n..])
  {
    if n == 0 {
      assert queue[..n] == [] && queue[n..] == queue;
    } else {
      WithWorkSplits(tasks, queue[1..], n - 1);
      assert queue[1..][..n - 1] == queue[..n][1..] && queue[1..][n - 1..] == queue[n..];
    }
  }

  lemma {:induction false} WithWorkAll(tasks: map<TaskId, Task>, queue: seq<TaskId>)
    requires forall t :: t in queue ==> t in tasks && !tasks[t].exhausted
    ensures WithWork(tasks, queue) == queue
  {
    if queue == [] {
    } else {
      WithWorkAll(tasks, queue[1..]);
    }
  }

  lemma {:induction false} WithWorkSame(tasks: map<TaskId, Task>, tasks': map<TaskId, Task>, queue: seq<TaskId>)
    requires forall t :: t in queue ==> t in tasks && t in tasks' && tasks'[t].exhausted == tasks[t].exhausted
    ensures WithWork(tasks', queue) == WithWork(tasks, queue)
  {
    if queue == [] {
    } else {
      WithWorkSame(tasks, tasks', queue[1..]);
    }
  }

  lemma {:induction false} WithWorkIn(tasks: map<TaskId, Task>, queue: seq<TaskId>)
    requires forall t :: t in queue ==> t in tasks
    ensures forall t :: t in WithWork(tasks, queue) ==> t in queue
  {
    if queue == [] {
    } else {
      WithWorkIn(tasks, queue[1..]);
    }
  }

  lemma DropExhausted(tasks: map<TaskId, Task>, queue: seq<TaskId>, pos: nat)
    requires (forall t :: t in queue ==> t in tasks) && pos < |queue| && tasks[queue[pos]].exhausted
    ensures WithWork(tasks, queue[..pos] + queue[pos + 1..]) == WithWork(tasks, queue)
  {
    var queue' := queue[..pos] + queue[pos + 1..];
    WithWorkSplits(tasks, queue, pos);
    WithWorkSplits(tasks, queue', pos);
    assert queue'[..pos] == queue[..pos] && queue'[pos..] == queue[pos + 1..] == queue[pos..][1..];
  }

  /** During an undisturbed scan the counts and the tasks with work stay as they were when it began. */
  ghost predicate Undisturbed(s0: State, s: State, w: WorkerId)
    requires QueueOk(s0) && QueueOk(s)
  {
    && (forall t :: t in s0.queue ==> t in s.tasks && s.tasks[t].exhausted == s0.tasks[t].exhausted
                                      && s.tasks[t].yieldedFibers == s0.tasks[t].yieldedFibers)
    && (forall t :: t in s.queue ==> t in s0.queue)
    && WithWork(s0.tasks, s.queue) == WithWork(s0.tasks, s0.queue)
    && (w < |s.workers| && s.workers[w].pc.ScanYields? && s.workers[w].pc.pos < |s.queue|
        ==> !s0.tasks[s.queue[s.workers[w].pc.pos]].exhausted)
  }

  lemma LockUndisturbed(s: State, w: WorkerId)
    requires CanLockQueue(s, w) && QueueOk(s)
    ensures QueueOk(LockQueue(s, w)) && Undisturbed(s, LockQueue(s, w), w)
  {
  }

  lemma ScanTaskUndisturbed(s0: State, s: State, w: WorkerId)
    requires CanScanTask(s, w) && QueueOk(s0) && QueueOk(s) && QueueOk(ScanTask(s, w)) && Undisturbed(s0, s, w)
    ensures Undisturbed(s0, ScanTask(s, w), w)
  {
    var pos := s.workers[w].pc.pos;
    if s.tasks[s.queue[pos]].exhausted {
      DropExhausted(s0.tasks, s.queue, pos);
    }
  }

  lemma ScanYieldedUndisturbed(s0: State, s: State, w: WorkerId)
    requires CanScanYielded(s, w) && QueueOk(s0) && QueueOk(s) && Undisturbed(s0, s, w)
    ensures QueueOk(ScanYielded(s, w)) && Undisturbed(s0, ScanYielded(s, w), w)
  {
  }

  lemma ScanEndUndisturbed(s0: State, s: State, w: WorkerId)
    requires CanScanEnd(s, w) && QueueOk(s0) && QueueOk(s) && Undisturbed(s0, s, w)
    ensures QueueOk(ScanEnd(s, w)) && Undisturbed(s0, ScanEnd(s, w), w)
  {
  }

  lemma NeedsTheLock(s: State, step: Step, s': State, w: WorkerId)
    requires StepTo(s, step, s') && !step.EnqueueStep? && step.w == w && w < |s.workers|
    requires s.workers[w].pc.NeedTask?
    ensures step.LockQueueStep?
  {
    hide Enqueue, StartFiber, AwaitChild, GoToSleep, LockQueue, ScanTask, ScanYielded, ScanEnd, TakeFiber, FindNoFiber,
      CannotAllocate, TakeCurrent, CheckHand, Exhaust, StartFails, YieldFiber, RegisterYield, CompleteFiber,
      KeepOrReturn, CountReturn, CheckExhausted, CoolDown, Compare, DeployTask, MakeRunnable, WakeOwner, WakeUp;
  }

  lemma UndisturbedStep(s0: State, s: State, step: Step, s': State, w: WorkerId)
    requires QueueOk(s0) && QueueOk(s) && QueueOk(s') && StepTo(s, step, s') && !step.EnqueueStep? && step.w == w
    requires LockOk(s) && LockOk(s') && w < |s.workers| == |s'.workers|
    requires s.queueLock == s'.queueLock == Some(w) && Undisturbed(s0, s, w)
    ensures Undisturbed(s0, s', w)
  {
    hide QueueOk, Undisturbed, Enqueue, StartFiber, AwaitChild, GoToSleep, LockQueue, ScanTask, ScanYielded, ScanEnd,
      TakeFiber, FindNoFiber, CannotAllocate, TakeCurrent, CheckHand, Exhaust, StartFails, YieldFiber, RegisterYield,
      CompleteFiber, KeepOrReturn, CountReturn, CheckExhausted, CoolDown, Compare, DeployTask, MakeRunnable, WakeOwner,
      WakeUp;
    ScannerScans(s, step, s', w);
    if step.ScanTaskStep? {
      ScanTaskUndisturbed(s0, s, w);
    } else if step.ScanYieldedStep? {
      ScanYieldedUndisturbed(s0, s, w);
    } else if step.ScanEndStep? {
      ScanEndUndisturbed(s0, s, w);
    } else {
      DeployFrees(s, w);
    }
  }

  lemma DeployFrees(s: State, w: WorkerId)
    requires CanDeployTask(s, w)
    ensures DeployTask(s, w).queueLock == None
  {
  }

  /**
    From `a` to `i` only worker `w` moves: it takes the queue mutex in its first step and gives
    it back in its last.
  */
  ghost predicate ScansAlone(trace: seq<State>, a: nat, i: nat, w: WorkerId)
  {
    && a < i < |trace| - 1 && w < |trace[a].workers| && trace[a].workers[w].pc.NeedTask?
    && (forall k :: a <= k <= i ==> StepOf(trace[k], trace[k + 1], w))
    && (forall k :: a < k <= i ==> trace[k].queueLock == Some(w))
    && trace[i + 1].queueLock != Some(w)
  }

  lemma {:induction false} AloneUndisturbed(trace: seq<State>, a: nat, i: nat, k: nat, w: WorkerId)
    requires Run(trace) && ScansAlone(trace, a, i, w) && a < k <= i
    ensures QueueOk(trace[a]) && QueueOk(trace[k]) && Undisturbed(trace[a], trace[k], w)
  {
    hide StepTo, Inv, Init, QueueOk, Undisturbed;
    RunInv(trace, k - 1); RunInv(trace, k);
    var s, s' := trace[k - 1], trace[k];
    assert StepOf(s, trace[k - 1 + 1], w);
    var step :| StepTo(s, step, s') && !step.EnqueueStep? && step.w == w;
    QueueParts(s); QueueParts(s');
    if k == a + 1 {
      NeedsTheLock(s, step, s', w);
      LockStepUndisturbed(s, step, s', w);
    } else {
      AloneUndisturbed(trace, a, i, k - 1, w);
      SameCrew(s, step, s');
      UndisturbedStep(trace[a], s, step, s', w);
    }
  }

  lemma QueueParts(s: State)
    requires Inv(s)
    ensures QueueOk(s) && LockOk(s)
  {
  }

  lemma LockStepUndisturbed(s: State, step: Step, s': State, w: WorkerId)
    requires QueueOk(s) && step == LockQueueStep(w) && StepTo(s, step, s')
    ensures QueueOk(s') && Undisturbed(s, s', w)
  {
    hide LockQueue;
    LockUndisturbed(s, w);
  }

  /** What an undisturbed scan has read is how the tasks were when it began. */
  lemma ReadsFromStart(trace: seq<State>, a: nat, i: nat, w: WorkerId, ks: seq<nat>, cs: seq<int>, j: nat)
    requires Run(trace) && ScansAlone(trace, a, i, w) && Reads(trace, i, w, ks, cs) && j < |ks|
    ensures QueueOk(trace[a]) && trace[i].queue[j] in trace[a].queue
    ensures !trace[a].tasks[trace[i].queue[j]].exhausted
    ensures trace[a].tasks[trace[i].queue[j]].yieldedFibers == cs[j]
  {
    hide Run, Inv;
    var k := ks[j];
    assert ReadAt(trace, i, w, j, k, cs[j]);
    assert trace[a].queueLock != Some(w) by { RunInv(trace, a); QueueParts(trace[a]); }
    assert a < k;
    AloneUndisturbed(trace, a, i, k, w);
  }

  /** The first of the given tasks with the fewest yielded fibers. */
  ghost predicate FirstWithFewest(tasks: map<TaskId, Task>, queue: seq<TaskId>, t: TaskId)
    requires forall u :: u in queue ==> u in tasks
  {
    exists m: nat :: FirstLeast(YieldCounts(tasks, queue), m) && t == queue[m]
  }

  /** The tasks read come first among those with work. */
  lemma ReadPrefix(tasks: map<TaskId, Task>, queue: seq<TaskId>, cs: seq<int>)
    requires (forall u :: u in queue ==> u in tasks) && |cs| <= |queue|
    requires forall j :: 0 <= j < |cs| ==> !tasks[queue[j]].exhausted && tasks[queue[j]].yieldedFibers == cs[j]
    ensures var q := WithWork(tasks, queue);
      && (forall u :: u in q ==> u in queue) && |cs| <= |q| && q[..|cs|] == queue[..|cs|]
      && YieldCounts(tasks, q)[..|cs|] == cs && (|cs| == |queue| ==> q == queue)
  {
    var q, n := WithWork(tasks, queue), |cs|;
    WithWorkIn(tasks, queue);
    WithWorkSplits(tasks, queue, n);
    WithWorkAll(tasks, queue[..n]);
    assert q[..n] == queue[..n];
    forall j | 0 <= j < n
      ensures YieldCounts(tasks, q)[j] == cs[j]
    {
      assert q[j] == q[..n][j] == queue[..n][j];
    }
  }

  lemma FirstZero(counts: seq<int>, cs: seq<int>)
    requires 0 < |cs| <= |counts| && counts[..|cs|] == cs && forall j :: 0 <= j < |counts| ==> counts[j] >= 0
    requires cs[|cs| - 1] == 0 && AllPositive(cs[..|cs| - 1])
    ensures FirstLeast(counts, |cs| - 1)
  {
    var last := |cs| - 1;
    assert counts[last] == counts[..|cs|][last];
    forall j | 0 <= j < last
      ensures counts[last] < counts[j]
    {
      assert counts[j] == counts[..|cs|][j] == cs[..last][j];
    }
  }

  lemma ChosenIsFirst(tasks: map<TaskId, Task>, queue: seq<TaskId>, cs: seq<int>, t: TaskId)
    requires (forall u :: u in queue ==> u in tasks && tasks[u].yieldedFibers >= 0) && Chosen(queue, cs, t)
    requires forall j :: 0 <= j < |cs| ==> !tasks[queue[j]].exhausted && tasks[queue[j]].yieldedFibers == cs[j]
    ensures var q := WithWork(tasks, queue);
      (forall u :: u in q ==> u in tasks) && FirstWithFewest(tasks, q, t)
  {
    hide WithWork, FirstLeast;
    var q, last := WithWork(tasks, queue), |cs| - 1;
    ReadPrefix(tasks, queue, cs);
    var counts := YieldCounts(tasks, q);
    if t == queue[last] && cs[last] == 0 && AllPositive(cs[..last]) {
      FirstZero(counts, cs);
      assert q[last] == q[..|cs|][last] == queue[..|cs|][last];
    } else {
      assert counts[..|cs|] == counts;
    }
  }

  /**
    getTask when nobody else moves meanwhile: the worker goes to sleep if no queued task
    has work, and else gets the first of those that do with the fewest yielded fibers.
  */
  lemma UndisturbedChoice(trace: seq<State>, a: nat, i: nat, w: WorkerId)
    requires Run(trace) && ScansAlone(trace, a, i, w)
    ensures QueueOk(trace[a]) && w < |trace[i + 1].workers|
    ensures var q, pc := WithWork(trace[a].tasks, trace[a].queue), trace[i + 1].workers[w].pc;
      && (forall u :: u in q ==> u in trace[a].tasks)
      && ((pc.Drowsy? && q == []) || (pc.Starting? && FirstWithFewest(trace[a].tasks, q, pc.t)))
  {
    hide StepTo, Init, Inv, FirstWithFewest, Chosen;
    var ks, cs := GetTaskChoice(trace, i, w);
    AloneUndisturbed(trace, a, i, i, w);
    RunInv(trace, a); InvParts(trace[a]);
    var tasks, queue := trace[a].tasks, trace[i].queue;
    WithWorkIn(tasks, trace[a].queue);
    if trace[i + 1].workers[w].pc.Starting? {
      forall j | 0 <= j < |cs|
        ensures !tasks[queue[j]].exhausted && tasks[queue[j]].yieldedFibers == cs[j]
      {
        ReadsFromStart(trace, a, i, w, ks, cs, j);
      }
      ChosenIsFirst(tasks, queue, cs, trace[i + 1].workers[w].pc.t);
    }
  }
}
