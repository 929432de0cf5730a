/**
  Invariants of the scheduler (src/scheduler/Scheduler.cpp), grouped by the data
  they speak about.
*/
module SchedulerInvariant {
  import opened Basics
  import opened SchedulerModel

  // ----- Counting -----

  ghost function WorkersWith(ws: seq<Worker>, p: Worker -> bool): set<int>
  {
    set i | 0 <= i < |ws| && p(ws[i])
  }

  ghost function FibersWith(fs: map<FiberId, Fiber>, p: Fiber -> bool): set<FiberId>
  {
    set f | f in fs && p(fs[f])
  }

  function Bit(b: bool): int
  {
    if b then 1 else 0
  }

  lemma CardinalityChanged<T>(a: set<T>, b: set<T>, x: T)
    requires a - {x} == b - {x}
    ensures |b| == |a| - Bit(x in a) + Bit(x in b)
  {
    assert x in a ==> a == (a - {x}) + {x};
    assert x in b ==> b == (b - {x}) + {x};
    assert x !in a ==> a == a - {x};
    assert x !in b ==> b == b - {x};
  }

  lemma WorkerChanged(ws: seq<Worker>, ws': seq<Worker>, w: WorkerId, p: Worker -> bool)
    requires |ws| == |ws'| && w < |ws| && forall v :: 0 <= v < |ws| && v != w ==> p(ws[v]) == p(ws'[v])
    ensures |WorkersWith(ws', p)| == |WorkersWith(ws, p)| - Bit(p(ws[w])) + Bit(p(ws'[w]))
  {
    var a, b := WorkersWith(ws, p), WorkersWith(ws', p);
    assert a - {w} == b - {w};
    CardinalityChanged(a, b, w as int);
  }

  /** The maps differ at most in fiber `f`. */
  ghost predicate DifferAt(fs: map<FiberId, Fiber>, fs': map<FiberId, Fiber>, f: FiberId)
  {
    forall g :: g != f ==> (g in fs <==> g in fs') && (g in fs ==> fs[g] == fs'[g])
  }

  lemma FiberChanged(fs: map<FiberId, Fiber>, fs': map<FiberId, Fiber>, f: FiberId, p: Fiber -> bool)
    requires DifferAt(fs, fs', f)
    ensures |FibersWith(fs', p)| == |FibersWith(fs, p)| - Bit(f in fs && p(fs[f])) + Bit(f in fs' && p(fs'[f]))
  {
    var a, b := FibersWith(fs, p), FibersWith(fs', p);
    assert a - {f} == b - {f};
    CardinalityChanged(a, b, f);
  }

  function HandIs(t: TaskId): Worker -> bool { (x: Worker) => Hand(x.pc) == Some(t) }
  function CurrentIs(t: TaskId): Worker -> bool { (x: Worker) => x.currentTask == Some(t) }
  function OfTask(t: TaskId): Fiber -> bool { (x: Fiber) => x.task == t }
  function DetachedOf(t: TaskId): Fiber -> bool { (x: Fiber) => x.task == t && x.detached }
  function RegisteredOf(t: TaskId): Fiber -> bool { (x: Fiber) => x.task == t && x.registered }

  /** How many times task `t` is held: in a worker's hand, as a worker's currentTask, or by a fiber that has yielded. */
  ghost function Holders(ws: seq<Worker>, fs: map<FiberId, Fiber>, t: TaskId): int
  {
    |WorkersWith(ws, HandIs(t))| + |WorkersWith(ws, CurrentIs(t))| + |FibersWith(fs, DetachedOf(t))|
  }

  // ----- The task queue -----

  /** The queue holds exactly the tasks that are not cooling down. */
  ghost predicate QueueOk(s: State)
  {
    && NoDup(s.queue)
    && (forall t :: t in s.queue ==> t in s.tasks && !s.tasks[t].coolingDown)
    && (forall t :: t in s.tasks && !s.tasks[t].coolingDown ==> t in s.queue)
  }

  /** The queue mutex is held exactly by the worker that is choosing a task, and what it has chosen is still queued. */
  ghost predicate LockOk(s: State)
  {
    && (s.queueLock.Some? ==> s.queueLock.value < |s.workers|)
    && forall w :: 0 <= w < |s.workers| ==>
      && (Scanning(s.workers[w].pc) <==> s.queueLock == Some(w))
      && ScanOk(s.queue, s.workers[w].pc)
  }

  ghost predicate ScanOk(q: seq<TaskId>, pc: Pc)
  {
    match pc
    case ScanAt(pos, best) => pos <= |q| && (best.Some? ==> best.value.1 in q[..pos])
    case ScanYields(pos, best) => pos < |q| && (best.Some? ==> best.value.1 in q[..pos])
    case Deploying(t) => t in q
    case _ => true
  }

  lemma {:induction false} DequeueOk(q: seq<TaskId>, t: TaskId)
    requires NoDup(q) && t in q
    ensures NoDup(Dequeue(q, t))
    ensures forall u :: u in Dequeue(q, t) <==> u in q && u != t
  {
    if q[0] != t {
      assert forall u :: u in q <==> u == q[0] || u in q[1..];
      DequeueOk(q[1..], t);
      var rest := Dequeue(q[1..], t);
      assert forall i :: 0 <= i < |rest| ==> rest[i] in rest;
    } else {
      assert forall u :: u in q <==> u == q[0] || u in q[1..];
    }
  }

  // ----- Deployments and returns -----

  /** Every deployment is either returned or still held. */
  ghost predicate CountsOk(s: State)
  {
    forall t :: t in s.tasks ==> s.tasks[t].deployed == s.tasks[t].returned + Holders(s.workers, s.fibers, t)
  }

  /** What a worker holds exists, and a worker that starts a fiber or finishes one has nothing in `currentTask`. */
  ghost predicate HandsOk(s: State)
  {
    forall w :: 0 <= w < |s.workers| ==> HandOk(s.tasks, s.workers[w])
  }

  ghost predicate HandOk(tasks: map<TaskId, Task>, x: Worker)
  {
    && (Hand(x.pc).Some? ==> Hand(x.pc).value in tasks)
    && (x.currentTask.Some? ==> x.currentTask.value in tasks)
    && (FreshTurn(x.pc) ==> x.currentTask == None)
  }

  /** The worker has taken its `currentTask`, if any, and not kept another task since. */
  predicate FreshTurn(pc: Pc)
  {
    || pc.InHand? || pc.NeedTask? || Scanning(pc) || pc.Drowsy? || pc.Asleep? || pc.Starting? || pc.Finished?
    || (OnWorker(pc).Some? && Hand(pc).Some?)
  }

  /** Workers inside returnTask drew distinct numbers, and have seen what they acted on. */
  ghost predicate ReturnsOk(s: State)
  {
    && (forall w :: 0 <= w < |s.workers| ==> ReturnOk(s.tasks, s.workers[w].pc))
    && (forall w, v :: 0 <= w < v < |s.workers| ==>
         Return(s.workers[w].pc) == None || Return(s.workers[w].pc) != Return(s.workers[v].pc))
  }

  ghost predicate ReturnOk(tasks: map<TaskId, Task>, pc: Pc)
  {
    Return(pc).Some? ==>
      && pc.t in tasks && 1 <= pc.num <= tasks[pc.t].returned
      && (pc.Cooling? || pc.Comparing? ==> tasks[pc.t].exhausted)
      && (pc.Comparing? ==> tasks[pc.t].coolingDown)
  }

  /**
    A task is finalized once, after its last return; and the last return of an exhausted task is
    on its way to finalize it.
  */
  ghost predicate FinalOk(s: State)
  {
    forall t :: t in s.tasks ==> TaskOk(s.workers, t, s.tasks[t])
  }

  ghost predicate TaskOk(ws: seq<Worker>, t: TaskId, x: Task)
  {
    && x.returned >= 0
    && (x.coolingDown ==> x.exhausted)
    && (x.exhausted ==> x.deployed > 0)
    && x.finalizations == Bit(x.finalized)
    && (x.finalized ==> x.coolingDown && x.deployed == x.returned)
    && (x.finalized ==> forall w :: 0 <= w < |ws| ==> Return(ws[w].pc) != Some((t, x.deployed)))
    && (x.exhausted && x.deployed == x.returned && !x.finalized ==>
         x.lastReturn < |ws| && Return(ws[x.lastReturn].pc) == Some((t, x.deployed)))
  }

  // ----- Fibers -----

  /** Every unfinished fiber is on its worker, runnable there, or waiting there; the first kind is running. */
  ghost predicate FibersOk(s: State)
  {
    forall f :: f in s.fibers ==> FiberOk(s.tasks, s.workers, f, s.fibers[f])
  }

  ghost predicate FiberOk(tasks: map<TaskId, Task>, ws: seq<Worker>, f: FiberId, x: Fiber)
  {
    && x.owner < |ws| && x.task in tasks
    && (x.running ==> OnWorker(ws[x.owner].pc) == Some(f))
    && (!x.running ==> x.detached && x.awaits.Some?)
    && (!x.running && f !in ws[x.owner].runnable ==>
      x.awaits.value in ws[x.owner].waiting && ws[x.owner].waiting[x.awaits.value] == f)
    && (x.registered ==> x.detached)
    && (x.detached && !x.registered ==> ws[x.owner].pc == Yielded(f))
  }

  /** The fiber a worker executes, or has just switched away from, is its own. */
  ghost predicate ActiveOk(s: State)
  {
    forall w :: 0 <= w < |s.workers| ==>
      && (OnWorker(s.workers[w].pc).Some? ==> OnWorkerOk(s.fibers, w, s.workers[w]))
      && (s.workers[w].pc.Yielded? ==> JustYieldedOk(s.fibers, w, s.workers[w].pc.f))
  }

  ghost predicate JustYieldedOk(fs: map<FiberId, Fiber>, w: WorkerId, f: FiberId)
  {
    f in fs && fs[f].owner == w && !fs[f].running && fs[f].detached && !fs[f].registered
  }

  ghost predicate OnWorkerOk(fs: map<FiberId, Fiber>, w: WorkerId, x: Worker)
    requires OnWorker(x.pc).Some?
  {
    && x.pc.f in fs && fs[x.pc.f].owner == w && fs[x.pc.f].running
    && (fs[x.pc.f].detached <==> x.pc.hand == None)
    && (x.pc.hand.Some? ==> fs[x.pc.f].task == x.pc.hand.value)
    && (x.pc.Awaiting? ==> x.pc.child in x.waiting && x.waiting[x.pc.child] == x.pc.f)
  }

  ghost predicate RunnablesOk(s: State)
  {
    forall w :: 0 <= w < |s.workers| ==>
      && NoDup(s.workers[w].runnable)
      && forall f :: f in s.workers[w].runnable ==> RunnableOk(s.tasks, s.fibers, w, f)
  }

  /** A runnable fiber has yielded, and the task it waited for is finalized. */
  ghost predicate RunnableOk(tasks: map<TaskId, Task>, fs: map<FiberId, Fiber>, w: WorkerId, f: FiberId)
  {
    && f in fs && fs[f].owner == w && !fs[f].running
    && fs[f].awaits.Some? && fs[f].awaits.value in tasks && tasks[fs[f].awaits.value].finalized
  }

  ghost predicate WaitingsOk(s: State)
  {
    forall w :: 0 <= w < |s.workers| ==>
      forall c :: c in s.workers[w].waiting ==> WaitingOk(s.tasks, s.fibers, w, s.workers[w], c)
  }

  ghost predicate WaitingOk(tasks: map<TaskId, Task>, fs: map<FiberId, Fiber>, w: WorkerId, x: Worker, c: TaskId)
    requires c in x.waiting
  {
    var f := x.waiting[c];
    && f in fs && fs[f].owner == w && fs[f].awaits == Some(c) && f !in x.runnable
    && c in tasks && tasks[c].waiter == Some(w)
    && (fs[f].running ==> x.pc.Awaiting? && x.pc.f == f && x.pc.child == c)
  }

  /** A task somebody waits for is in that worker's map until its finalizer has moved the fiber. */
  ghost predicate WaitersOk(s: State)
  {
    && (forall c :: c in s.tasks && s.tasks[c].waiter.Some? ==> WaiterOk(s.workers, c, s.tasks[c]))
    && (forall w :: 0 <= w < |s.workers| && s.workers[w].pc.Finalizing? ==>
      FinalizerOk(s.tasks, s.workers, s.workers[w].pc.t))
    && (forall w, v :: 0 <= w < v < |s.workers| && s.workers[w].pc.Finalizing? ==> s.workers[w].pc != s.workers[v].pc)
    && (forall w :: 0 <= w < |s.workers| && s.workers[w].pc.Waking? ==> s.workers[w].pc.v < |s.workers|)
  }

  ghost predicate WaiterOk(ws: seq<Worker>, c: TaskId, x: Task)
    requires x.waiter.Some?
  {
    && x.waiter.value < |ws|
    && (!x.finalized ==> c in ws[x.waiter.value].waiting)
    && (x.finalized && c in ws[x.waiter.value].waiting ==> x.lastReturn < |ws| && ws[x.lastReturn].pc == Finalizing(c))
  }

  ghost predicate FinalizerOk(tasks: map<TaskId, Task>, ws: seq<Worker>, c: TaskId)
  {
    && c in tasks && tasks[c].finalized
    && (tasks[c].waiter.Some? ==> tasks[c].waiter.value < |ws| && c in ws[tasks[c].waiter.value].waiting)
  }

  /** Reserved units are performed or being performed by an unfinished fiber. */
  ghost predicate UnitsOk(s: State)
  {
    forall t :: t in s.tasks ==>
      && s.tasks[t].reserved == s.tasks[t].performed + |FibersWith(s.fibers, OfTask(t))|
      && s.tasks[t].nonCompletedFibers == |FibersWith(s.fibers, OfTask(t))|
      && s.tasks[t].yieldedFibers == |FibersWith(s.fibers, RegisteredOf(t))|
  }

  // ----- Sleeping -----

  ghost predicate IdleOk(s: State)
  {
    && NoDup(s.idle)
    && (forall w :: w in s.idle ==> w < |s.workers|)
    && (forall w :: 0 <= w < |s.workers| ==> (s.workers[w].inIdleList <==> w in s.idle))
  }

  ghost predicate WakePending(ws: seq<Worker>, w: WorkerId)
    requires w < |ws|
  {
    ws[w].waker < |ws| && ws[ws[w].waker].pc == Waking(w)
  }

  /** The worker has found `runnableFibers` empty and may fall asleep without looking again. */
  predicate GoingToSleep(pc: Pc)
  {
    pc.NoFiber? || pc.NeedTask? || Scanning(pc) || pc.Drowsy?
  }

  /** No wake-up is lost between finding `runnableFibers` empty and being woken. */
  ghost predicate SleepOk(s: State)
  {
    forall w :: 0 <= w < |s.workers| && s.workers[w].runnable != [] ==> AwakeOk(s.workers, w)
  }

  ghost predicate AwakeOk(ws: seq<Worker>, w: WorkerId)
    requires w < |ws|
  {
    && (GoingToSleep(ws[w].pc) ==> !ws[w].allowedToSleep || WakePending(ws, w))
    && (ws[w].pc.Asleep? ==> !ws[w].shouldSleep || WakePending(ws, w))
  }

  /** No task is returned more often than deployed, and a task in a worker's hand is still out. */
  ghost predicate Balanced(s: State)
  {
    && (forall t :: t in s.tasks ==> s.tasks[t].returned <= s.tasks[t].deployed)
    && (forall w :: 0 <= w < |s.workers| && Hand(s.workers[w].pc).Some? && Hand(s.workers[w].pc).value in s.tasks ==>
         s.tasks[Hand(s.workers[w].pc).value].returned < s.tasks[Hand(s.workers[w].pc).value].deployed)
  }

  ghost predicate ControlOk(s: State)
  {
    QueueOk(s) && LockOk(s) && ReturnsOk(s) && FinalOk(s)
  }

  ghost predicate FiberGroupOk(s: State)
  {
    FibersOk(s) && ActiveOk(s) && RunnablesOk(s) && WaitingsOk(s) && WaitersOk(s)
  }

  ghost predicate SleepGroupOk(s: State)
  {
    IdleOk(s) && SleepOk(s)
  }

  ghost predicate Inv(s: State)
  {
    ControlOk(s) && HandsOk(s) && CountsOk(s) && FiberGroupOk(s) && UnitsOk(s) && SleepGroupOk(s)
  }
}
