/**
  The work-stealing scan over a chunked buffer (src/runtime/Buffer.cpp) as a state
  machine: one reservation state per worker under its own mutex, plus the global
  atomic `startIndex`. Any number of workers take steps in any order.

  A buffer of n elements is handed out in units of `split` elements; an empty buffer
  is handed out once, as one unit of length zero. The unit number is an `int` in the
  source and unbounded here.

  `holder` records which worker drew which buffer, `taker` and `handed` which worker
  reserved which unit, `run` what performWork passed to unitRun; no step reads them.
*/
module BufferScan {
  import opened Basics

  /** Where a worker is in allocateWork and performWork. `OwnFetch` and `OwnInstall` hold the worker's own mutex. */
  datatype Pc =
    | Idle
    | Allocating
    | OwnFetch
    | OwnInstall(buf: nat)
    | StealPrev
    | StealPrevFetch(v: nat)
    | Look(i: nat)
    | LookFetch(i: nat)
    | Reserved(buf: nat, unit: nat)

  datatype Worker = Worker(
    pc: Pc, installed: bool, bufferId: nat, cursor: nat, unitAmount: nat, resvId: nat, steal: Option<nat>)

  datatype State = State(
    sizes: seq<nat>, split: nat, startIndex: nat, exhausted: bool, workers: seq<Worker>,
    holder: map<nat, nat>, taker: map<(nat, nat), nat>, handed: seq<nat>, run: seq<(nat, nat)>)

  // ----- Units of a buffer -----

  function UnitAmount(size: nat, split: nat): nat
    requires split > 0
  {
    (size + split - 1) / split
  }

  /** How many units are handed out for a buffer. */
  function Units(size: nat, split: nat): nat
    requires split > 0
  {
    if size == 0 then 1 else UnitAmount(size, split)
  }

  function UnitBegin(split: nat, unit: nat): nat
  {
    split * unit
  }

  function UnitEnd(size: nat, split: nat, unit: nat): nat
  {
    if split * unit + split < size then split * unit + split else size
  }

  lemma UnitAmountBounds(size: nat, split: nat)
    requires split > 0
    ensures size <= split * UnitAmount(size, split) < size + split
  {
    var u := UnitAmount(size, split);
    assert u * split + (size + split - 1) % split == size + split - 1;
    assert u * split == split * u;
  }

  /** The units of a buffer tile it: every element lies in exactly one of them. */
  lemma UnitsTile(size: nat, split: nat, e: nat, unit: nat)
    requires split > 0 && e < size && unit < Units(size, split)
    ensures e / split < Units(size, split)
    ensures UnitBegin(split, unit) <= e < UnitEnd(size, split, unit) <==> unit == e / split
  {
    UnitAmountBounds(size, split);
    var n, d := UnitAmount(size, split), e / split;
    assert split * d <= e < split * d + split;
    MulMono(n, if n <= d then d else n, split);
    assert n <= d ==> split * n <= split * d;
    OneUnit(split, e, unit, d);
  }

  lemma OneUnit(split: nat, e: nat, u: nat, d: nat)
    requires split * d <= e < split * d + split
    ensures split * u <= e < split * u + split <==> u == d
  {
    if u < d {
      MulMono(u + 1, d, split);
      assert split * (u + 1) == split * u + split;
    } else if d < u {
      MulMono(d + 1, u, split);
      assert split * (d + 1) == split * d + split;
    }
  }

  /** A unit never runs past the end of its buffer, and only an empty buffer has an empty unit. */
  lemma UnitInside(size: nat, split: nat, unit: nat)
    requires split > 0 && unit < Units(size, split)
    ensures UnitBegin(split, unit) <= UnitEnd(size, split, unit) <= size
    ensures UnitBegin(split, unit) == UnitEnd(size, split, unit) <==> size == 0
  {
    UnitAmountBounds(size, split);
    if size > 0 {
      var n := UnitAmount(size, split);
      MulMono(unit + 1, n, split);
      assert split * (unit + 1) == split * unit + split;
    }
  }

  // ----- Steps -----

  predicate Locked(pc: Pc)
  {
    pc.OwnFetch? || pc.OwnInstall?
  }

  function Put(s: State, w: nat, x: Worker): State
    requires w < |s.workers|
  {
    s.(workers := s.workers[w := x])
  }

  function Goto(s: State, w: nat, pc: Pc): State
    requires w < |s.workers|
  {
    Put(s, w, s.workers[w].(pc := pc))
  }

  /** Record that `w` reserved the next unit of buffer `b`. */
  function Take(s: State, w: nat, b: nat, unit: nat): State
  {
    s.(taker := s.taker[(b, unit) := w], handed := if b < |s.handed| then s.handed[b := s.handed[b] + 1] else s.handed)
  }

  /** The `i`-th of `n` workers after `w`, going round. */
  function Around(n: nat, w: nat, i: nat): (v: nat)
    requires n > 0
    ensures v < n
  {
    (w + i) % n
  }

  /** Lines 84-86: give up at once if the task is already exhausted. */
  predicate CanStart(s: State, w: nat)
  {
    w < |s.workers| && s.workers[w].pc.Idle?
  }

  function Start(s: State, w: nat): State
    requires CanStart(s, w)
  {
    if s.exhausted then s else Goto(s, w, Allocating)
  }

  /** fetchAndNextOwn, lines 29-33: lock, and take the next unit of the current buffer if there is one. */
  predicate CanOwn(s: State, w: nat)
  {
    w < |s.workers| && s.workers[w].pc.Allocating?
  }

  function Own(s: State, w: nat): State
    requires CanOwn(s, w)
  {
    var x := s.workers[w];
    var y := x.(cursor := x.cursor + 1);
    if x.cursor < x.unitAmount
    then Take(Put(s, w, y.(pc := Reserved(x.bufferId, x.cursor), resvId := x.cursor)), w, x.bufferId, x.cursor)
    else Put(s, w, y.(pc := OwnFetch))
  }

  /** fetchAndNextOwn, line 35: draw the next buffer, still holding the mutex. */
  predicate CanFetch(s: State, w: nat)
  {
    w < |s.workers| && s.workers[w].pc.OwnFetch?
  }

  function Fetch(s: State, w: nat): State
    requires CanFetch(s, w)
  {
    Goto(s, w, if s.startIndex < |s.sizes| then OwnInstall(s.startIndex) else StealPrev)
      .(startIndex := s.startIndex + 1, holder := s.holder[s.startIndex := w])
  }

  /** fetchAndNextOwn, lines 37-42, and lines 91-94: switch to the new buffer and take its first unit. */
  predicate CanInstall(s: State, w: nat)
  {
    w < |s.workers| && s.workers[w].pc.OwnInstall? && s.workers[w].pc.buf < |s.sizes| && s.split > 0
  }

  function Install(s: State, w: nat): State
    requires CanInstall(s, w)
  {
    var x := s.workers[w];
    var b := x.pc.buf;
    var y := x.(pc := Reserved(b, 0), installed := true, bufferId := b, cursor := 1,
      unitAmount := UnitAmount(s.sizes[b], s.split), resvId := 0);
    Take(Put(s, w, y), w, b, 0)
  }

  /** Lines 96-98: ask the worker stolen from last time. */
  predicate CanAskPrev(s: State, w: nat)
  {
    && w < |s.workers| && s.workers[w].pc.StealPrev?
    && (s.workers[w].steal.Some? ==>
      s.workers[w].steal.value < |s.workers| && !Locked(s.workers[s.workers[w].steal.value].pc))
  }

  function AskPrev(s: State, w: nat): State
    requires CanAskPrev(s, w)
  {
    var x := s.workers[w];
    if x.steal == None then Goto(s, w, Look(1))
    else
      var v := s.workers[x.steal.value];
      if v.cursor < v.unitAmount then Goto(s, w, StealPrevFetch(x.steal.value))
      else Put(s, w, x.(pc := Look(1), steal := None))
  }

  /** fetchAndNext on another worker's state, lines 47-51. */
  function StealFrom(s: State, w: nat, v: nat, failed: Worker): State
    requires w < |s.workers| && v < |s.workers| && w != v
  {
    var x, y := s.workers[w], s.workers[v];
    var bumped := Put(s, v, y.(cursor := y.cursor + 1));
    if y.cursor < y.unitAmount
    then Take(Put(bumped, w, x.(pc := Reserved(y.bufferId, y.cursor), resvId := y.cursor, steal := Some(v))), w,
      y.bufferId, y.cursor)
    else Put(bumped, w, failed)
  }

  /** Lines 99-105. */
  predicate CanFetchPrev(s: State, w: nat)
  {
    && w < |s.workers| && s.workers[w].pc.StealPrevFetch?
    && s.workers[w].pc.v < |s.workers| && s.workers[w].pc.v != w && !Locked(s.workers[s.workers[w].pc.v].pc)
  }

  function FetchPrev(s: State, w: nat): State
    requires CanFetchPrev(s, w)
  {
    StealFrom(s, w, s.workers[w].pc.v, s.workers[w].(pc := Look(1), steal := None))
  }

  /** Lines 108-112 and 123: look at the other workers in turn; after the last one the task is exhausted. */
  predicate CanLook(s: State, w: nat)
  {
    && w < |s.workers| && s.workers[w].pc.Look?
    && (s.workers[w].pc.i < |s.workers| ==> !Locked(s.workers[Around(|s.workers|, w, s.workers[w].pc.i)].pc))
  }

  function LookAt(s: State, w: nat): State
    requires CanLook(s, w)
  {
    var i := s.workers[w].pc.i;
    if i >= |s.workers| then Goto(s, w, Idle).(exhausted := true)
    else
      var v := s.workers[Around(|s.workers|, w, i)];
      Goto(s, w, if v.cursor < v.unitAmount then LookFetch(i) else Look(i + 1))
  }

  /** Lines 113-119. */
  predicate CanFetchOther(s: State, w: nat)
  {
    && w < |s.workers| && s.workers[w].pc.LookFetch?
    && Around(|s.workers|, w, s.workers[w].pc.i) != w
    && !Locked(s.workers[Around(|s.workers|, w, s.workers[w].pc.i)].pc)
  }

  function FetchOther(s: State, w: nat): State
    requires CanFetchOther(s, w)
  {
    var i := s.workers[w].pc.i;
    StealFrom(s, w, Around(|s.workers|, w, i), s.workers[w].(pc := Look(i + 1)))
  }

  /** performWork, lines 126-134: which buffer is run is decided by `stealWorkerId` and read without a lock. */
  predicate CanPerform(s: State, w: nat)
  {
    && w < |s.workers| && s.workers[w].pc.Reserved?
    && (s.workers[w].steal.Some? ==> s.workers[w].steal.value < |s.workers|)
  }

  function RunsOn(s: State, w: nat): nat
    requires CanPerform(s, w)
  {
    var x := s.workers[w];
    if x.steal.Some? then s.workers[x.steal.value].bufferId else x.bufferId
  }

  function Perform(s: State, w: nat): State
    requires CanPerform(s, w)
  {
    Goto(s, w, Idle).(run := s.run + [(RunsOn(s, w), s.workers[w].resvId)])
  }

  datatype Step =
    | StartStep
    | OwnStep
    | FetchStep
    | InstallStep
    | AskPrevStep
    | FetchPrevStep
    | LookStep
    | FetchOtherStep
    | PerformStep

  ghost predicate StepTo(s: State, w: nat, step: Step, s': State)
  {
    match step
    case StartStep => CanStart(s, w) && s' == Start(s, w)
    case OwnStep => CanOwn(s, w) && s' == Own(s, w)
    case FetchStep => CanFetch(s, w) && s' == Fetch(s, w)
    case InstallStep => CanInstall(s, w) && s' == Install(s, w)
    case AskPrevStep => CanAskPrev(s, w) && s' == AskPrev(s, w)
    case FetchPrevStep => CanFetchPrev(s, w) && s' == FetchPrev(s, w)
    case LookStep => CanLook(s, w) && s' == LookAt(s, w)
    case FetchOtherStep => CanFetchOther(s, w) && s' == FetchOther(s, w)
    case PerformStep => CanPerform(s, w) && s' == Perform(s, w)
  }

  ghost predicate Next(s: State, s': State)
  {
    exists w, step :: StepTo(s, w, step, s')
  }

  ghost predicate Init(s: State)
  {
    && s.split > 0 && s.startIndex == 0 && !s.exhausted && s.holder == map[] && s.taker == map[] && s.run == []
    && s.handed == seq(|s.sizes|, _ => 0)
    && forall w :: 0 <= w < |s.workers| ==> s.workers[w] == Worker(Idle, false, 0, 0, 0, 0, None)
  }

  ghost predicate Run(trace: seq<State>)
  {
    && trace != [] && Init(trace[0])
    && forall i :: 0 <= i < |trace| - 1 ==> Next(trace[i], trace[i + 1])
  }
}
