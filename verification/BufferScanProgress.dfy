/**
  The work-stealing scan (src/runtime/Buffer.cpp) comes to an end: a failed allocateWork
  sets `workExhausted`, every step that changes something brings the end nearer, and a
  scan that cannot go on has run every unit.
*/
module BufferScanProgress {
  import opened Basics
  import opened BufferScan
  import opened BufferScanProof
  import opened Sums

  // ----- A measure every step lowers -----

  /** More than a worker needs between two reservations. */
  function Top(n: nat): nat
  {
    2 * n + 6
  }

  /** How far a worker is from giving up. */
  function Rank(n: nat, exhausted: bool, pc: Pc): nat
  {
    match pc
    case Idle => if exhausted then 0 else Top(n)
    case Reserved(_, _) => if exhausted then 1 else Top(n) + 1
    case Allocating => 2 * n + 5
    case OwnFetch => 2 * n + 4
    case OwnInstall(_) => 2 * n + 3
    case StealPrev => 2 * n + 2
    case StealPrevFetch(_) => 2 * n + 1
    case Look(i) => if i < n then 2 * (n - i) + 1 else 1
    case LookFetch(i) => if i < n then 2 * (n - i) else 0
  }

  ghost function Ranks(s: State): (r: seq<nat>)
    ensures |r| == |s.workers|
  {
    seq(|s.workers|, w requires 0 <= w < |s.workers| => Rank(|s.workers|, s.exhausted, s.workers[w].pc))
  }

  /** Units not reserved yet, buffer by buffer. */
  ghost function Left(s: State): (r: seq<nat>)
    requires s.split > 0 && |s.handed| == |s.sizes|
    ensures |r| == |s.sizes|
  {
    seq(|s.sizes|, b requires 0 <= b < |s.sizes| =>
      var units := Units(s.sizes[b], s.split); if s.handed[b] < units then units - s.handed[b] else 0)
  }

  ghost function Measure(s: State): nat
    requires s.split > 0 && |s.handed| == |s.sizes|
  {
    Sum(Left(s)) * (Top(|s.workers|) + 2) + Sum(Ranks(s))
  }

  /** Only worker `w` moves. */
  ghost predicate OnlyMoves(s: State, s': State, w: nat)
  {
    && w < |s.workers| == |s'.workers| && s'.sizes == s.sizes && s'.split == s.split && (s.exhausted ==> s'.exhausted)
    && forall v :: 0 <= v < |s.workers| && v != w ==> s'.workers[v].pc == s.workers[v].pc
  }

  /** The step reserves the next unit of some buffer. */
  ghost predicate Reserves(s: State, s': State, w: nat)
  {
    && w < |s'.workers| && s'.workers[w].pc.Reserved?
    && exists b :: 0 <= b < |s.handed| && s'.handed == s.handed[b := s.handed[b] + 1]
  }

  /** The step brings its worker nearer to giving up. */
  ghost predicate Advances(s: State, s': State, w: nat)
  {
    && w < |s.workers| == |s'.workers| && s'.handed == s.handed
    && Rank(|s.workers|, s'.exhausted, s'.workers[w].pc) < Rank(|s.workers|, s.exhausted, s.workers[w].pc)
  }

  ghost predicate Progress(s: State, s': State, w: nat)
  {
    OnlyMoves(s, s', w) && (s' == s || Reserves(s, s', w) || Advances(s, s', w))
  }

  lemma ProgressOwn(s: State, w: nat)
    requires BuffersOk(s) && HoldersOk(s)
    ensures CanStart(s, w) ==> Progress(s, Start(s, w), w)
    ensures CanOwn(s, w) ==> Progress(s, Own(s, w), w)
    ensures CanFetch(s, w) ==> Progress(s, Fetch(s, w), w)
    ensures CanInstall(s, w) ==> Progress(s, Install(s, w), w)
  {
    hide UnitAmount, Units;
    if CanOwn(s, w) {
      assert HolderOk(s, w, s.workers[w]);
      Reserved1(s, Own(s, w), w, s.workers[w].bufferId);
    }
    if CanInstall(s, w) {
      Reserved1(s, Install(s, w), w, s.workers[w].pc.buf);
    }
  }

  lemma Reserved1(s: State, s': State, w: nat, b: nat)
    requires w < |s'.workers|
    ensures s'.workers[w].pc.Reserved? && b < |s.handed| && s'.handed == s.handed[b := s.handed[b] + 1] ==>
      Reserves(s, s', w)
  {
  }

  lemma ProgressLook(s: State, w: nat)
    ensures CanAskPrev(s, w) ==> Progress(s, AskPrev(s, w), w)
    ensures CanLook(s, w) ==> Progress(s, LookAt(s, w), w)
    ensures CanPerform(s, w) ==> Progress(s, Perform(s, w), w)
  {
    hide Around;
  }

  lemma ProgressSteal(s: State, w: nat, v: nat, failed: Worker)
    requires BuffersOk(s) && HoldersOk(s) && w < |s.workers| && v < |s.workers| && v != w
    requires Rank(|s.workers|, s.exhausted, failed.pc) < Rank(|s.workers|, s.exhausted, s.workers[w].pc)
    ensures Progress(s, StealFrom(s, w, v, failed), w)
  {
    hide UnitAmount, Units;
    assert HolderOk(s, v, s.workers[v]);
    Reserved1(s, StealFrom(s, w, v, failed), w, s.workers[v].bufferId);
  }

  lemma StepProgress(s: State, w: nat, step: Step, s': State)
    requires BuffersOk(s) && HoldersOk(s) && ThievesOk(s) && StepTo(s, w, step, s')
    ensures Progress(s, s', w)
  {
    hide Progress, Start, Own, Fetch, Install, AskPrev, LookAt, Perform, StealFrom, Around, BuffersOk, HoldersOk;
    match step
    case FetchPrevStep => ProgressSteal(s, w, s.workers[w].pc.v, s.workers[w].(pc := Look(1), steal := None));
    case FetchOtherStep =>
      var i := s.workers[w].pc.i;
      assert ThiefOk(s, w, s.workers[w]);
      ProgressSteal(s, w, Around(|s.workers|, w, i), s.workers[w].(pc := Look(i + 1)));
    case _ => ProgressOwn(s, w); ProgressLook(s, w);
  }

  lemma RanksShrink(s: State, s': State, w: nat)
    requires OnlyMoves(s, s', w)
    ensures Sum(Ranks(s')) <= Sum(Ranks(s)) - Ranks(s)[w] + Ranks(s')[w]
  {
    SumUpdate(Ranks(s), w, Ranks(s')[w]);
    SumAtMost(Ranks(s'), Ranks(s)[w := Ranks(s')[w]]);
  }

  lemma LeftShrinks(s: State, s': State, b: nat)
    requires s.split > 0 && |s.handed| == |s.sizes| && s'.sizes == s.sizes && s'.split == s.split
    requires b < |s.handed| && s'.handed == s.handed[b := s.handed[b] + 1] && s'.handed[b] <= Units(s.sizes[b], s.split)
    ensures Sum(Left(s')) == Sum(Left(s)) - 1
  {
    hide Units;
    SumUpdate(Left(s), b, Left(s)[b] - 1);
    assert Left(s') == Left(s)[b := Left(s)[b] - 1];
  }

  lemma RankBounded(s: State, w: nat)
    requires w < |s.workers|
    ensures Ranks(s)[w] <= Top(|s.workers|) + 1
  {
  }

  lemma OneUnitWorth(left: nat, top: nat, a: nat, b: nat)
    requires left > 0 && b <= a + top + 1
    ensures (left - 1) * (top + 2) + b < left * (top + 2) + a
  {
    assert left * (top + 2) == (left - 1) * (top + 2) + (top + 2);
  }

  lemma InvShape(s: State)
    requires Inv(s)
    ensures s.split > 0 && |s.handed| == |s.sizes| && BuffersOk(s) && HoldersOk(s) && ThievesOk(s)
  {
  }

  /** Every step that changes anything lowers the measure. */
  lemma StepShrinks(s: State, w: nat, step: Step, s': State)
    requires Inv(s) && StepTo(s, w, step, s') && s' != s
    ensures Inv(s') && s.split > 0 && s'.split > 0 && |s.handed| == |s.sizes| && |s'.handed| == |s'.sizes|
    ensures Measure(s') < Measure(s)
  {
    hide Inv, StepTo, BuffersOk, HoldersOk, ThievesOk, Left, Ranks, Sum;
    InvShape(s);
    StepKeepsInv(s, w, step, s');
    InvShape(s');
    StepProgress(s, w, step, s');
    RanksShrink(s, s', w);
    if Reserves(s, s', w) {
      var b :| 0 <= b < |s.handed| && s'.handed == s.handed[b := s.handed[b] + 1];
      HandedBound(s', b);
      LeftShrinks(s, s', b);
      RankBounded(s', w);
      OneUnitWorth(Sum(Left(s)), Top(|s.workers|), Sum(Ranks(s)), Sum(Ranks(s')));
    } else {
      RanksAre(s, w);
      RanksAre(s', w);
      SameLeft(s, s');
    }
  }

  lemma RanksAre(s: State, w: nat)
    requires w < |s.workers|
    ensures Ranks(s)[w] == Rank(|s.workers|, s.exhausted, s.workers[w].pc)
  {
  }

  lemma SameLeft(s: State, s': State)
    requires s.split > 0 && |s.handed| == |s.sizes|
    requires s'.sizes == s.sizes && s'.split == s.split && s'.handed == s.handed
    ensures Left(s') == Left(s)
  {
  }

  // ----- Every run comes to an end -----

  /** The number of units of all buffers. */
  ghost function TotalUnits(s: State): nat
    requires s.split > 0
  {
    Sum(seq(|s.sizes|, b requires 0 <= b < |s.sizes| => Units(s.sizes[b], s.split)))
  }

  lemma InitMeasure(s: State)
    requires Init(s)
    ensures Measure(s) == TotalUnits(s) * (2 * |s.workers| + 8) + |s.workers| * (2 * |s.workers| + 6)
  {
    SumConstant(Ranks(s), 2 * |s.workers| + 6);
    assert Left(s) == seq(|s.sizes|, b requires 0 <= b < |s.sizes| => Units(s.sizes[b], s.split)) by {
      UnitsPositive(s);
    }
  }

  lemma UnitsPositive(s: State)
    requires s.split > 0
    ensures forall b :: 0 <= b < |s.sizes| ==> Units(s.sizes[b], s.split) > 0
  {
    forall b | 0 <= b < |s.sizes|
      ensures Units(s.sizes[b], s.split) > 0
    {
      UnitAmountBounds(s.sizes[b], s.split);
    }
  }

  lemma {:induction false} MeasureFalls(trace: seq<State>, i: nat)
    requires Run(trace) && i < |trace| && forall j :: 0 <= j < |trace| - 1 ==> trace[j + 1] != trace[j]
    ensures Inv(trace[i]) && Inv(trace[0]) && trace[i].split > 0 && |trace[i].handed| == |trace[i].sizes|
    ensures trace[0].split > 0 && |trace[0].handed| == |trace[0].sizes|
    ensures Measure(trace[i]) + i <= Measure(trace[0])
  {
    hide Inv, StepTo, Init, Measure;
    RunInv(trace, 0);
    InvShape(trace[0]);
    if i == 0 {
    } else {
      MeasureFalls(trace, i - 1);
      assert Next(trace[i - 1], trace[i - 1 + 1]);
      assert trace[i - 1 + 1] != trace[i - 1];
      var w: nat, step :| StepTo(trace[i - 1], w, step, trace[i]);
      StepShrinks(trace[i - 1], w, step, trace[i]);
    }
  }

  /** A run in which every step changes something is over after this many steps. */
  lemma RunsAreBounded(trace: seq<State>)
    requires Run(trace) && forall j :: 0 <= j < |trace| - 1 ==> trace[j + 1] != trace[j]
    ensures trace[0].split > 0
    ensures var n := |trace[0].workers|; |trace| - 1 <= TotalUnits(trace[0]) * (2 * n + 8) + n * (2 * n + 6)
  {
    hide Inv, Measure;
    MeasureFalls(trace, |trace| - 1);
    InitMeasure(trace[0]);
  }

  // ----- A run that cannot go on is done -----

  /** No worker can change anything any more. */
  ghost predicate Over(s: State)
  {
    forall w: nat, step, s' :: StepTo(s, w, step, s') ==> s' == s
  }

  /** What the scan is for: the task is exhausted and every unit has been run exactly once. */
  ghost predicate AllRun(s: State)
  {
    && s.exhausted && (forall w :: 0 <= w < |s.workers| ==> s.workers[w].pc.Idle?)
    && (forall b: nat, u: nat :: IsUnit(s, b, u) ==> OnceIn(s.run, (b, u)))
  }

  /** A step that changes nothing is that of an idle worker after exhaustion. */
  lemma MoversMove(s: State, w: nat)
    requires CanMove(s, w) && Over(s)
    ensures w < |s.workers| && s.workers[w].pc.Idle? && s.exhausted
  {
    hide Around, UnitAmount;
    assert CanStart(s, w) ==> StepTo(s, w, StartStep, Start(s, w));
    assert CanOwn(s, w) ==> StepTo(s, w, OwnStep, Own(s, w));
    assert CanFetch(s, w) ==> StepTo(s, w, FetchStep, Fetch(s, w));
    assert CanInstall(s, w) ==> StepTo(s, w, InstallStep, Install(s, w));
    assert CanAskPrev(s, w) ==> StepTo(s, w, AskPrevStep, AskPrev(s, w));
    assert CanFetchPrev(s, w) ==> StepTo(s, w, FetchPrevStep, FetchPrev(s, w));
    assert CanLook(s, w) ==> StepTo(s, w, LookStep, LookAt(s, w));
    assert CanFetchOther(s, w) ==> StepTo(s, w, FetchOtherStep, FetchOther(s, w));
    assert CanPerform(s, w) ==> StepTo(s, w, PerformStep, Perform(s, w));
  }

  lemma NobodyWaits(trace: seq<State>, i: nat, w: nat)
    requires Run(trace) && i < |trace| && w < |trace[i].workers| && Over(trace[i])
    ensures !WaitsForMutex(trace[i], w)
  {
    hide Run, CanMove, Over;
    var s := trace[i];
    if WaitsForMutex(s, w) {
      var v: nat :| v < |s.workers| && Locked(s.workers[v].pc);
      HolderDoesNotWait(s, v);
      MovesUnlessWaiting(trace, i, v);
      MoversMove(s, v);
      assert false;
    }
  }

  /** In every run with a worker: when nobody can change anything, every unit has been run exactly once. */
  lemma OverMeansDone(trace: seq<State>)
    requires Run(trace) && |trace[|trace| - 1].workers| > 0 && Over(trace[|trace| - 1])
    ensures AllRun(trace[|trace| - 1])
  {
    hide CanMove, Over, OnceIn, Init, WaitsForMutex, Next;
    var i := |trace| - 1;
    var s := trace[i];
    forall w | 0 <= w < |s.workers|
      ensures s.workers[w].pc.Idle? && s.exhausted
    {
      NobodyWaits(trace, i, w);
      MovesUnlessWaiting(trace, i, w);
      MoversMove(s, w);
    }
    assert s.workers[0].pc.Idle? && s.exhausted;
    forall b: nat, u: nat | IsUnit(s, b, u)
      ensures OnceIn(s.run, (b, u))
    {
      ExactlyOnce(trace, i, b, u);
    }
  }

  /** Every run can be continued until every unit has been run. */
  lemma {:induction false} Completes(trace: seq<State>) returns (full: seq<State>)
    requires Run(trace) && Inv(trace[|trace| - 1]) && |trace[|trace| - 1].workers| > 0
    requires var s := trace[|trace| - 1]; s.split > 0 && |s.handed| == |s.sizes|
    ensures Run(full) && trace <= full && AllRun(full[|full| - 1])
    decreases Measure(trace[|trace| - 1])
  {
    hide Inv, StepTo, Init, Measure, AllRun, Over;
    var s := trace[|trace| - 1];
    if Over(s) {
      full := trace;
      OverMeansDone(trace);
    } else {
      var w, step, s' := NotOver(s);
      StepShrinks(s, w, step, s');
      SameCrew(s, w, step, s');
      RunOn(trace, s');
      assert (trace + [s'])[|trace|] == s';
      full := Completes(trace + [s']);
    }
  }

  lemma NotOver(s: State) returns (w: nat, step: Step, s': State)
    requires !Over(s)
    ensures StepTo(s, w, step, s') && s' != s
  {
    hide StepTo;
    w, step, s' :| StepTo(s, w, step, s') && s' != s;
  }

  lemma SameCrew(s: State, w: nat, step: Step, s': State)
    requires StepTo(s, w, step, s')
    ensures |s'.workers| == |s.workers|
  {
    hide StepTo;
    StepEffects(s, w, step, s');
  }

  lemma RunOn(trace: seq<State>, s': State)
    requires Run(trace) && Next(trace[|trace| - 1], s')
    ensures Run(trace + [s'])
  {
    var longer := trace + [s'];
    forall i | 0 <= i < |longer| - 1
      ensures Next(longer[i], longer[i + 1])
    {
      assert i < |trace| - 1 ==> Next(trace[i], trace[i + 1]);
    }
  }

  /** From every initial state with a worker some run ends exhausted with every unit run exactly once. */
  lemma SomeRunCompletes(s: State) returns (full: seq<State>)
    requires Init(s) && |s.workers| > 0
    ensures Run(full) && full[0] == s && AllRun(full[|full| - 1])
  {
    InitInv(s);
    full := Completes([s]);
  }

  /** For all buffers, unit sizes and positive numbers of workers there is a scan that runs every unit exactly once. */
  lemma EveryInputScans(sizes: seq<nat>, split: nat, n: nat) returns (full: seq<State>)
    requires split > 0 && n > 0
    ensures Run(full) && full[0].sizes == sizes && full[0].split == split && |full[0].workers| == n
    ensures AllRun(full[|full| - 1])
  {
    hide AllRun;
    var workers := seq(n, _ => Worker(Idle, false, 0, 0, 0, 0, None));
    full := SomeRunCompletes(State(sizes, split, 0, false, workers, map[], map[], seq(|sizes|, _ => 0), []));
  }

  // ----- A failed allocation declares the task exhausted -----

  lemma LookerLooks(s: State, w: nat, step: Step, s': State)
    requires StepTo(s, w, step, s') && s.workers[w].pc.Look?
    ensures step.LookStep?
  {
    hide Start, Own, Fetch, Install, AskPrev, FetchPrev, LookAt, FetchOther, Perform, Around;
  }

  lemma LookingEnds(s: State, w: nat)
    requires CanLook(s, w)
    ensures var s' := LookAt(s, w); w < |s'.workers| && (s'.workers[w].pc.Idle? ==> s'.exhausted)
  {
    hide Around;
  }

  /** In every run: a worker that stops looking without a unit leaves the task exhausted. */
  lemma FailureExhausts(trace: seq<State>, i: nat, w: nat)
    requires Run(trace) && i + 1 < |trace| && w < |trace[i].workers| && w < |trace[i + 1].workers|
    requires trace[i].workers[w].pc.Look? && trace[i + 1].workers[w].pc.Idle?
    ensures trace[i + 1].exhausted
  {
    hide Init, LookAt, Inv;
    var s, s' := trace[i], trace[i + 1];
    assert Next(trace[i], trace[i + 1]);
    var v: nat, step :| StepTo(s, v, step, s');
    assert v == w by { ActorOnly(s, v, step, s', w); }
    LookerLooks(s, w, step, s');
    LookingEnds(s, w);
  }

  lemma ActorOnly(s: State, v: nat, step: Step, s': State, w: nat)
    requires StepTo(s, v, step, s') && w < |s.workers| && w < |s'.workers| && s'.workers[w].pc != s.workers[w].pc
    ensures v == w
  {
    hide StepTo;
    StepEffects(s, v, step, s');
  }

  // ----- In which order a worker steals -----

  predicate HasMore(x: Worker)
  {
    x.cursor < x.unitAmount
  }

  /** fetchAndNext on worker `v`: its next unit and `v` as the worker to ask first next time, or `failed`. */
  predicate Stolen(s: State, s': State, w: nat, v: nat, failed: Pc)
    requires w < |s.workers| == |s'.workers|
  {
    && v < |s.workers| && v != w && s'.workers[v] == s.workers[v].(cursor := s.workers[v].cursor + 1)
    && s'.workers[w].pc ==
      (if HasMore(s.workers[v]) then Reserved(s.workers[v].bufferId, s.workers[v].cursor) else failed)
    && (HasMore(s.workers[v]) ==> s'.workers[w].steal == Some(v))
  }

  /** First the worker stolen from last time, if it has more; then the others in turn; then the end. */
  predicate StealMove(s: State, s': State, w: nat)
    requires w < |s.workers| == |s'.workers|
  {
    var n, x, x' := |s.workers|, s.workers[w], s'.workers[w];
    match x.pc
    case StealPrev =>
      if x.steal.Some? && x.steal.value < n && HasMore(s.workers[x.steal.value])
      then x'.pc == StealPrevFetch(x.steal.value)
      else x'.pc == Look(1) && x'.steal == None
    case StealPrevFetch(v) => Stolen(s, s', w, v, Look(1))
    case Look(i) =>
      if i >= n then x'.pc == Idle && s'.exhausted
      else x'.pc == if HasMore(s.workers[(w + i) % n]) then LookFetch(i) else Look(i + 1)
    case LookFetch(i) => Stolen(s, s', w, (w + i) % n, Look(i + 1))
    case _ => true
  }

  lemma AskPrevMoves(s: State, w: nat)
    requires CanAskPrev(s, w)
    ensures |AskPrev(s, w).workers| == |s.workers| && StealMove(s, AskPrev(s, w), w)
  {
  }

  lemma FetchPrevMoves(s: State, w: nat)
    requires CanFetchPrev(s, w)
    ensures |FetchPrev(s, w).workers| == |s.workers| && StealMove(s, FetchPrev(s, w), w)
  {
  }

  lemma LookMoves(s: State, w: nat)
    requires CanLook(s, w)
    ensures |LookAt(s, w).workers| == |s.workers| && StealMove(s, LookAt(s, w), w)
  {
  }

  lemma FetchOtherMoves(s: State, w: nat)
    requires CanFetchOther(s, w)
    ensures |FetchOther(s, w).workers| == |s.workers| && StealMove(s, FetchOther(s, w), w)
  {
  }

  /** In every run: whenever a worker moves while it looks for work elsewhere, it moves in this order. */
  lemma StealsInOrder(trace: seq<State>, i: nat, w: nat)
    requires Run(trace) && i + 1 < |trace| && w < |trace[i].workers| == |trace[i + 1].workers|
    requires trace[i + 1].workers[w].pc != trace[i].workers[w].pc
    ensures StealMove(trace[i], trace[i + 1], w)
  {
    hide Init, Start, Own, Fetch, Install, AskPrev, FetchPrev, LookAt, FetchOther, Perform, Stolen;
    var s, s' := trace[i], trace[i + 1];
    assert Next(trace[i], trace[i + 1]);
    var v: nat, step :| StepTo(s, v, step, s');
    assert v == w by { ActorOnly(s, v, step, s', w); }
    match step
    case AskPrevStep => AskPrevMoves(s, w);
    case FetchPrevStep => FetchPrevMoves(s, w);
    case LookStep => LookMoves(s, w);
    case FetchOtherStep => FetchOtherMoves(s, w);
    case _ =>
  }
}
