/**
  Exactly-once for the work-stealing scan (src/runtime/Buffer.cpp).
*/
module BufferScanProof {
  import opened Basics
  import opened BufferScan

  // ----- Invariant -----

  /** The units reserved so far are the first `handed[b]` of each buffer `b`. */
  ghost predicate UnitsOk(s: State)
  {
    && s.split > 0 && |s.handed| == |s.sizes|
    && (forall x :: x in s.taker ==> x.0 < |s.sizes| && x.1 < s.handed[x.0])
    && (forall b: nat, u: nat :: b < |s.sizes| && u < s.handed[b] ==> (b, u) in s.taker)
  }

  /** How far buffer `b` is handed out depends on where its holder is. */
  ghost predicate BufferOk(s: State, b: nat, handed: nat)
    requires s.split > 0 && b < |s.sizes|
  {
    if b >= s.startIndex then handed == 0
    else
      && b in s.holder && s.holder[b] < |s.workers|
      && handed == HandedBy(s.workers[s.holder[b]], b, Units(s.sizes[b], s.split))
  }

  ghost function HandedBy(x: Worker, b: nat, units: nat): nat
  {
    if x.pc == OwnInstall(b) then 0
    else if x.installed && x.bufferId == b && x.cursor < x.unitAmount then x.cursor
    else units
  }

  ghost predicate BuffersOk(s: State)
  {
    && s.split > 0 && |s.handed| == |s.sizes|
    && forall b :: 0 <= b < |s.sizes| ==> BufferOk(s, b, s.handed[b])
  }

  /** A worker holds the buffer it works on and the one it is about to switch to. */
  ghost predicate HolderOk(s: State, w: nat, x: Worker)
    requires s.split > 0
  {
    && (x.pc.OwnInstall? ==> Holds(s, w, x.pc.buf))
    && (x.pc.OwnInstall? && x.installed ==> x.bufferId != x.pc.buf)
    && (x.installed ==>
         && Holds(s, w, x.bufferId) && x.cursor >= 1
         && x.unitAmount == UnitAmount(s.sizes[x.bufferId], s.split))
    && (!x.installed ==> x.unitAmount == 0)
    && (Locked(x.pc) ==> x.cursor >= x.unitAmount)
  }

  ghost predicate Holds(s: State, w: nat, b: nat)
  {
    b < s.startIndex && b < |s.sizes| && b in s.holder && s.holder[b] == w
  }

  ghost predicate HoldersOk(s: State)
  {
    s.split > 0 && forall w :: 0 <= w < |s.workers| ==> HolderOk(s, w, s.workers[w])
  }

  /** Nothing is left for anybody in the worker's buffer, and it is not about to switch to a new one. */
  ghost predicate Dry(x: Worker)
  {
    x.cursor >= x.unitAmount && !x.pc.OwnInstall?
  }

  ghost predicate Thief(x: Worker)
  {
    x.steal.Some? || x.pc.StealPrev? || x.pc.StealPrevFetch? || x.pc.Look? || x.pc.LookFetch?
  }

  /** A worker looks elsewhere only when all buffers are drawn and its own is used up; what it saw empty stays empty. */
  ghost predicate ThiefOk(s: State, w: nat, x: Worker)
  {
    && (Thief(x) ==> s.startIndex >= |s.sizes| && Dry(x))
    && (x.steal.Some? ==> x.steal.value < |s.workers| && x.steal.value != w && !s.workers[x.steal.value].pc.OwnInstall?)
    && (x.pc.StealPrevFetch? ==> x.steal == Some(x.pc.v))
    && (x.pc.Look? ==> SeenDry(s.workers, w, x.pc.i))
    && (x.pc.LookFetch? ==> x.pc.i < |s.workers| && SeenDry(s.workers, w, x.pc.i))
  }

  /** The `i - 1` workers after `w`, going round, are dry. */
  ghost predicate SeenDry(ws: seq<Worker>, w: nat, i: nat)
  {
    1 <= i && |ws| > 0 && forall k :: 1 <= k < i ==> Dry(ws[Around(|ws|, w, k)])
  }

  ghost predicate ThievesOk(s: State)
  {
    && (forall w :: 0 <= w < |s.workers| ==> ThiefOk(s, w, s.workers[w]))
    && (s.exhausted ==> s.startIndex >= |s.sizes| && forall w :: 0 <= w < |s.workers| ==> Dry(s.workers[w]))
  }

  /** A reserved unit is run against the buffer it was reserved from. */
  ghost predicate ReservedOk(s: State, w: nat, x: Worker)
  {
    x.pc.Reserved? ==>
      && (x.pc.buf, x.pc.unit) in s.taker && s.taker[(x.pc.buf, x.pc.unit)] == w && (x.pc.buf, x.pc.unit) !in s.run
      && x.resvId == x.pc.unit
      && (x.steal == None ==> x.bufferId == x.pc.buf)
      && (x.steal.Some? && x.steal.value < |s.workers| ==> s.workers[x.steal.value].bufferId == x.pc.buf)
  }

  ghost predicate ReservedsOk(s: State)
  {
    forall w :: 0 <= w < |s.workers| ==> ReservedOk(s, w, s.workers[w])
  }

  /** A unit is run at most once, and a unit reserved but not run yet is in its taker's hands. */
  ghost predicate RunOk(s: State)
  {
    && (forall i, j :: 0 <= i < j < |s.run| ==> s.run[i] != s.run[j])
    && (forall x :: x in s.run ==> x in s.taker)
    && (forall x :: x in s.taker && x !in s.run ==>
         s.taker[x] < |s.workers| && s.workers[s.taker[x]].pc == Reserved(x.0, x.1))
  }

  ghost predicate Inv(s: State)
  {
    UnitsOk(s) && BuffersOk(s) && HoldersOk(s) && ThievesOk(s) && ReservedsOk(s) && RunOk(s)
  }

  ghost predicate HandOutOk(s: State)
  {
    UnitsOk(s) && BuffersOk(s) && HoldersOk(s) && ReservedsOk(s) && RunOk(s)
  }

  // ----- Reserving a unit -----

  lemma UnitsTaken(s: State, w: nat, b: nat)
    requires UnitsOk(s) && b < |s.sizes|
    ensures UnitsOk(Take(s, w, b, s.handed[b]))
  {
  }

  /** The next unit of a buffer with work left is the first one not handed out. */
  lemma NextUnit(s: State, v: nat)
    requires BuffersOk(s) && HoldersOk(s) && v < |s.workers| && s.workers[v].cursor < s.workers[v].unitAmount
    ensures var y := s.workers[v];
      Holds(s, v, y.bufferId) && s.handed[y.bufferId] == y.cursor && !Locked(y.pc) && y.installed
  {
    var y := s.workers[v];
    assert HolderOk(s, v, y);
    assert BufferOk(s, y.bufferId, s.handed[y.bufferId]);
  }

  /** A unit that was not handed out is in nobody's hands and was never run. */
  lemma RunTaken(s: State, w: nat, x: Worker, b: nat)
    requires UnitsOk(s) && ReservedsOk(s) && RunOk(s) && w < |s.workers| && b < |s.sizes|
    requires !s.workers[w].pc.Reserved? && x.pc == Reserved(b, s.handed[b]) && x.resvId == s.handed[b]
    requires x.steal == None ==> x.bufferId == b
    requires x.steal.Some? && x.steal.value < |s.workers| ==>
      x.steal.value != w && s.workers[x.steal.value].bufferId == b
    requires forall v :: 0 <= v < |s.workers| && s.workers[v].steal == Some(w) && s.workers[v].pc.Reserved? ==>
      x.bufferId == s.workers[w].bufferId
    ensures ReservedsOk(Take(Put(s, w, x), w, b, s.handed[b])) && RunOk(Take(Put(s, w, x), w, b, s.handed[b]))
  {
    var s' := Take(Put(s, w, x), w, b, s.handed[b]);
    forall v | 0 <= v < |s'.workers|
      ensures ReservedOk(s', v, s'.workers[v])
    {
      assert ReservedOk(s, v, s.workers[v]);
    }
  }

  // ----- Steps that reserve nothing -----

  /** The worker moved on without touching what is handed out. */
  ghost predicate Moved(s: State, s': State, w: nat, x: Worker)
  {
    && w < |s.workers| && s' == s.(workers := s.workers[w := x], exhausted := s'.exhausted)
    && x == s.workers[w].(pc := x.pc, steal := x.steal)
    && !Locked(x.pc) && !Locked(s.workers[w].pc) && !x.pc.Reserved? && !s.workers[w].pc.Reserved?
  }

  lemma MovedBuffers(s: State, s': State, w: nat, x: Worker)
    requires UnitsOk(s) && BuffersOk(s) && HoldersOk(s) && Moved(s, s', w, x)
    ensures UnitsOk(s') && BuffersOk(s') && HoldersOk(s')
  {
    forall v | 0 <= v < |s'.workers|
      ensures HolderOk(s', v, s'.workers[v])
    {
      assert HolderOk(s, v, s.workers[v]);
    }
  }

  lemma MovedRun(s: State, s': State, w: nat, x: Worker)
    requires ReservedsOk(s) && RunOk(s) && Moved(s, s', w, x)
    ensures ReservedsOk(s') && RunOk(s')
  {
    forall v | 0 <= v < |s'.workers|
      ensures ReservedOk(s', v, s'.workers[v])
    {
      assert ReservedOk(s, v, s.workers[v]);
    }
  }

  lemma MovedKeeps(s: State, w: nat, step: Step, s': State)
    requires HandOutOk(s) && StepTo(s, w, step, s') && (step.StartStep? || step.AskPrevStep? || step.LookStep?)
    ensures HandOutOk(s')
  {
    hide UnitsOk, BuffersOk, HoldersOk, ReservedsOk, RunOk;
    if s' != s {
      MovedOn(s, w, step, s');
      hide StepTo, Moved;
      MovedBuffers(s, s', w, s'.workers[w]);
      MovedRun(s, s', w, s'.workers[w]);
    }
  }

  lemma MovedOn(s: State, w: nat, step: Step, s': State)
    requires StepTo(s, w, step, s') && s' != s && (step.StartStep? || step.AskPrevStep? || step.LookStep?)
    ensures w < |s.workers| == |s'.workers| && Moved(s, s', w, s'.workers[w])
  {
    hide Around;
  }

  lemma FetchBuffers(s: State, w: nat)
    requires UnitsOk(s) && BuffersOk(s) && CanFetch(s, w)
    ensures UnitsOk(Fetch(s, w)) && BuffersOk(Fetch(s, w))
  {
  }

  lemma FetchHolders(s: State, w: nat)
    requires HoldersOk(s) && CanFetch(s, w)
    ensures HoldersOk(Fetch(s, w))
  {
  }

  lemma FetchRun(s: State, w: nat)
    requires ReservedsOk(s) && RunOk(s) && CanFetch(s, w)
    ensures ReservedsOk(Fetch(s, w)) && RunOk(Fetch(s, w))
  {
  }

  /** performWork runs the unit that was reserved: the unlocked read of `bufferId` finds the reserved buffer. */
  lemma PerformsReserved(s: State, w: nat)
    requires ReservedsOk(s) && CanPerform(s, w)
    ensures RunsOn(s, w) == s.workers[w].pc.buf && s.workers[w].resvId == s.workers[w].pc.unit
  {
    assert ReservedOk(s, w, s.workers[w]);
  }

  lemma PerformBuffers(s: State, w: nat)
    requires UnitsOk(s) && BuffersOk(s) && HoldersOk(s) && CanPerform(s, w)
    ensures UnitsOk(Perform(s, w)) && BuffersOk(Perform(s, w)) && HoldersOk(Perform(s, w))
  {
  }

  lemma PerformRun(s: State, w: nat)
    requires ReservedsOk(s) && RunOk(s) && CanPerform(s, w)
    ensures ReservedsOk(Perform(s, w)) && RunOk(Perform(s, w))
  {
    PerformsReserved(s, w);
    var s' := Perform(s, w);
    var unit := (s.workers[w].pc.buf, s.workers[w].pc.unit);
    assert s'.run == s.run + [unit];
    assert ReservedOk(s, w, s.workers[w]);
    forall v | 0 <= v < |s'.workers|
      ensures ReservedOk(s', v, s'.workers[v])
    {
      assert ReservedOk(s, v, s.workers[v]);
    }
  }

  // ----- Steps that reserve a unit -----

  lemma OwnBuffers(s: State, w: nat)
    requires BuffersOk(s) && HoldersOk(s) && CanOwn(s, w)
    ensures BuffersOk(Own(s, w))
  {
    var s', x := Own(s, w), s.workers[w];
    if x.cursor < x.unitAmount {
      NextUnit(s, w);
      NoUnitsInEmpty(s.split);
    }
    hide UnitAmount;
    assert HolderOk(s, w, x);
    forall b | 0 <= b < |s'.sizes|
      ensures BufferOk(s', b, s'.handed[b])
    {
      assert BufferOk(s, b, s.handed[b]);
    }
  }

  lemma NoUnitsInEmpty(split: nat)
    requires split > 0
    ensures UnitAmount(0, split) == 0
  {
  }

  lemma OwnHolders(s: State, w: nat)
    requires HoldersOk(s) && CanOwn(s, w)
    ensures HoldersOk(Own(s, w))
  {
  }

  lemma OwnRun(s: State, w: nat)
    requires HandOutOk(s) && ThievesOk(s) && CanOwn(s, w)
    ensures UnitsOk(Own(s, w)) && ReservedsOk(Own(s, w)) && RunOk(Own(s, w))
  {
    hide UnitsOk, BuffersOk, HoldersOk, ReservedsOk, RunOk;
    var x := s.workers[w];
    if x.cursor < x.unitAmount {
      assert ThiefOk(s, w, x);
      NextUnit(s, w);
      UnitsTaken(s, w, x.bufferId);
      assert UnitsOk(Own(s, w)) by { PutUnits(Take(s, w, x.bufferId, x.cursor), w, Own(s, w).workers[w]); }
      RunTaken(s, w, Own(s, w).workers[w], x.bufferId);
    } else {
      OwnFailsRun(s, w);
    }
  }

  lemma PutUnits(s: State, w: nat, x: Worker)
    requires UnitsOk(s) && w < |s.workers|
    ensures UnitsOk(Put(s, w, x))
  {
  }

  lemma OwnFailsRun(s: State, w: nat)
    requires UnitsOk(s) && ReservedsOk(s) && RunOk(s) && CanOwn(s, w) && s.workers[w].cursor >= s.workers[w].unitAmount
    ensures UnitsOk(Own(s, w)) && ReservedsOk(Own(s, w)) && RunOk(Own(s, w))
  {
    var s' := Own(s, w);
    forall v | 0 <= v < |s'.workers|
      ensures ReservedOk(s', v, s'.workers[v])
    {
      assert ReservedOk(s, v, s.workers[v]);
    }
  }

  lemma InstallBuffers(s: State, w: nat)
    requires BuffersOk(s) && HoldersOk(s) && CanInstall(s, w)
    ensures BuffersOk(Install(s, w)) && HoldersOk(Install(s, w))
    ensures s.handed[s.workers[w].pc.buf] == 0
  {
    assert HolderOk(s, w, s.workers[w]);
    assert BufferOk(s, s.workers[w].pc.buf, s.handed[s.workers[w].pc.buf]);
  }

  /** Nobody steals from a worker that is about to switch buffers, so no reserved unit changes its buffer. */
  lemma InstallRun(s: State, w: nat)
    requires HandOutOk(s) && ThievesOk(s) && CanInstall(s, w)
    ensures UnitsOk(Install(s, w)) && ReservedsOk(Install(s, w)) && RunOk(Install(s, w))
  {
    hide UnitsOk, BuffersOk, HoldersOk, ReservedsOk, RunOk;
    var x, b := s.workers[w], s.workers[w].pc.buf;
    assert forall v :: 0 <= v < |s.workers| ==> ThiefOk(s, v, s.workers[v]);
    InstallBuffers(s, w);
    assert |s.handed| == |s.sizes| by { assert BuffersOk(s); }
    UnitsTaken(s, w, b);
    PutUnits(Take(s, w, b, 0), w, Install(s, w).workers[w]);
    RunTaken(s, w, Install(s, w).workers[w], b);
  }

  ghost predicate CanSteal(s: State, w: nat, v: nat, failed: Worker)
  {
    && w < |s.workers| && v < |s.workers| && v != w
    && !Locked(s.workers[v].pc) && !Locked(s.workers[w].pc) && !s.workers[w].pc.Reserved?
    && failed == s.workers[w].(pc := failed.pc, steal := failed.steal) && !Locked(failed.pc) && !failed.pc.Reserved?
  }

  /** Replacing a worker by one that is as far in the same buffer. */
  lemma PutBuffers(s: State, w: nat, x: Worker)
    requires BuffersOk(s) && w < |s.workers| && !x.pc.OwnInstall? && !s.workers[w].pc.OwnInstall?
    requires var y := s.workers[w];
      x.installed == y.installed && x.bufferId == y.bufferId && x.cursor == y.cursor && x.unitAmount == y.unitAmount
    ensures BuffersOk(Put(s, w, x))
  {
  }

  lemma BumpBuffers(s: State, w: nat, v: nat)
    requires BuffersOk(s) && HoldersOk(s) && v < |s.workers| && !Locked(s.workers[v].pc)
    ensures var y := s.workers[v];
      var bumped := Put(s, v, y.(cursor := y.cursor + 1));
      BuffersOk(if y.cursor < y.unitAmount then Take(bumped, w, y.bufferId, y.cursor) else bumped)
  {
    if s.workers[v].cursor < s.workers[v].unitAmount {
      NextUnit(s, v);
    }
  }

  lemma StealBuffers(s: State, w: nat, v: nat, failed: Worker)
    requires BuffersOk(s) && HoldersOk(s) && CanSteal(s, w, v, failed)
    ensures BuffersOk(StealFrom(s, w, v, failed))
  {
    hide BuffersOk, HoldersOk;
    var y, s' := s.workers[v], StealFrom(s, w, v, failed);
    var bumped := Put(s, v, y.(cursor := y.cursor + 1));
    BumpBuffers(s, w, v);
    PutBuffers(if y.cursor < y.unitAmount then Take(bumped, w, y.bufferId, y.cursor) else bumped, w, s'.workers[w]);
  }

  /** Whether a worker's buffer is its own does not depend on the units taken. */
  lemma HolderFrame(s: State, s': State, u: nat, x: Worker, y: Worker)
    requires s.split == s'.split > 0 && s'.sizes == s.sizes && s'.startIndex == s.startIndex && s'.holder == s.holder
    requires HolderOk(s, u, x) && !y.pc.OwnInstall? && y.installed == x.installed && y.bufferId == x.bufferId
    requires y.unitAmount == x.unitAmount && y.cursor >= x.cursor && (Locked(y.pc) ==> Locked(x.pc))
    ensures HolderOk(s', u, y)
  {
    hide UnitAmount;
  }

  lemma StealHolders(s: State, w: nat, v: nat, failed: Worker)
    requires HoldersOk(s) && CanSteal(s, w, v, failed)
    ensures HoldersOk(StealFrom(s, w, v, failed))
  {
    hide HolderOk, UnitAmount;
    var s' := StealFrom(s, w, v, failed);
    forall u | 0 <= u < |s'.workers|
      ensures HolderOk(s', u, s'.workers[u])
    {
      assert HolderOk(s, u, s.workers[u]);
      if u == w || u == v {
        HolderFrame(s, s', u, s.workers[u], s'.workers[u]);
      } else {
        HolderSame(s, s', u, s.workers[u]);
      }
    }
  }

  lemma HolderSame(s: State, s': State, u: nat, x: Worker)
    requires s.split == s'.split > 0 && s'.sizes == s.sizes && s'.startIndex == s.startIndex && s'.holder == s.holder
    requires HolderOk(s, u, x)
    ensures HolderOk(s', u, x)
  {
    hide UnitAmount;
  }

  lemma BumpRun(s: State, v: nat)
    requires UnitsOk(s) && ReservedsOk(s) && RunOk(s) && v < |s.workers|
    ensures var s' := Put(s, v, s.workers[v].(cursor := s.workers[v].cursor + 1));
      UnitsOk(s') && ReservedsOk(s') && RunOk(s')
  {
    var s' := Put(s, v, s.workers[v].(cursor := s.workers[v].cursor + 1));
    forall u | 0 <= u < |s'.workers|
      ensures ReservedOk(s', u, s'.workers[u])
    {
      assert ReservedOk(s, u, s.workers[u]);
    }
  }

  lemma StealRun(s: State, w: nat, v: nat, failed: Worker)
    requires HandOutOk(s) && CanSteal(s, w, v, failed)
    ensures var s' := StealFrom(s, w, v, failed); UnitsOk(s') && ReservedsOk(s') && RunOk(s')
  {
    hide UnitsOk, BuffersOk, HoldersOk, ReservedsOk, RunOk;
    var y, s' := s.workers[v], StealFrom(s, w, v, failed);
    var bumped := Put(s, v, y.(cursor := y.cursor + 1));
    BumpRun(s, v);
    if y.cursor < y.unitAmount {
      NextUnit(s, v);
      UnitsTaken(bumped, w, y.bufferId);
      PutUnits(Take(bumped, w, y.bufferId, y.cursor), w, s'.workers[w]);
      RunTaken(bumped, w, s'.workers[w], y.bufferId);
    } else {
      PutUnits(bumped, w, failed);
      MovedRun(bumped, s', w, failed);
    }
  }

  lemma HandOutKept(s: State, w: nat, step: Step, s': State)
    requires HandOutOk(s) && ThievesOk(s) && StepTo(s, w, step, s')
    ensures HandOutOk(s')
  {
    hide UnitsOk, BuffersOk, HoldersOk, ReservedsOk, RunOk, StealFrom;
    match step
    case StartStep => MovedKeeps(s, w, step, s');
    case AskPrevStep => MovedKeeps(s, w, step, s');
    case LookStep => MovedKeeps(s, w, step, s');
    case OwnStep => OwnBuffers(s, w); OwnHolders(s, w); OwnRun(s, w);
    case FetchStep => FetchBuffers(s, w); FetchHolders(s, w); FetchRun(s, w);
    case InstallStep => InstallBuffers(s, w); InstallRun(s, w);
    case PerformStep => PerformBuffers(s, w); PerformRun(s, w);
    case FetchPrevStep =>
      var v, failed := s.workers[w].pc.v, s.workers[w].(pc := Look(1), steal := None);
      StealBuffers(s, w, v, failed); StealHolders(s, w, v, failed); StealRun(s, w, v, failed);
    case FetchOtherStep =>
      var i := s.workers[w].pc.i;
      var v, failed := Around(|s.workers|, w, i), s.workers[w].(pc := Look(i + 1));
      StealBuffers(s, w, v, failed); StealHolders(s, w, v, failed); StealRun(s, w, v, failed);
  }

  // ----- Stealing and exhaustion -----

  /** A step by another worker leaves a worker alone, or takes a unit from it while its mutex is free. */
  ghost predicate Bumped(x: Worker, y: Worker)
  {
    y == x || (y == x.(cursor := x.cursor + 1) && !Locked(x.pc))
  }

  ghost predicate Effects(s: State, w: nat, s': State)
  {
    && |s'.workers| == |s.workers| && s'.sizes == s.sizes && s'.startIndex >= s.startIndex && w < |s.workers|
    && (forall v :: 0 <= v < |s.workers| && v != w ==> Bumped(s.workers[v], s'.workers[v]))
    && (s.startIndex >= |s.sizes| && Dry(s.workers[w]) ==> Dry(s'.workers[w]))
    && (s'.workers[w].pc.OwnInstall? ==> s.startIndex < |s.sizes|)
  }

  lemma EffectsOwn(s: State, w: nat)
    ensures CanStart(s, w) ==> Effects(s, w, Start(s, w))
    ensures CanOwn(s, w) ==> Effects(s, w, Own(s, w))
    ensures CanFetch(s, w) ==> Effects(s, w, Fetch(s, w))
    ensures CanInstall(s, w) ==> Effects(s, w, Install(s, w))
  {
    hide UnitAmount;
  }

  lemma EffectsLook(s: State, w: nat)
    ensures CanAskPrev(s, w) ==> Effects(s, w, AskPrev(s, w))
    ensures CanLook(s, w) ==> Effects(s, w, LookAt(s, w))
    ensures CanPerform(s, w) ==> Effects(s, w, Perform(s, w))
  {
    hide Around;
  }

  lemma EffectsSteal(s: State, w: nat, v: nat, failed: Worker)
    requires w < |s.workers| && v < |s.workers| && v != w && !Locked(s.workers[v].pc)
    requires failed == s.workers[w].(pc := failed.pc, steal := failed.steal) && !failed.pc.OwnInstall?
    ensures Effects(s, w, StealFrom(s, w, v, failed))
  {
  }

  lemma StepEffects(s: State, w: nat, step: Step, s': State)
    requires StepTo(s, w, step, s')
    ensures Effects(s, w, s')
  {
    hide Effects, Start, Own, Fetch, Install, AskPrev, LookAt, Perform, StealFrom, Around;
    match step
    case FetchPrevStep => EffectsSteal(s, w, s.workers[w].pc.v, s.workers[w].(pc := Look(1), steal := None));
    case FetchOtherStep =>
      var i := s.workers[w].pc.i;
      EffectsSteal(s, w, Around(|s.workers|, w, i), s.workers[w].(pc := Look(i + 1)));
    case _ => EffectsOwn(s, w); EffectsLook(s, w);
  }

  /** Once all buffers are drawn, a dry worker stays dry. */
  lemma DryKept(s: State, w: nat, s': State)
    requires Effects(s, w, s') && s.startIndex >= |s.sizes|
    ensures forall v :: 0 <= v < |s.workers| && Dry(s.workers[v]) ==> Dry(s'.workers[v])
  {
  }

  lemma SeenDryKept(ws: seq<Worker>, ws': seq<Worker>, w: nat, i: nat)
    requires |ws'| == |ws| && SeenDry(ws, w, i)
    requires forall v :: 0 <= v < |ws| && Dry(ws[v]) ==> Dry(ws'[v])
    ensures SeenDry(ws', w, i)
  {
    assert forall k :: 1 <= k < i ==> Around(|ws'|, w, k) == Around(|ws|, w, k);
  }

  /** Having gone round, the worker has seen everybody. */
  lemma SeenAll(ws: seq<Worker>, w: nat, i: nat, v: nat)
    requires SeenDry(ws, w, i) && i >= |ws| && w < |ws| && Dry(ws[w]) && v < |ws|
    ensures Dry(ws[v])
  {
    var n := |ws|;
    if v != w {
      var k := if v > w then v - w else v + n - w;
      AroundHits(n, w, k, v);
      assert Dry(ws[Around(n, w, k)]);
    }
  }

  lemma AroundHits(n: nat, w: nat, k: nat, v: nat)
    requires 0 < n && w < n && v < n && (w + k == v || w + k == v + n)
    ensures Around(n, w, k) == v
  {
  }

  lemma AroundOther(n: nat, w: nat, k: nat)
    requires w < n && 1 <= k < n
    ensures Around(n, w, k) != w
  {
    AroundHits(n, w, k, if w + k < n then w + k else w + k - n);
  }

  lemma ThiefKept(s: State, w: nat, s': State, v: nat)
    requires ThievesOk(s) && Effects(s, w, s') && v < |s.workers| && v != w
    ensures ThiefOk(s', v, s'.workers[v])
  {
    hide SeenDry;
    assert ThiefOk(s, v, s.workers[v]) && Bumped(s.workers[v], s'.workers[v]);
    if Thief(s.workers[v]) {
      DryKept(s, w, s');
      if s.workers[v].pc.Look? || s.workers[v].pc.LookFetch? {
        SeenDryKept(s.workers, s'.workers, v, s.workers[v].pc.i);
      }
    }
  }

  /** The worker that took the step. */
  lemma ThiefMoved(s: State, w: nat, step: Step, s': State)
    requires ThievesOk(s) && HoldersOk(s) && Effects(s, w, s') && StepTo(s, w, step, s')
    requires !step.FetchPrevStep? && !step.FetchOtherStep? && !step.LookStep?
    ensures ThiefOk(s', w, s'.workers[w])
  {
    hide UnitAmount, Around;
    assert ThiefOk(s, w, s.workers[w]) && HolderOk(s, w, s.workers[w]);
  }

  lemma ThiefLooked(s: State, w: nat, s': State)
    requires ThievesOk(s) && StepTo(s, w, LookStep, s')
    ensures ThiefOk(s', w, s'.workers[w])
  {
    hide Around;
    var i := s.workers[w].pc.i;
    assert ThiefOk(s, w, s.workers[w]);
    assert SeenDry(s.workers, w, i);
    SeenDryKept(s.workers, s'.workers, w, i);
  }

  lemma ThiefStole(s: State, w: nat, step: Step, s': State)
    requires ThievesOk(s) && Effects(s, w, s') && StepTo(s, w, step, s')
      && (step.FetchPrevStep? || step.FetchOtherStep?)
    ensures ThiefOk(s', w, s'.workers[w])
  {
    hide Around;
    assert ThiefOk(s, w, s.workers[w]);
    if step.FetchOtherStep? {
      DryKept(s, w, s');
      SeenDryKept(s.workers, s'.workers, w, s.workers[w].pc.i);
    }
  }

  /** The task is declared exhausted only after a full round of dry workers. */
  lemma ExhaustedKept(s: State, w: nat, step: Step, s': State)
    requires ThievesOk(s) && Effects(s, w, s') && StepTo(s, w, step, s') && s'.exhausted
    ensures s'.startIndex >= |s'.sizes| && forall v :: 0 <= v < |s'.workers| ==> Dry(s'.workers[v])
  {
    hide Around, SeenDry, UnitAmount;
    assert ThiefOk(s, w, s.workers[w]);
    forall v | 0 <= v < |s'.workers|
      ensures Dry(s'.workers[v])
    {
      if !s.exhausted {
        SeenAll(s.workers, w, s.workers[w].pc.i, v);
      }
      DryKept(s, w, s');
    }
  }

  lemma ThievesKept(s: State, w: nat, step: Step, s': State)
    requires ThievesOk(s) && HoldersOk(s) && StepTo(s, w, step, s')
    ensures ThievesOk(s')
  {
    hide HoldersOk, ThiefOk, Effects, Dry, Around;
    StepEffects(s, w, step, s');
    if s'.exhausted {
      ExhaustedKept(s, w, step, s');
    }
    forall v | 0 <= v < |s'.workers|
      ensures ThiefOk(s', v, s'.workers[v])
    {
      if v != w {
        SameSize(s, w, s');
        ThiefKept(s, w, s', v);
      } else if step.LookStep? {
        ThiefLooked(s, w, s');
      } else if step.FetchPrevStep? || step.FetchOtherStep? {
        ThiefStole(s, w, step, s');
      } else {
        ThiefMoved(s, w, step, s');
      }
    }
  }

  lemma SameSize(s: State, w: nat, s': State)
    requires Effects(s, w, s')
    ensures |s'.workers| == |s.workers|
  {
  }

  // ----- Every run -----

  lemma InitInv(s: State)
    requires Init(s)
    ensures Inv(s)
  {
  }

  lemma StepKeepsInv(s: State, w: nat, step: Step, s': State)
    requires Inv(s) && StepTo(s, w, step, s')
    ensures Inv(s')
  {
    hide UnitsOk, BuffersOk, HoldersOk, ReservedsOk, RunOk, ThievesOk, StepTo;
    HandOutKept(s, w, step, s');
    ThievesKept(s, w, step, s');
  }

  lemma {:induction false} RunInv(trace: seq<State>, i: nat)
    requires Run(trace) && i < |trace|
    ensures Inv(trace[i])
  {
    hide Inv, StepTo, Init;
    if i == 0 {
      InitInv(trace[0]);
    } else {
      RunInv(trace, i - 1);
      assert Next(trace[i - 1], trace[i - 1 + 1]);
      var w: nat, step :| StepTo(trace[i - 1], w, step, trace[i]);
      StepKeepsInv(trace[i - 1], w, step, trace[i]);
    }
  }

  ghost predicate IsUnit(s: State, b: nat, u: nat)
  {
    s.split > 0 && b < |s.sizes| && u < Units(s.sizes[b], s.split)
  }

  lemma HandedBound(s: State, b: nat)
    requires BuffersOk(s) && HoldersOk(s) && b < |s.sizes|
    ensures s.handed[b] <= Units(s.sizes[b], s.split)
  {
    assert BufferOk(s, b, s.handed[b]);
    if b < s.startIndex {
      assert HolderOk(s, s.holder[b], s.workers[s.holder[b]]);
    }
  }

  /** In every run: a unit is run at most once, and only units of some buffer are run. */
  lemma RunAtMostOnce(trace: seq<State>, i: nat)
    requires Run(trace) && i < |trace|
    ensures forall j, k :: 0 <= j < k < |trace[i].run| ==> trace[i].run[j] != trace[i].run[k]
    ensures forall x :: x in trace[i].run ==> IsUnit(trace[i], x.0, x.1)
  {
    hide Init, ThievesOk, ReservedsOk;
    var s := trace[i];
    RunInv(trace, i);
    forall x | x in s.run
      ensures IsUnit(s, x.0, x.1)
    {
      HandedBound(s, x.0);
    }
  }

  /** In every run: a stolen unit is run against the buffer it was reserved from. */
  lemma StolenUnitKeepsBuffer(trace: seq<State>, i: nat, w: nat)
    requires Run(trace) && i < |trace| && CanPerform(trace[i], w)
    ensures Perform(trace[i], w).run == trace[i].run + [(trace[i].workers[w].pc.buf, trace[i].workers[w].pc.unit)]
  {
    hide Init;
    RunInv(trace, i);
    PerformsReserved(trace[i], w);
  }

  /** In every run: `workExhausted` is set only when no unit is left to reserve. */
  lemma ExhaustedOnlyWhenDone(trace: seq<State>, i: nat, b: nat, u: nat)
    requires Run(trace) && i < |trace| && trace[i].exhausted && IsUnit(trace[i], b, u)
    ensures (b, u) in trace[i].taker
  {
    hide Init, ReservedsOk, RunOk;
    var s := trace[i];
    RunInv(trace, i);
    assert BufferOk(s, b, s.handed[b]);
    assert HolderOk(s, s.holder[b], s.workers[s.holder[b]]);
    assert Dry(s.workers[s.holder[b]]);
  }

  /**
    In every run: once the task is exhausted and the last reserved unit was performed, every
    unit has been run, exactly once.
  */
  lemma ExactlyOnce(trace: seq<State>, i: nat, b: nat, u: nat)
    requires Run(trace) && i < |trace| && trace[i].exhausted && IsUnit(trace[i], b, u)
    requires forall w :: 0 <= w < |trace[i].workers| ==> !trace[i].workers[w].pc.Reserved?
    ensures OnceIn(trace[i].run, (b, u))
  {
    hide Init, UnitsOk, BuffersOk, HoldersOk, ThievesOk, ReservedsOk;
    var s := trace[i];
    RunInv(trace, i);
    ExhaustedOnlyWhenDone(trace, i, b, u);
    assert (b, u) in s.run;
    var k :| 0 <= k < |s.run| && s.run[k] == (b, u);
  }

  /** The unit `x` covers element `e` of buffer `b`. */
  ghost predicate Covers(s: State, x: (nat, nat), b: nat, e: nat)
  {
    x.0 == b && b < |s.sizes| && UnitBegin(s.split, x.1) <= e < UnitEnd(s.sizes[b], s.split, x.1)
  }

  ghost predicate CoveredOnce(s: State, b: nat, e: nat)
  {
    exists k :: 0 <= k < |s.run| && Covers(s, s.run[k], b, e)
      && (forall j :: 0 <= j < |s.run| && Covers(s, s.run[j], b, e) ==> j == k)
  }

  /** In every run: at the end every element of every buffer has been visited exactly once. */
  lemma ElementsVisitedOnce(trace: seq<State>, i: nat, b: nat, e: nat)
    requires Run(trace) && i < |trace| && trace[i].exhausted && b < |trace[i].sizes| && e < trace[i].sizes[b]
    requires forall w :: 0 <= w < |trace[i].workers| ==> !trace[i].workers[w].pc.Reserved?
    ensures CoveredOnce(trace[i], b, e)
  {
    hide Run, UnitAmount, Units, Inv, OnceIn, CoveredOnce;
    var s := trace[i];
    RunInv(trace, i);
    SplitPositive(s);
    UnitFor(s.sizes[b], s.split, e);
    ExactlyOnce(trace, i, b, e / s.split);
    RunAtMostOnce(trace, i);
    UnitCoversOnce(s, b, e);
  }

  lemma SplitPositive(s: State)
    requires Inv(s)
    ensures s.split > 0
  {
  }

  lemma UnitCoversOnce(s: State, b: nat, e: nat)
    requires s.split > 0 && b < |s.sizes| && e < s.sizes[b] && e / s.split < Units(s.sizes[b], s.split)
    requires OnceIn(s.run, (b, e / s.split)) && forall x :: x in s.run ==> IsUnit(s, x.0, x.1)
    ensures CoveredOnce(s, b, e)
  {
    hide UnitAmount, UnitBegin, UnitEnd, Units;
    var u := e / s.split;
    var k :| 0 <= k < |s.run| && s.run[k] == (b, u) && (forall j :: 0 <= j < |s.run| && s.run[j] == (b, u) ==> j == k);
    UnitsTile(s.sizes[b], s.split, e, u);
    forall j | 0 <= j < |s.run| && Covers(s, s.run[j], b, e)
      ensures j == k
    {
      assert s.run[j] in s.run;
      UnitsTile(s.sizes[b], s.split, e, s.run[j].1);
    }
  }

  lemma UnitFor(size: nat, split: nat, e: nat)
    requires split > 0 && e < size
    ensures e / split < Units(size, split)
  {
    UnitAmountBounds(size, split);
    UnitsTile(size, split, e, 0);
  }

  // ----- The steps' guards never block -----

  /** What the guards of the steps ask for beyond the source's own conditions. */
  ghost predicate GuardsHold(s: State, w: nat, x: Worker)
  {
    && s.split > 0
    && (x.pc.OwnInstall? ==> x.pc.buf < |s.sizes|)
    && (x.steal.Some? ==> x.steal.value < |s.workers|)
    && (x.pc.StealPrevFetch? ==> x.pc.v < |s.workers| && x.pc.v != w)
    && (x.pc.LookFetch? ==> |s.workers| > 0 && Around(|s.workers|, w, x.pc.i) != w)
  }

  lemma GuardsNeverBlock(trace: seq<State>, i: nat, w: nat)
    requires Run(trace) && i < |trace| && w < |trace[i].workers|
    ensures GuardsHold(trace[i], w, trace[i].workers[w])
  {
    hide Init, UnitsOk, BuffersOk, ReservedsOk, RunOk;
    var s, x := trace[i], trace[i].workers[w];
    RunInv(trace, i);
    assert HolderOk(s, w, x) && ThiefOk(s, w, x);
    if x.pc.LookFetch? {
      AroundOther(|s.workers|, w, x.pc.i);
    }
  }

  /** Worker `w` has a step. */
  ghost predicate CanMove(s: State, w: nat)
  {
    || CanStart(s, w) || CanOwn(s, w) || CanFetch(s, w) || CanInstall(s, w) || CanAskPrev(s, w)
    || CanFetchPrev(s, w) || CanLook(s, w) || CanFetchOther(s, w) || CanPerform(s, w)
  }

  /** The only way to wait: the worker to be asked holds its own mutex. */
  ghost predicate WaitsForMutex(s: State, w: nat)
    requires w < |s.workers|
  {
    var x, n := s.workers[w], |s.workers|;
    || (x.pc.StealPrev? && x.steal.Some? && x.steal.value < n && Locked(s.workers[x.steal.value].pc))
    || (x.pc.StealPrevFetch? && x.pc.v < n && Locked(s.workers[x.pc.v].pc))
    || (x.pc.Look? && x.pc.i < n && Locked(s.workers[Around(n, w, x.pc.i)].pc))
    || (x.pc.LookFetch? && Locked(s.workers[Around(n, w, x.pc.i)].pc))
  }

  /** In every run: a worker that does not wait for a mutex has a step. */
  lemma MovesUnlessWaiting(trace: seq<State>, i: nat, w: nat)
    requires Run(trace) && i < |trace| && w < |trace[i].workers| && !WaitsForMutex(trace[i], w)
    ensures CanMove(trace[i], w)
  {
    hide Run;
    GuardsNeverBlock(trace, i, w);
  }

  lemma HolderDoesNotWait(s: State, v: nat)
    requires v < |s.workers| && Locked(s.workers[v].pc)
    ensures !WaitsForMutex(s, v)
  {
  }

  /** In every run: the scan never deadlocks, since the holder of a mutex does not wait. */
  lemma NeverDeadlocked(trace: seq<State>, i: nat)
    requires Run(trace) && i < |trace| && |trace[i].workers| > 0
    ensures exists v :: 0 <= v < |trace[i].workers| && CanMove(trace[i], v)
  {
    hide Run, CanMove;
    var s := trace[i];
    if WaitsForMutex(s, 0) {
      var v: nat :| v < |s.workers| && Locked(s.workers[v].pc);
      HolderDoesNotWait(s, v);
      MovesUnlessWaiting(trace, i, v);
    } else {
      MovesUnlessWaiting(trace, i, 0);
    }
  }
}
