/** Why a call of the blocking queue returns what it returns: every result names its
    cause, and every result that a call may return it can return
    (src/arch/posix/lsp_queue.c). */
module QueueCauses {
  import opened LspTypes
  import opened Ring
  import opened QueueMonitor
  import opened QueueFifo
  import opened QueueRuns

  // ---------------------------------------------------------------- every result names its cause

  /** What befell a thread's latest call: did its lock fail, did its wait end by a
      timeout or by an error, and did its latest look find the way barred? */
  datatype Fate = Fate(lockFailed: bool, timedOut: bool, waitFailed: bool, barred: Option<bool>)

  const NOTHING_YET := Fate(false, false, false, None)

  /** Between the increment and the decrement of a waiter counter. */
  predicate Waiting(pc: Pc) {
    (pc.Announced? || pc.Parked? || pc.Woken?) && !pc.op.Clear?
  }

  /** Is there no room, no item, or somebody that clear must not disturb? */
  ghost predicate Barred(s: State, op: Op) {
    match op
    case Push(_) => !(0 <= s.ring.length < |s.ring.slots|)
    case Pop => s.ring.length <= 0
    case Clear => exists w: Tid :: Waiting(s.At(w))
  }

  /** Does this event look? Clear looks before it locks or after, by the variant. */
  predicate Looks(v: Variant, s: State, e: Event) {
    e.Precheck? || (e.Check? && s.At(e.t).Checking? && (s.At(e.t).op.Clear? ==> v.clearChecksLocked))
  }

  ghost function FateAfter(v: Variant, f: Fate, s: State, e: Event, t: Tid): Fate {
    if e.t != t then f
    else if e.Call? then NOTHING_YET
    else if e.LockFail? then f.(lockFailed := true)
    else if e.TimeOut? then f.(timedOut := true)
    else if e.WaitError? then f.(waitFailed := true)
    else if e.Precheck? then f.(barred := Some(Barred(s, Clear)))
    else if Looks(v, s, e) then f.(barred := Some(Barred(s, s.At(t).op)))
    else f
  }

  ghost function FateOf(v: Variant, init: State, es: seq<Event>, t: Tid): Fate
    requires Exec(v, init, es).Some?
  {
    if es == [] then NOTHING_YET
    else FateAfter(v, FateOf(v, init, es[..|es| - 1], t), Exec(v, init, es[..|es| - 1]).value, es[|es| - 1], t)
  }

  /** A result, each way round. LSP_ERR_INVALID and LSP_ERR_RESOURCE_IN_USE are one number. */
  predicate Named(op: Op, wait: Wait, f: Fate, rc: int) {
    match op
    case Push(_) =>
      && (rc == LSP_ERR_MUTEX <==> f.lockFailed)
      && (rc == LSP_ERR_QUEUE_FULL <==> wait.NoWait? && f.barred == Some(true))
      && (rc == LSP_ERR_TIMEOUT <==> f.timedOut)
      && (rc == LSP_ERR_INVALID <==> f.waitFailed)
      && (rc == LSP_ERR_NONE <==>
            !f.lockFailed && !f.timedOut && !f.waitFailed && !(wait.NoWait? && f.barred == Some(true)))
    case Pop =>
      && (rc == LSP_ERR_MUTEX <==> f.lockFailed)
      && (rc == LSP_ERR_QUEUE_EMPTY <==> wait.NoWait? && f.barred == Some(true))
      && (rc == LSP_ERR_TIMEOUT <==> f.timedOut)
      && (rc == LSP_ERR_INVALID <==> f.waitFailed)
      && (rc == LSP_ERR_NONE <==>
            !f.lockFailed && !f.timedOut && !f.waitFailed && !(wait.NoWait? && f.barred == Some(true)))
    case Clear =>
      && (rc == LSP_ERR_RESOURCE_IN_USE <==> f.barred == Some(true))
      && (rc == LSP_ERR_NONE <==> f.barred == Some(false))
  }

  predicate OnCourse(v: Variant, pc: Pc, d: Duty, f: Fate) {
    match pc
    case Idle => true
    case Prechecking => f == NOTHING_YET && !v.clearChecksLocked
    case Locking(op, _) =>
      f == NOTHING_YET.(barred := if op.Clear? && !v.clearChecksLocked then Some(false) else None)
    case Checking(op, wait) =>
      && f == NOTHING_YET.(barred := f.barred)
      && (op.Clear? ==> f.barred == if v.clearChecksLocked then None else Some(false))
      && (wait.NoWait? && !op.Clear? ==> f.barred.None?)
    case Announced(_, _) => f == NOTHING_YET.(barred := Some(true))
    case Parked(_, _) => f == NOTHING_YET.(barred := Some(true))
    case Woken(_, _, cause) => f == Fate(false, cause.TimedOut?, cause.Failed?, Some(true))
    case Committing(op) => Free(op, d, f)
    case Signalling(op) => Free(op, d, f)
    case Unlocking(rc) => d.op.Some? && Named(d.op.value, d.wait, f, rc)
    case Returning(rc) => d.op.Some? && Named(d.op.value, d.wait, f, rc)
  }

  /** Past the guard: nothing went wrong, and what does not wait saw the way free. */
  predicate Free(op: Op, d: Duty, f: Fate) {
    && f == NOTHING_YET.(barred := f.barred)
    && (op.Clear? || d.wait.NoWait? ==> f.barred == Some(false))
  }

  /** The counters are right in every variant. */
  lemma {:induction false} CountedAlways(v: Variant, slots: seq<Record>, es: seq<Event>)
    requires Exec(v, Init(slots), es).Some?
    ensures Counted(Exec(v, Init(slots), es).value)
  {
    if es == [] {
      InitInv(slots);
    } else {
      var before, e := es[..|es| - 1], es[|es| - 1];
      CountedAlways(v, slots, before);
      OneEffectIffSuccess(v, slots, before, e.t);
      CountedStep(v, Exec(v, Init(slots), before).value, e);
    }
  }

  /** So clear's test of the two counters asks what it should. */
  lemma CountersTell(s: State)
    requires Counted(s)
    ensures s.waitingEmpty != 0 || s.waitingFull != 0 <==> Barred(s, Clear)
  {
    if w: Tid :| Waiting(s.At(w)) {
      assert w in (if s.At(w).op.Push? then Those(s.pcs, WaitingFull) else Those(s.pcs, WaitingEmpty));
    } else {
      assert forall w | w in s.pcs :: s.pcs[w] == s.At(w);
      assert Those(s.pcs, WaitingFull) == {} && Those(s.pcs, WaitingEmpty) == {};
    }
  }

  lemma LookKeepsCourse(v: Variant, s: State, e: Event, d: Duty, f: Fate)
    requires Step(v, s, e).Some? && OnDuty(s.At(e.t), d) && OnCourse(v, s.At(e.t), d, f) && Looks(v, s, e)
    requires s.waitingEmpty != 0 || s.waitingFull != 0 <==> Barred(s, Clear)
    ensures OnCourse(v, Step(v, s, e).value.At(e.t), DutyAfter(d, e, e.t), FateAfter(v, f, s, e, e.t))
  {
  }

  lemma MoverKeepsCourse(v: Variant, s: State, e: Event, d: Duty, f: Fate)
    requires Step(v, s, e).Some? && OnDuty(s.At(e.t), d) && OnCourse(v, s.At(e.t), d, f) && !Looks(v, s, e)
    ensures OnCourse(v, Step(v, s, e).value.At(e.t), DutyAfter(d, e, e.t), FateAfter(v, f, s, e, e.t))
  {
  }

  lemma {:induction false} CourseAlways(v: Variant, slots: seq<Record>, es: seq<Event>, t: Tid)
    requires Exec(v, Init(slots), es).Some?
    ensures OnCourse(v, Exec(v, Init(slots), es).value.At(t), DutyOf(es, t), FateOf(v, Init(slots), es, t))
  {
    if es != [] {
      var before, e := es[..|es| - 1], es[|es| - 1];
      var s, d, f := Exec(v, Init(slots), before).value, DutyOf(before, t), FateOf(v, Init(slots), before, t);
      CourseAlways(v, slots, before, t);
      OneEffectIffSuccess(v, slots, before, t);
      CountedAlways(v, slots, before);
      CountersTell(s);
      if e.t != t { OtherStands(v, s, e, t); }
      else if Looks(v, s, e) { LookKeepsCourse(v, s, e, d, f); }
      else { MoverKeepsCourse(v, s, e, d, f); }
    }
  }

  /** In every run of every variant a result names its cause, and the cause its result:
      LSP_ERR_MUTEX that the lock failed, LSP_ERR_QUEUE_FULL and LSP_ERR_QUEUE_EMPTY
      that a call with timeout 0 found no room or no item, LSP_ERR_TIMEOUT that the wait
      timed out, LSP_ERR_INVALID that it failed, LSP_ERR_RESOURCE_IN_USE that somebody
      was waiting when clear looked, and LSP_ERR_NONE that nothing of the kind happened. */
  lemma ResultNamesItsCause(v: Variant, slots: seq<Record>, es: seq<Event>, t: Tid, rc: int)
    requires Exec(v, Init(slots), es + [Return(t, rc)]).Some?
    ensures Exec(v, Init(slots), es).Some? && DutyOf(es, t).op.Some?
    ensures Named(DutyOf(es, t).op.value, DutyOf(es, t).wait, FateOf(v, Init(slots), es, t), rc)
  {
    var all := es + [Return(t, rc)];
    assert all[..|all| - 1] == es;
    CourseAlways(v, slots, es, t);
  }

  // ---------------------------------------------------------------- every result is possible

  const EVERYBODY := Roles({0, 1}, {0, 1}, {0, 1}, true)

  predicate Called(d: Duty, op: Op, wait: Wait) {
    d.op == Some(op) && d.wait == wait
  }

  /** Some call `op` with this timeout returns rc in some run. */
  ghost predicate CanReturn(v: Variant, slots: seq<Record>, op: Op, wait: Wait, rc: int) {
    exists es, t :: Exec(v, Init(slots), es + [Return(t, rc)]).Some? && Called(DutyOf(es, t), op, wait)
  }

  /** Thread 1 is inside the call `op`. */
  ghost predicate Midway(v: Variant, slots: seq<Record>, es: seq<Event>, s: State, op: Op, wait: Wait) {
    Runs(v, slots, EVERYBODY, es, s) && Called(DutyOf(es, 1), op, wait)
  }

  lemma Then(v: Variant, slots: seq<Record>, es: seq<Event>, s: State, op: Op, wait: Wait, e: Event)
    returns (es': seq<Event>, s': State)
    requires Midway(v, slots, es, s, op, wait) && Step(v, s, e).Some? && e.t == 1 && !e.Call?
    ensures Midway(v, slots, es', s', op, wait) && Step(v, s, e) == Some(s')
  {
    assert (es + [e])[..|es|] == es;
    es', s' := es + [e], Step(v, s, e).value;
  }

  lemma Returns(v: Variant, slots: seq<Record>, es: seq<Event>, s: State, op: Op, wait: Wait, rc: int)
    requires Midway(v, slots, es, s, op, wait) && (s.At(1) == Unlocking(rc) || s.At(1) == Returning(rc))
    ensures CanReturn(v, slots, op, wait, rc)
  {
    var es', s' := es, s;
    if s.At(1).Unlocking? { es', s' := Then(v, slots, es, s, op, wait, Unlock(1)); }
    assert (es' + [Return(1, rc)])[..|es'|] == es';
    assert Exec(v, Init(slots), es' + [Return(1, rc)]).Some?;
  }

  /** Thread 1 calls while nobody holds the mutex. */
  lemma Starts(v: Variant, slots: seq<Record>, es: seq<Event>, s: State, op: Op, wait: Wait)
    returns (es': seq<Event>, s': State)
    requires Runs(v, slots, EVERYBODY, es, s) && s.At(1).Idle? && s.holder.None? && !op.Clear?
    ensures Midway(v, slots, es', s', op, wait) && s'.ring == s.ring && s'.holder.None? && s'.At(1) == Locking(op, wait)
    ensures forall u: Tid | u != 1 :: s'.At(u) == s.At(u)
  {
    es', s' := GoAlone(v, slots, EVERYBODY, es, s, Call(1, op, wait));
    OneEffectIffSuccess(v, slots, es', 1);
  }

  lemma StartsToCheck(v: Variant, slots: seq<Record>, es: seq<Event>, s: State, op: Op, wait: Wait)
    returns (es': seq<Event>, s': State)
    requires Runs(v, slots, EVERYBODY, es, s) && s.At(1).Idle? && s.holder.None? && !op.Clear?
    ensures Midway(v, slots, es', s', op, wait) && s'.ring == s.ring && s'.At(1) == Checking(op, wait)
    ensures forall u: Tid | u != 1 :: s'.At(u) == s.At(u)
  {
    es', s' := GetsIn(v, slots, EVERYBODY, es, s, 1, op, wait);
    OneEffectIffSuccess(v, slots, es', 1);
  }

  /** A queue on which `op` finds its guard closed, or open. */
  lemma Prepared(v: Variant, slots: seq<Record>, op: Op, closed: bool) returns (es: seq<Event>, s: State)
    requires slots != [] && !op.Clear?
    ensures Runs(v, slots, EVERYBODY, es, s) && s.holder.None? && s.ring.CursorsInRange()
    ensures forall u: Tid :: s.At(u).Idle?
    ensures closed == if op.Push? then s.Full() else s.Empty()
  {
    var n := if op.Push? then (if closed then |slots| else 0) else (if closed then 0 else 1);
    es, s := Filled(v, slots, EVERYBODY, [], Init(slots), 0, n);
    assert forall u: Tid :: Init(slots).At(u).Idle?;
  }

  lemma CanSucceed(v: Variant, slots: seq<Record>, op: Op, wait: Wait)
    requires slots != [] && !op.Clear?
    ensures CanReturn(v, slots, op, wait, LSP_ERR_NONE)
  {
    var es, s := Prepared(v, slots, op, false);
    es, s := StartsToCheck(v, slots, es, s, op, wait);
    es, s := Commits(v, slots, es, s, op, wait);
    es, s := Then(v, slots, es, s, op, wait, Signal(1, None));
    Returns(v, slots, es, s, op, wait, LSP_ERR_NONE);
  }

  lemma Commits(v: Variant, slots: seq<Record>, es: seq<Event>, s: State, op: Op, wait: Wait)
    returns (es': seq<Event>, s': State)
    requires Midway(v, slots, es, s, op, wait) && s.At(1) == Checking(op, wait) && s.ring.CursorsInRange() && !op.Clear?
    requires !(if op.Push? then s.Full() else s.Empty())
    requires forall u: Tid | u != 1 :: s.At(u).Idle?
    ensures Midway(v, slots, es', s', op, wait) && s'.At(1) == Signalling(op)
    ensures forall w | w in s'.pcs :: !WaitsFor(s'.pcs[w], op)
  {
    es', s' := Then(v, slots, es, s, op, wait, Check(1));
    var e := if op.Push? then CommitPush(1, op.item) else CommitPop(1, s.ring.slots[s.ring.head]);
    es', s' := Then(v, slots, es', s', op, wait, e);
    forall w | w in s'.pcs ensures !WaitsFor(s'.pcs[w], op) {
      assert w != 1 ==> s.At(w).Idle?;
    }
  }

  lemma CanMissTheLock(v: Variant, slots: seq<Record>, op: Op, wait: Wait)
    requires !op.Clear?
    ensures CanReturn(v, slots, op, wait, LSP_ERR_MUTEX)
  {
    var es, s := Starts(v, slots, [], Init(slots), op, wait);
    es, s := Then(v, slots, es, s, op, wait, LockFail(1));
    Returns(v, slots, es, s, op, wait, LSP_ERR_MUTEX);
  }

  lemma CanBeTurnedAway(v: Variant, slots: seq<Record>, op: Op)
    requires slots != [] && !op.Clear?
    ensures CanReturn(v, slots, op, NoWait, if op.Push? then LSP_ERR_QUEUE_FULL else LSP_ERR_QUEUE_EMPTY)
  {
    var es, s := Prepared(v, slots, op, true);
    es, s := StartsToCheck(v, slots, es, s, op, NoWait);
    es, s := Then(v, slots, es, s, op, NoWait, Check(1));
    Returns(v, slots, es, s, op, NoWait, if op.Push? then LSP_ERR_QUEUE_FULL else LSP_ERR_QUEUE_EMPTY);
  }

  lemma CanWaitInVain(v: Variant, slots: seq<Record>, op: Op, wait: Wait, timeOut: bool)
    requires slots != [] && !op.Clear? && !wait.NoWait? && (timeOut ==> wait.Bounded?)
    ensures CanReturn(v, slots, op, wait, if timeOut then LSP_ERR_TIMEOUT else LSP_ERR_INVALID)
  {
    var es, s := Prepared(v, slots, op, true);
    es, s := StartsToCheck(v, slots, es, s, op, wait);
    es, s := Then(v, slots, es, s, op, wait, Check(1));
    es, s := Then(v, slots, es, s, op, wait, Park(1));
    es, s := Then(v, slots, es, s, op, wait, if timeOut then TimeOut(1) else WaitError(1));
    es, s := Then(v, slots, es, s, op, wait, Reacquire(1));
    Returns(v, slots, es, s, op, wait, if timeOut then LSP_ERR_TIMEOUT else LSP_ERR_INVALID);
  }

  /** Thread 1 clears, up to the look. */
  lemma StartsToClear(v: Variant, slots: seq<Record>, es: seq<Event>, s: State) returns (es': seq<Event>, s': State)
    requires Runs(v, slots, EVERYBODY, es, s) && s.At(1).Idle? && s.holder.None?
    ensures Midway(v, slots, es', s', Clear, Forever)
    ensures s'.waitingEmpty == s.waitingEmpty && s'.waitingFull == s.waitingFull
    ensures if v.clearChecksLocked then s'.At(1) == Checking(Clear, Forever)
            else s'.At(1).Prechecking? && s'.holder.None?
  {
    es', s' := GoAlone(v, slots, EVERYBODY, es, s, Call(1, Clear, Forever));
    OneEffectIffSuccess(v, slots, es', 1);
    if v.clearChecksLocked { es', s' := Then(v, slots, es', s', Clear, Forever, Lock(1)); }
  }

  lemma CanClear(v: Variant, slots: seq<Record>)
    ensures CanReturn(v, slots, Clear, Forever, LSP_ERR_NONE)
  {
    var es, s := StartsToClear(v, slots, [], Init(slots));
    if !v.clearChecksLocked {
      es, s := Then(v, slots, es, s, Clear, Forever, Precheck(1));
      es, s := Then(v, slots, es, s, Clear, Forever, Lock(1));
    }
    es, s := Then(v, slots, es, s, Clear, Forever, Check(1));
    es, s := Then(v, slots, es, s, Clear, Forever, CommitClear(1));
    Returns(v, slots, es, s, Clear, Forever, LSP_ERR_NONE);
  }

  lemma CanFindSomebody(v: Variant, slots: seq<Record>)
    ensures CanReturn(v, slots, Clear, Forever, LSP_ERR_RESOURCE_IN_USE)
  {
    var es, s := SleepyCall(v, slots, EVERYBODY, [], Init(slots), 0, Pop);
    CountedAlways(v, slots, es);
    CountersTell(s);
    assert Waiting(s.At(0));
    es, s := StartsToClear(v, slots, es, s);
    es, s := Then(v, slots, es, s, Clear, Forever, if v.clearChecksLocked then Check(1) else Precheck(1));
    Returns(v, slots, es, s, Clear, Forever, LSP_ERR_RESOURCE_IN_USE);
  }

  /** What a call can return, exactly: success, or one of the errors that fit its
      operation and its timeout. (A clear has no timeout and always waits for the lock.) */
  lemma CanReturnIff(v: Variant, slots: seq<Record>, op: Op, wait: Wait, rc: int)
    requires slots != [] && (op.Clear? ==> wait.Forever?)
    ensures CanReturn(v, slots, op, wait, rc) <==> rc == LSP_ERR_NONE || MayFail(op, wait, rc)
  {
    if es, t :| Exec(v, Init(slots), es + [Return(t, rc)]).Some? && Called(DutyOf(es, t), op, wait) {
      ReturnTellsTheTruth(v, slots, es, t, rc);
    }
    if op.Clear? {
      CanClear(v, slots);
      CanFindSomebody(v, slots);
    } else {
      CanSucceed(v, slots, op, wait);
      CanMissTheLock(v, slots, op, wait);
      if wait.NoWait? { CanBeTurnedAway(v, slots, op); } else { CanWaitInVain(v, slots, op, wait, false); }
      if wait.Bounded? { CanWaitInVain(v, slots, op, wait, true); }
    }
  }
}
