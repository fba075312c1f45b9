/** The blocking queue as a state machine over any number of threads: one mutex,
    two condition variables, two waiter counters and the ring
    (src/arch/posix/lsp_queue.c).

    Every source of nondeterminism is in the events, so a run is a sequence of
    events and Step is a function. Thread identifiers are unbounded; a thread
    that was never mentioned is idle. */
module QueueMonitor {
  import opened LspTypes
  import opened Ring

  datatype Op = Push(item: Record) | Pop | Clear

  datatype Cause = Signalled | TimedOut | Failed

  /** Where a thread stands inside lsp_queue_push, lsp_queue_pop or lsp_queue_clear. */
  datatype Pc =
    | Idle
    | Prechecking                             // clear: reading the waiter counters, no lock held
    | Locking(op: Op, wait: Wait)             // waiting for the mutex
    | Checking(op: Op, wait: Wait)            // lock held, about to test the guard
    | Announced(op: Op, wait: Wait)           // lock held, waiter counter incremented
    | Parked(op: Op, wait: Wait)              // blocked on the condition variable, lock released
    | Woken(op: Op, wait: Wait, cause: Cause) // left the condition variable, needs the lock back
    | Committing(op: Op)                      // lock held, past the guard
    | Signalling(op: Op)                      // lock held, ring updated
    | Unlocking(rc: int)                      // lock held, result known
    | Returning(rc: int)                      // lock released

  /** The source is Variant(false, false): it waits once without looking again,
      and clear reads the waiter counters before it takes the lock. */
  datatype Variant = Variant(recheck: bool, clearChecksLocked: bool)

  const REPAIRED := Variant(true, true)
  const AS_WRITTEN := Variant(false, false)

  datatype State = State(
    ring: Ring<Record>,
    waitingFull: int,
    waitingEmpty: int,
    holder: Option<Tid>,
    pcs: map<Tid, Pc>)
  {
    function At(t: Tid): Pc {
      if t in pcs then pcs[t] else Idle
    }

    function Goto(t: Tid, pc: Pc): State {
      this.(pcs := pcs[t := pc])
    }

    /** The guard of push: length is converted to the unsigned type of queue_size. */
    predicate Full() {
      ring.length < 0 || ring.length >= |ring.slots|
    }

    predicate Empty() {
      ring.length <= 0
    }
  }

  datatype Event =
    | Call(t: Tid, op: Op, wait: Wait)
    | Precheck(t: Tid)
    | Lock(t: Tid)
    | LockFail(t: Tid)
    | Check(t: Tid)
    | Park(t: Tid)
    | TimeOut(t: Tid)
    | WaitError(t: Tid)
    | Spurious(t: Tid)
    | Reacquire(t: Tid)
    | CommitPush(t: Tid, x: Record)
    | CommitPop(t: Tid, x: Record)
    | CommitClear(t: Tid)
    | Signal(t: Tid, woken: Option<Tid>)
    | Unlock(t: Tid)
    | Return(t: Tid, rc: int)

  function Init(slots: seq<Record>): State {
    State(Ring(slots, 0, 0, 0), 0, 0, None, map[])
  }

  /** Does a thread at `pc` sit on the condition variable that `op` signals?
      Push signals cond_empty, pop signals cond_full. */
  predicate WaitsFor(pc: Pc, op: Op) {
    pc.Parked? && ((op.Push? && pc.op.Pop?) || (op.Pop? && pc.op.Push?))
  }

  /** Evaluating the guard with the lock held. */
  function CheckGuard(v: Variant, s: State, t: Tid, op: Op, wait: Wait): State {
    match op
    case Push(_) =>
      if !s.Full() then s.Goto(t, Committing(op))
      else if wait.NoWait? then s.Goto(t, Unlocking(LSP_ERR_QUEUE_FULL))
      else s.(waitingFull := s.waitingFull + 1).Goto(t, Announced(op, wait))
    case Pop =>
      if !s.Empty() then s.Goto(t, Committing(op))
      else if wait.NoWait? then s.Goto(t, Unlocking(LSP_ERR_QUEUE_EMPTY))
      else s.(waitingEmpty := s.waitingEmpty + 1).Goto(t, Announced(op, wait))
    case Clear =>
      if v.clearChecksLocked && (s.waitingEmpty != 0 || s.waitingFull != 0)
      then s.Goto(t, Unlocking(LSP_ERR_RESOURCE_IN_USE))
      else s.Goto(t, Committing(op))
  }

  /** Back from the condition variable with the lock: undo the announcement,
      then fail, look again, or (as written) carry on without looking. */
  function Resume(v: Variant, s: State, t: Tid, op: Op, wait: Wait, cause: Cause): State {
    var s1 := if op.Push? then s.(waitingFull := s.waitingFull - 1)
              else s.(waitingEmpty := s.waitingEmpty - 1);
    var s2 := s1.(holder := Some(t));
    match cause
    case TimedOut => s2.Goto(t, Unlocking(LSP_ERR_TIMEOUT))
    case Failed => s2.Goto(t, Unlocking(LSP_ERR_INVALID))
    case Signalled => s2.Goto(t, if v.recheck then Checking(op, wait) else Committing(op))
  }

  function Step(v: Variant, s: State, e: Event): Option<State> {
    var pc := s.At(e.t);
    match e
    case Call(t, op, wait) =>
      if !pc.Idle? then None
      else if op.Clear? && !v.clearChecksLocked then Some(s.Goto(t, Prechecking))
      else Some(s.Goto(t, Locking(op, if op.Clear? then Forever else wait)))
    case Precheck(t) =>
      if !pc.Prechecking? then None
      else if s.waitingEmpty != 0 || s.waitingFull != 0
      then Some(s.Goto(t, Returning(LSP_ERR_RESOURCE_IN_USE)))
      else Some(s.Goto(t, Locking(Clear, Forever)))
    case Lock(t) =>
      if pc.Locking? && s.holder.None?
      then Some(s.(holder := Some(t)).Goto(t, Checking(pc.op, pc.wait))) else None
    case LockFail(t) =>
      if pc.Locking? && !pc.op.Clear? then Some(s.Goto(t, Returning(LSP_ERR_MUTEX))) else None
    case Check(t) =>
      if pc.Checking? then Some(CheckGuard(v, s, t, pc.op, pc.wait)) else None
    case Park(t) =>
      if pc.Announced? then Some(s.(holder := None).Goto(t, Parked(pc.op, pc.wait))) else None
    case TimeOut(t) =>
      if pc.Parked? && pc.wait.Bounded? then Some(s.Goto(t, Woken(pc.op, pc.wait, TimedOut))) else None
    case WaitError(t) =>
      if pc.Parked? then Some(s.Goto(t, Woken(pc.op, pc.wait, Failed))) else None
    case Spurious(t) =>
      if pc.Parked? then Some(s.Goto(t, Woken(pc.op, pc.wait, Signalled))) else None
    case Reacquire(t) =>
      if pc.Woken? && s.holder.None? then Some(Resume(v, s, t, pc.op, pc.wait, pc.cause)) else None
    case CommitPush(t, x) =>
      if pc == Committing(Push(x)) && s.ring.CursorsInRange()
      then Some(s.(ring := s.ring.Put(x)).Goto(t, Signalling(pc.op))) else None
    case CommitPop(t, x) =>
      if pc == Committing(Pop) && s.ring.CursorsInRange() && x == s.ring.slots[s.ring.head]
      then Some(s.(ring := s.ring.Take()).Goto(t, Signalling(pc.op))) else None
    case CommitClear(t) =>
      if pc == Committing(Clear)
      then Some(s.(ring := s.ring.Reset()).Goto(t, Unlocking(LSP_ERR_NONE))) else None
    case Signal(t, woken) =>
      if !pc.Signalling? then None
      else
        var s1 := s.Goto(t, Unlocking(LSP_ERR_NONE));
        (match woken
         case None =>
           if exists w | w in s.pcs :: WaitsFor(s.pcs[w], pc.op) then None else Some(s1)
         case Some(w) =>
           if WaitsFor(s.At(w), pc.op)
           then Some(s1.Goto(w, Woken(s.At(w).op, s.At(w).wait, Signalled))) else None)
    case Unlock(t) =>
      if pc.Unlocking? then Some(s.(holder := None).Goto(t, Returning(pc.rc))) else None
    case Return(t, rc) =>
      if pc == Returning(rc) then Some(s.Goto(t, Idle)) else None
  }

  /** The state after a run, if every event of it was possible when it came. */
  function Exec(v: Variant, s: State, es: seq<Event>): Option<State> {
    if es == [] then Some(s)
    else
      match Exec(v, s, es[..|es| - 1])
      case None => None
      case Some(m) => Step(v, m, es[|es| - 1])
  }

  /** Appends one event to a run. */
  lemma Extend(v: Variant, init: State, es: seq<Event>, s: State, e: Event) returns (es': seq<Event>, s': State)
    requires Exec(v, init, es) == Some(s) && Step(v, s, e).Some?
    ensures es' == es + [e] && Step(v, s, e) == Some(s') && Exec(v, init, es') == Some(s')
  {
    es', s' := es + [e], Step(v, s, e).value;
    assert es'[..|es'| - 1] == es;
  }

  // ---------------------------------------------------------------- counting threads

  function Those(pcs: map<Tid, Pc>, p: Pc -> bool): set<Tid> {
    set t | t in pcs && p(pcs[t])
  }

  function One(b: bool): nat { if b then 1 else 0 }

  lemma ThoseAfter(pcs: map<Tid, Pc>, t: Tid, pc: Pc, p: Pc -> bool)
    ensures Those(pcs[t := pc], p) == if p(pc) then Those(pcs, p) + {t} else Those(pcs, p) - {t}
  {
  }

  lemma CountAfter(pcs: map<Tid, Pc>, t: Tid, pc: Pc, p: Pc -> bool)
    ensures |Those(pcs[t := pc], p)| == |Those(pcs, p)| - One(t in pcs && p(pcs[t])) + One(p(pc))
  {
    ThoseAfter(pcs, t, pc, p);
    var before := Those(pcs, p);
    assert t in before <==> t in pcs && p(pcs[t]);
    AddOrDrop(before, t);
  }

  lemma AddOrDrop(ts: set<Tid>, t: Tid)
    ensures |ts + {t}| == |ts| - One(t in ts) + 1
    ensures |ts - {t}| == |ts| - One(t in ts)
  {
  }

  predicate WaitingFull(pc: Pc) {
    (pc.Announced? || pc.Parked? || pc.Woken?) && pc.op.Push?
  }

  predicate WaitingEmpty(pc: Pc) {
    (pc.Announced? || pc.Parked? || pc.Woken?) && pc.op.Pop?
  }

  predicate ParkedPopper(pc: Pc) { pc.Parked? && pc.op.Pop? }
  predicate ParkedPusher(pc: Pc) { pc.Parked? && pc.op.Push? }
  predicate SignalledPopper(pc: Pc) { pc.Woken? && pc.op.Pop? && pc.cause.Signalled? }
  predicate SignalledPusher(pc: Pc) { pc.Woken? && pc.op.Push? && pc.cause.Signalled? }

  /** Threads that still owe the parked poppers something for an item in the
      ring: they will take it, or they are about to signal. */
  predicate ServesPoppers(pc: Pc) {
    SignalledPopper(pc) || ((pc.Checking? || pc.Committing?) && pc.op.Pop?) || (pc.Signalling? && pc.op.Push?)
  }

  predicate ServesPushers(pc: Pc) {
    SignalledPusher(pc) || ((pc.Checking? || pc.Committing?) && pc.op.Push?) || (pc.Signalling? && pc.op.Pop?)
  }

  predicate InsideLock(pc: Pc) {
    pc.Checking? || pc.Announced? || pc.Committing? || pc.Signalling? || pc.Unlocking?
  }

  // ---------------------------------------------------------------- the monitor invariant

  /** The mutex excludes. */
  ghost predicate Exclusive(s: State) {
    && (forall t | t in s.pcs :: InsideLock(s.pcs[t]) <==> s.holder == Some(t))
    && (s.holder.Some? ==> s.holder.value in s.pcs)
  }

  /** Only push and pop wait, and only after finding their guard closed. */
  ghost predicate WaitKept(s: State, pc: Pc) {
    && (pc.Announced? || pc.Parked? || pc.Woken? || pc.Signalling? ==> !pc.op.Clear?)
    && (pc.Announced? && pc.op.Push? ==> s.Full())
    && (pc.Announced? && pc.op.Pop? ==> s.Empty())
  }

  /** And past the guard it is open. */
  ghost predicate GuardKept(s: State, pc: Pc) {
    && WaitKept(s, pc)
    && (pc.Committing? && pc.op.Push? ==> !s.Full())
    && (pc.Committing? && pc.op.Pop? ==> !s.Empty())
  }

  ghost predicate RingKept(s: State) {
    s.ring.Valid() && forall t | t in s.pcs :: GuardKept(s, s.pcs[t])
  }

  /** The two counters count exactly the threads between increment and decrement. */
  ghost predicate Counted(s: State) {
    && s.waitingFull == |Those(s.pcs, WaitingFull)|
    && s.waitingEmpty == |Those(s.pcs, WaitingEmpty)|
  }

  ghost predicate PoppersServed(s: State) {
    Those(s.pcs, ParkedPopper) != {} ==> s.ring.length <= |Those(s.pcs, ServesPoppers)|
  }

  ghost predicate PushersServed(s: State) {
    Those(s.pcs, ParkedPusher) != {} ==> |s.ring.slots| - s.ring.length <= |Those(s.pcs, ServesPushers)|
  }

  /** No wakeup is lost. */
  ghost predicate Served(s: State) {
    PoppersServed(s) && PushersServed(s)
  }

  ghost predicate Inv(s: State) {
    Exclusive(s) && RingKept(s) && Counted(s) && Served(s)
  }

  /** A clear that found no waiters under the lock still has none when it commits. */
  ghost predicate ClearChecked(s: State) {
    forall t | t in s.pcs && s.pcs[t] == Committing(Clear) :: s.waitingFull == 0 && s.waitingEmpty == 0
  }

  lemma ExclusiveStep(v: Variant, s: State, e: Event)
    requires Exclusive(s) && Step(v, s, e).Some?
    ensures Exclusive(Step(v, s, e).value)
  {
  }

  lemma RingValidStep(v: Variant, s: State, e: Event)
    requires s.ring.Valid() && GuardKept(s, s.At(e.t)) && Step(v, s, e).Some?
    ensures Step(v, s, e).value.ring.Valid()
  {
    match e
    case CommitPush(t, x) => PutAppends(s.ring, x);
    case CommitPop(t, x) => TakeRemovesOldest(s.ring);
    case _ =>
  }

  /** The thread that moves. */
  lemma MoverWaitKept(v: Variant, s: State, e: Event)
    requires WaitKept(s, s.At(e.t)) && Step(v, s, e).Some?
    ensures WaitKept(Step(v, s, e).value, Step(v, s, e).value.At(e.t))
  {
  }

  lemma MoverGuardKept(v: Variant, s: State, e: Event)
    requires v.recheck && GuardKept(s, s.At(e.t)) && Step(v, s, e).Some?
    ensures GuardKept(Step(v, s, e).value, Step(v, s, e).value.At(e.t))
  {
    MoverWaitKept(v, s, e);
  }

  /** The threads that do not: the ring stands still under a thread inside the lock,
      and nothing else about the thread changes but being woken. */
  lemma OtherStands(v: Variant, s: State, e: Event, t: Tid)
    requires Step(v, s, e).Some? && t != e.t
    ensures var s' := Step(v, s, e).value;
            && |s'.ring.slots| == |s.ring.slots|
            && (s'.ring == s.ring || s.At(e.t).Committing?)
            && (s'.At(t) == s.At(t)
                || (e == Signal(e.t, Some(t)) && s.At(t).Parked?
                    && s'.At(t) == Woken(s.At(t).op, s.At(t).wait, Signalled)))
  {
  }

  lemma OtherWaitKept(v: Variant, s: State, e: Event, t: Tid)
    requires WaitKept(s, s.At(t)) && Step(v, s, e).Some? && t != e.t
    requires InsideLock(s.At(t)) && InsideLock(s.At(e.t)) ==> t == e.t
    ensures WaitKept(Step(v, s, e).value, Step(v, s, e).value.At(t))
  {
    OtherStands(v, s, e, t);
  }

  lemma OtherGuardKept(v: Variant, s: State, e: Event, t: Tid)
    requires GuardKept(s, s.At(t)) && Step(v, s, e).Some? && t != e.t
    requires InsideLock(s.At(t)) && InsideLock(s.At(e.t)) ==> t == e.t
    ensures GuardKept(Step(v, s, e).value, Step(v, s, e).value.At(t))
  {
    OtherStands(v, s, e, t);
  }

  lemma RingKeptStep(v: Variant, s: State, e: Event)
    requires v.recheck && Exclusive(s) && RingKept(s) && Step(v, s, e).Some?
    ensures RingKept(Step(v, s, e).value)
  {
    var s' := Step(v, s, e).value;
    assert e.t in s.pcs ==> GuardKept(s, s.pcs[e.t]);
    RingValidStep(v, s, e);
    MoverGuardKept(v, s, e);
    forall t | t in s'.pcs && t != e.t ensures GuardKept(s', s'.pcs[t]) {
      OtherKnown(v, s, e, t);
      OtherGuardKept(v, s, e, t);
    }
  }

  lemma OtherKnown(v: Variant, s: State, e: Event, t: Tid)
    requires Step(v, s, e).Some? && t != e.t && t in Step(v, s, e).value.pcs
    ensures t in s.pcs
  {
  }

  /** The two threads that Signal moves, one after the other. */
  lemma CountAfterTwo(pcs: map<Tid, Pc>, t: Tid, a: Pc, w: Tid, b: Pc, p: Pc -> bool)
    requires t != w
    ensures |Those(pcs[t := a][w := b], p)| == |Those(pcs, p)|
            - One(t in pcs && p(pcs[t])) + One(p(a)) - One(w in pcs && p(pcs[w])) + One(p(b))
  {
    CountAfter(pcs, t, a, p);
    CountAfter(pcs[t := a], w, b, p);
  }

  lemma CountStep(v: Variant, s: State, e: Event, p: Pc -> bool)
    requires Step(v, s, e).Some? && !p(Idle)
    ensures var s' := Step(v, s, e).value;
            if e.Signal? && e.woken.Some? then
              && e.woken.value != e.t
              && |Those(s'.pcs, p)| == |Those(s.pcs, p)|
                 - One(p(s.At(e.t))) + One(p(s'.At(e.t))) - One(p(s.At(e.woken.value))) + One(p(s'.At(e.woken.value)))
            else |Those(s'.pcs, p)| == |Those(s.pcs, p)| - One(p(s.At(e.t))) + One(p(s'.At(e.t)))
  {
    var s' := Step(v, s, e).value;
    if e.Signal? && e.woken.Some? {
      CountAfterTwo(s.pcs, e.t, s'.At(e.t), e.woken.value, s'.At(e.woken.value), p);
    } else {
      CountAfter(s.pcs, e.t, s'.At(e.t), p);
      assert s'.pcs == s.pcs[e.t := s'.At(e.t)];
    }
  }

  lemma FullCounter(v: Variant, s: State, e: Event)
    requires Step(v, s, e).Some?
    ensures var s' := Step(v, s, e).value;
            && s'.waitingFull - s.waitingFull == One(WaitingFull(s'.At(e.t))) - One(WaitingFull(s.At(e.t)))
            && (e.Signal? && e.woken.Some? ==> WaitingFull(s'.At(e.woken.value)) == WaitingFull(s.At(e.woken.value)))
  {
  }

  lemma EmptyCounter(v: Variant, s: State, e: Event)
    requires Step(v, s, e).Some? && (s.At(e.t).Woken? ==> !s.At(e.t).op.Clear?)
    ensures var s' := Step(v, s, e).value;
            && s'.waitingEmpty - s.waitingEmpty == One(WaitingEmpty(s'.At(e.t))) - One(WaitingEmpty(s.At(e.t)))
            && (e.Signal? && e.woken.Some? ==> WaitingEmpty(s'.At(e.woken.value)) == WaitingEmpty(s.At(e.woken.value)))
  {
  }

  lemma CountedStep(v: Variant, s: State, e: Event)
    requires Counted(s) && Step(v, s, e).Some? && (s.At(e.t).Woken? ==> !s.At(e.t).op.Clear?)
    ensures Counted(Step(v, s, e).value)
  {
    CountStep(v, s, e, WaitingFull);
    CountStep(v, s, e, WaitingEmpty);
    FullCounter(v, s, e);
    EmptyCounter(v, s, e);
  }

  /** What one step does to the items that parked poppers have coming. */
  lemma PopperBalance(v: Variant, s: State, e: Event)
    requires WaitKept(s, s.At(e.t)) && Step(v, s, e).Some? && !e.Signal?
    ensures var s' := Step(v, s, e).value;
            || s'.ring.length <= 0
            || s'.ring.length - One(ServesPoppers(s'.At(e.t))) <= s.ring.length - One(ServesPoppers(s.At(e.t)))
  {
  }

  /** And to the free slots that parked pushers have coming. */
  lemma PusherBalance(v: Variant, s: State, e: Event)
    requires WaitKept(s, s.At(e.t)) && Step(v, s, e).Some? && !e.Signal? && !e.CommitClear?
    requires 0 <= s.ring.length
    ensures var s' := Step(v, s, e).value;
            && |s'.ring.slots| == |s.ring.slots|
            && (|| |s.ring.slots| <= s'.ring.length
                || One(ServesPushers(s.At(e.t))) + s.ring.length <= One(ServesPushers(s'.At(e.t))) + s'.ring.length)
  {
  }

  /** A signal passes the duty on, to a thread it wakes. */
  lemma SignalBalance(v: Variant, s: State, t: Tid, w: Tid)
    requires Step(v, s, Signal(t, Some(w))).Some?
    ensures var s' := Step(v, s, Signal(t, Some(w))).value;
            && One(ServesPoppers(s.At(t))) + One(ServesPoppers(s.At(w)))
               <= One(ServesPoppers(s'.At(t))) + One(ServesPoppers(s'.At(w)))
            && One(ServesPushers(s.At(t))) + One(ServesPushers(s.At(w)))
               <= One(ServesPushers(s'.At(t))) + One(ServesPushers(s'.At(w)))
  {
  }

  /** A signal that wakes nobody leaves its own side's duty, as there is nobody to serve. */
  lemma SignalNobody(v: Variant, s: State, t: Tid)
    requires Step(v, s, Signal(t, None)).Some?
    ensures var s' := Step(v, s, Signal(t, None)).value;
            && (s.At(t).op.Push? ==> Those(s'.pcs, ParkedPopper) == {})
            && (s.At(t).op.Pop? ==> Those(s'.pcs, ParkedPusher) == {})
  {
    var s' := Step(v, s, Signal(t, None)).value;
    forall w | w in s'.pcs ensures s.At(t).op.Push? ==> !ParkedPopper(s'.pcs[w])
                           ensures s.At(t).op.Pop? ==> !ParkedPusher(s'.pcs[w]) {
      assert w in s.pcs ==> !WaitsFor(s.pcs[w], s.At(t).op);
    }
  }

  /** Who is parked after a step was parked before, or has just announced itself. */
  lemma ParkedBefore(v: Variant, s: State, e: Event, w: Tid)
    requires Step(v, s, e).Some? && w in Step(v, s, e).value.pcs && Step(v, s, e).value.pcs[w].Parked?
    ensures e == Park(w) || (w in s.pcs && s.pcs[w] == Step(v, s, e).value.pcs[w])
  {
  }

  lemma ServedPoppersStep(v: Variant, s: State, e: Event)
    requires WaitKept(s, s.At(e.t)) && Step(v, s, e).Some? && PoppersServed(s)
    ensures PoppersServed(Step(v, s, e).value)
  {
    var s' := Step(v, s, e).value;
    CountStep(v, s, e, ServesPoppers);
    if w :| w in Those(s'.pcs, ParkedPopper) {
      ParkedBefore(v, s, e, w);
      assert e != Park(w) ==> w in Those(s.pcs, ParkedPopper);
      if e.Signal? {
        if e.woken.Some? { SignalBalance(v, s, e.t, e.woken.value); } else { SignalNobody(v, s, e.t); }
      } else {
        PopperBalance(v, s, e);
      }
    }
  }

  lemma ServedPushersStep(v: Variant, s: State, e: Event)
    requires WaitKept(s, s.At(e.t)) && Step(v, s, e).Some? && PushersServed(s)
    requires 0 <= s.ring.length
    requires e.CommitClear? ==> Those(s.pcs, ParkedPusher) == {}
    ensures PushersServed(Step(v, s, e).value)
  {
    var s' := Step(v, s, e).value;
    CountStep(v, s, e, ServesPushers);
    if w :| w in Those(s'.pcs, ParkedPusher) {
      ParkedBefore(v, s, e, w);
      assert e != Park(w) ==> w in Those(s.pcs, ParkedPusher);
      if e.Signal? {
        if e.woken.Some? { SignalBalance(v, s, e.t, e.woken.value); } else { SignalNobody(v, s, e.t); }
      } else {
        PusherBalance(v, s, e);
      }
    }
  }

  /** Every step of a queue that looks again keeps the whole monitor invariant,
      as long as no clear commits while a pusher is parked. */
  lemma InvStep(v: Variant, s: State, e: Event)
    requires v.recheck && Inv(s) && Step(v, s, e).Some?
    requires e.CommitClear? ==> Those(s.pcs, ParkedPusher) == {}
    ensures Inv(Step(v, s, e).value)
  {
    ExclusiveStep(v, s, e);
    RingKeptStep(v, s, e);
    assert e.t in s.pcs ==> GuardKept(s, s.pcs[e.t]);
    CountedStep(v, s, e);
    ServedPoppersStep(v, s, e);
    ServedPushersStep(v, s, e);
  }

  lemma ClearCheckedStep(v: Variant, s: State, e: Event)
    requires v.clearChecksLocked && Exclusive(s) && ClearChecked(s) && WaitKept(s, s.At(e.t)) && Step(v, s, e).Some?
    ensures ClearChecked(Step(v, s, e).value)
  {
  }

  lemma SameSize(v: Variant, s: State, e: Event)
    requires Step(v, s, e).Some?
    ensures |Step(v, s, e).value.ring.slots| == |s.ring.slots|
  {
  }

  lemma NoWaiters(s: State)
    requires Counted(s) && s.waitingFull == 0
    ensures Those(s.pcs, ParkedPusher) == {}
  {
  }

  lemma InitInv(slots: seq<Record>)
    ensures Inv(Init(slots))
  {
  }

  /** Every step of the repaired queue, clear included, keeps the invariant. */
  lemma RepairedStep(s: State, e: Event)
    requires Inv(s) && ClearChecked(s) && Step(REPAIRED, s, e).Some?
    ensures var s' := Step(REPAIRED, s, e).value;
            Inv(s') && ClearChecked(s') && |s'.ring.slots| == |s.ring.slots|
  {
    if e.CommitClear? { NoWaiters(s); }
    InvStep(REPAIRED, s, e);
    assert e.t in s.pcs ==> GuardKept(s, s.pcs[e.t]);
    ClearCheckedStep(REPAIRED, s, e);
    SameSize(REPAIRED, s, e);
  }

  /** The monitor invariant holds in every state that any run of any number of
      threads, clears included, can reach. */
  lemma {:induction false} MonitorInvariant(slots: seq<Record>, es: seq<Event>)
    requires Exec(REPAIRED, Init(slots), es).Some?
    ensures var s := Exec(REPAIRED, Init(slots), es).value;
            Inv(s) && ClearChecked(s) && |s.ring.slots| == |slots|
  {
    if es == [] {
      InitInv(slots);
    } else {
      MonitorInvariant(slots, es[..|es| - 1]);
      var s, e := Exec(REPAIRED, Init(slots), es[..|es| - 1]).value, es[|es| - 1];
      RepairedStep(s, e);
    }
  }

  /** No wakeup is lost: whenever the mutex is free, a parked popper means that
      every queued item has its own popper already signalled and on the way,
      and a parked pusher means the same of every free slot. */
  lemma NoLostWakeup(slots: seq<Record>, es: seq<Event>)
    requires Exec(REPAIRED, Init(slots), es).Some?
    ensures var s := Exec(REPAIRED, Init(slots), es).value;
            s.holder.None? ==>
              && (Those(s.pcs, ParkedPopper) != {} ==> s.ring.length <= |Those(s.pcs, SignalledPopper)|)
              && (Those(s.pcs, ParkedPusher) != {} ==> |slots| - s.ring.length <= |Those(s.pcs, SignalledPusher)|)
  {
    MonitorInvariant(slots, es);
    var s := Exec(REPAIRED, Init(slots), es).value;
    if s.holder.None? {
      assert Those(s.pcs, ServesPoppers) == Those(s.pcs, SignalledPopper);
      assert Those(s.pcs, ServesPushers) == Those(s.pcs, SignalledPusher);
    }
  }

  /** A system in which every thread is idle or parked is not deadlocked: poppers
      are parked only on an empty queue, pushers only on a full one, so never both
      (unless the queue has no slot at all). */
  lemma OnlyJustifiedSleep(slots: seq<Record>, es: seq<Event>)
    requires Exec(REPAIRED, Init(slots), es).Some?
    requires var s := Exec(REPAIRED, Init(slots), es).value;
             forall t | t in s.pcs :: s.pcs[t].Idle? || s.pcs[t].Parked?
    ensures var s := Exec(REPAIRED, Init(slots), es).value;
            && s.holder.None?
            && (Those(s.pcs, ParkedPopper) != {} ==> s.ring.length == 0)
            && (Those(s.pcs, ParkedPusher) != {} ==> s.ring.length == |slots|)
            && (slots != [] ==> Those(s.pcs, ParkedPopper) == {} || Those(s.pcs, ParkedPusher) == {})
  {
    MonitorInvariant(slots, es);
    NoLostWakeup(slots, es);
    var s := Exec(REPAIRED, Init(slots), es).value;
    assert Those(s.pcs, SignalledPopper) == {} && Those(s.pcs, SignalledPusher) == {};
  }

  /** A thread moves on by itself: no new call, no failing lock, no timeout, no stray wakeup. */
  predicate OwnStep(e: Event) {
    !(e.Call? || e.LockFail? || e.TimeOut? || e.WaitError? || e.Spurious?)
  }

  ghost predicate CanMove(s: State) {
    exists e :: Step(REPAIRED, s, e).Some? && OwnStep(e)
  }

  lemma HolderCanMove(s: State, t: Tid)
    requires s.ring.Valid() && GuardKept(s, s.At(t)) && InsideLock(s.At(t))
    ensures CanMove(s)
  {
    var e: Event;
    match s.At(t) {
    case Checking(_, _) => e := Check(t);
    case Announced(_, _) => e := Park(t);
    case Committing(Push(x)) => PutAppends(s.ring, x); e := CommitPush(t, x);
    case Committing(Pop) => TakeRemovesOldest(s.ring); e := CommitPop(t, s.ring.slots[s.ring.head]);
    case Committing(Clear) => e := CommitClear(t);
    case Signalling(op) =>
      if w :| w in s.pcs && WaitsFor(s.pcs[w], op) { e := Signal(t, Some(w)); } else { e := Signal(t, None); }
    case Unlocking(_) => e := Unlock(t);
    }
    assert Step(REPAIRED, s, e).Some?;
  }

  lemma OutsiderCanMove(s: State, t: Tid)
    requires s.holder.None? && !InsideLock(s.At(t)) && !s.At(t).Idle? && !s.At(t).Parked?
    ensures CanMove(s)
  {
    var e: Event;
    match s.At(t) {
    case Prechecking => e := Precheck(t);
    case Locking(_, _) => e := Lock(t);
    case Woken(_, _, _) => e := Reacquire(t);
    case Returning(rc) => e := Return(t, rc);
    }
    assert Step(REPAIRED, s, e).Some?;
  }

  /** Progress: as long as some thread is neither idle nor parked, some thread can
      move on by itself. */
  lemma Progress(slots: seq<Record>, es: seq<Event>, t: Tid)
    requires Exec(REPAIRED, Init(slots), es).Some?
    requires var s := Exec(REPAIRED, Init(slots), es).value;
             !s.At(t).Idle? && !s.At(t).Parked?
    ensures CanMove(Exec(REPAIRED, Init(slots), es).value)
  {
    MonitorInvariant(slots, es);
    var s := Exec(REPAIRED, Init(slots), es).value;
    if s.holder.Some? {
      assert GuardKept(s, s.pcs[s.holder.value]);
      HolderCanMove(s, s.holder.value);
    } else {
      OutsiderCanMove(s, t);
    }
  }
}
