/** Building blocks for runs of the blocking queue in which each thread keeps to
    its role. */
module QueueRuns {
  import opened LspTypes
  import opened Ring
  import opened QueueMonitor

  /** Who may push, pop and clear, and whether the condition variables may wake a
      thread that was not signalled. */
  datatype Roles = Roles(pushers: set<Tid>, poppers: set<Tid>, clearers: set<Tid>, spurious: bool)

  predicate Allowed(e: Event, roles: Roles) {
    && (e.Spurious? ==> roles.spurious)
    && (e.Call? && e.op.Push? ==> e.t in roles.pushers)
    && (e.Call? && e.op.Pop? ==> e.t in roles.poppers)
    && (e.Call? && e.op.Clear? ==> e.t in roles.clearers)
  }

  ghost predicate Runs(v: Variant, slots: seq<Record>, roles: Roles, es: seq<Event>, s: State) {
    (forall e | e in es :: Allowed(e, roles)) && Exec(v, Init(slots), es) == Some(s)
  }

  /** No thread clears beside a different thread that pushes. */
  ghost predicate NobodyClearsBesideAPusher(roles: Roles) {
    forall a, c | a in roles.pushers && c in roles.clearers :: a == c
  }

  lemma AtMostOne(a: Tid, b: Tid, ts: set<Tid>)
    requires |ts| <= 1 && a in ts && b in ts
    ensures a == b
  {
    var rest := ts - {a};
    assert |rest| == 0;
    assert b !in rest;
  }

  lemma PickTwo(ts: set<Tid>, other: Tid) returns (a: Tid, b: Tid)
    requires |ts| >= 2
    ensures a in ts && b in ts && a != b && a != other
  {
    a :| a in ts;
    if a == other {
      b := a;
      var rest := ts - {a};
      assert |rest| == |ts| - 1;
      a :| a in rest;
    } else {
      var rest := ts - {a};
      assert |rest| == |ts| - 1;
      b :| b in rest;
    }
  }

  // ---------------------------------------------------------------- what roles keep

  /** A thread only ever does what its role allows. */
  predicate InRole(pc: Pc, t: Tid, r: Roles) {
    && (pc.Prechecking? ==> t in r.clearers)
    && (pc.Locking? || pc.Checking? || pc.Announced? || pc.Parked? || pc.Woken? || pc.Committing? || pc.Signalling? ==>
          match pc.op
          case Push(_) => t in r.pushers
          case Pop => t in r.poppers
          case Clear => t in r.clearers && (pc.Locking? || pc.Checking? || pc.Committing?))
  }

  lemma InRoleStep(v: Variant, s: State, e: Event, t: Tid, r: Roles)
    requires Step(v, s, e).Some? && Allowed(e, r) && InRole(s.At(t), t, r)
    ensures InRole(Step(v, s, e).value.At(t), t, r)
  {
    if t != e.t { OtherStands(v, s, e, t); }
  }

  /** Inside clear, past the look at the waiter counters. */
  predicate SawNobody(v: Variant, pc: Pc) {
    (pc.Committing? || ((pc.Locking? || pc.Checking?) && !v.clearChecksLocked)) && pc.op.Clear?
  }

  /** While a signalled popper is on its way, nobody is about to clear. */
  ghost predicate ClearsKept(v: Variant, s: State) {
    forall c: Tid, w: Tid :: !(SawNobody(v, s.At(c)) && SignalledPopper(s.At(w)))
  }

  /** The counters do not miss a popper that is on its way. */
  lemma StillCounted(s: State, w: Tid)
    requires Counted(s) && SignalledPopper(s.At(w))
    ensures s.waitingEmpty > 0
  {
    assert w in Those(s.pcs, WaitingEmpty);
  }

  /** How a popper gets on its way, and how a thread comes to be about to clear. */
  lemma NewlySignalled(v: Variant, s: State, e: Event, r: Roles, w: Tid)
    requires InRole(s.At(e.t), e.t, r) && Step(v, s, e).Some? && Allowed(e, r)
    requires SignalledPopper(Step(v, s, e).value.At(w)) && !SignalledPopper(s.At(w))
    ensures || (e == Signal(e.t, Some(w)) && s.At(e.t).op.Push? && s.At(w).Parked? && s.At(w).op.Pop?)
            || (e == Spurious(w) && r.spurious && w in r.poppers)
  {
    if w != e.t { OtherStands(v, s, e, w); }
  }

  lemma NewlySaw(v: Variant, s: State, e: Event, r: Roles, c: Tid)
    requires InRole(s.At(e.t), e.t, r) && Step(v, s, e).Some?
    requires SawNobody(v, Step(v, s, e).value.At(c)) && !SawNobody(v, s.At(c))
    ensures e.t == c && !e.Signal? && s.waitingEmpty == 0
  {
    if c != e.t { OtherStands(v, s, e, c); }
  }

  lemma ClearsKeptStep(v: Variant, s: State, e: Event, r: Roles)
    requires Counted(s) && ClearsKept(v, s) && Step(v, s, e).Some? && Allowed(e, r)
    requires forall t: Tid :: InRole(s.At(t), t, r)
    requires e.Signal? && s.At(e.t).op.Push? && e.woken.Some? ==> forall c: Tid :: !SawNobody(v, s.At(c))
    requires e.Spurious? ==> r.poppers == {}
    ensures ClearsKept(v, Step(v, s, e).value)
  {
    var s' := Step(v, s, e).value;
    assert InRole(s.At(e.t), e.t, r);
    forall c: Tid, w: Tid ensures !(SawNobody(v, s'.At(c)) && SignalledPopper(s'.At(w))) {
      if SawNobody(v, s'.At(c)) && SignalledPopper(s'.At(w)) {
        if !SawNobody(v, s.At(c)) {
          NewlySaw(v, s, e, r, c);
          if w != e.t { OtherStands(v, s, e, w); }
          StillCounted(s, w);
        } else if !SignalledPopper(s.At(w)) {
          NewlySignalled(v, s, e, r, w);
        }
      }
    }
  }

  // ---------------------------------------------------------------- runs, piece by piece

  /** One more event of a run. */
  lemma Go(v: Variant, slots: seq<Record>, roles: Roles, es: seq<Event>, s: State, e: Event)
    returns (es': seq<Event>, s': State)
    requires Runs(v, slots, roles, es, s)
    requires Allowed(e, roles) && Step(v, s, e).Some?
    ensures Runs(v, slots, roles, es', s') && Step(v, s, e) == Some(s')
  {
    es', s' := Extend(v, Init(slots), es, s, e);
  }

  /** One more event that moves one thread only. */
  lemma GoAlone(v: Variant, slots: seq<Record>, roles: Roles, es: seq<Event>, s: State, e: Event)
    returns (es': seq<Event>, s': State)
    requires Runs(v, slots, roles, es, s)
    requires Allowed(e, roles) && Step(v, s, e).Some? && !e.Signal?
    ensures Runs(v, slots, roles, es', s') && Step(v, s, e) == Some(s')
    ensures forall u: Tid | u != e.t :: s'.At(u) == s.At(u)
  {
    es', s' := Go(v, slots, roles, es, s, e);
    forall u: Tid | u != e.t ensures s'.At(u) == s.At(u) { OtherStands(v, s, e, u); }
  }

  /** From the call into the lock. */
  lemma GetsIn(v: Variant, slots: seq<Record>, roles: Roles, es: seq<Event>, s: State, t: Tid, op: Op, wait: Wait)
    returns (es': seq<Event>, s': State)
    requires Runs(v, slots, roles, es, s) && Allowed(Call(t, op, wait), roles) && !op.Clear?
    requires s.holder.None? && s.At(t).Idle?
    ensures Runs(v, slots, roles, es', s')
    ensures s'.ring == s.ring && s'.At(t) == Checking(op, wait)
    ensures forall u: Tid | u != t :: s'.At(u) == s.At(u)
  {
    es', s' := GoAlone(v, slots, roles, es, s, Call(t, op, wait));
    es', s' := GoAlone(v, slots, roles, es', s', Lock(t));
  }

  lemma Signals(v: Variant, slots: seq<Record>, roles: Roles, es: seq<Event>, s: State, t: Tid, woken: Option<Tid>)
    returns (es': seq<Event>, s': State)
    requires Runs(v, slots, roles, es, s) && s.At(t).Signalling?
    requires woken.None? ==> forall u: Tid :: !WaitsFor(s.At(u), s.At(t).op)
    requires woken.Some? ==> WaitsFor(s.At(woken.value), s.At(t).op)
    ensures Runs(v, slots, roles, es', s')
    ensures s'.ring == s.ring && s'.At(t) == Unlocking(LSP_ERR_NONE)
    ensures forall u: Tid | u != t :: s'.At(u) ==
              if woken == Some(u) then Woken(s.At(u).op, s.At(u).wait, Signalled) else s.At(u)
  {
    assert forall w | w in s.pcs :: s.pcs[w] == s.At(w);
    es', s' := Go(v, slots, roles, es, s, Signal(t, woken));
  }

  /** From a commit to the return. */
  lemma SignalAndLeave(v: Variant, slots: seq<Record>, roles: Roles, es: seq<Event>, s: State,
                       t: Tid, woken: Option<Tid>)
    returns (es': seq<Event>, s': State)
    requires Runs(v, slots, roles, es, s) && s.At(t).Signalling?
    requires woken.None? ==> forall u: Tid :: !WaitsFor(s.At(u), s.At(t).op)
    requires woken.Some? ==> WaitsFor(s.At(woken.value), s.At(t).op)
    ensures Runs(v, slots, roles, es', s')
    ensures s'.ring == s.ring && s'.holder.None? && s'.At(t).Idle?
    ensures forall u: Tid | u != t :: s'.At(u) ==
              if woken == Some(u) then Woken(s.At(u).op, s.At(u).wait, Signalled) else s.At(u)
  {
    es', s' := Signals(v, slots, roles, es, s, t, woken);
    es', s' := GoAlone(v, slots, roles, es', s', Unlock(t));
    es', s' := GoAlone(v, slots, roles, es', s', Return(t, LSP_ERR_NONE));
  }

  /** From the call through the open guard. */
  lemma EntersOpen(v: Variant, slots: seq<Record>, roles: Roles, es: seq<Event>, s: State, t: Tid, op: Op)
    returns (es': seq<Event>, s': State)
    requires Runs(v, slots, roles, es, s) && Allowed(Call(t, op, NoWait), roles) && !op.Clear?
    requires s.holder.None? && s.At(t).Idle?
    requires if op.Push? then !s.Full() else !s.Empty()
    ensures Runs(v, slots, roles, es', s')
    ensures s'.ring == s.ring && s'.At(t) == Committing(op)
    ensures forall u: Tid | u != t :: s'.At(u) == s.At(u)
  {
    es', s' := GetsIn(v, slots, roles, es, s, t, op, NoWait);
    es', s' := GoAlone(v, slots, roles, es', s', Check(t));
  }

  /** A whole push or pop that finds its guard open, waking `woken` (nobody, if
      nobody waits on the other side). */
  lemma QuickCall(v: Variant, slots: seq<Record>, roles: Roles, es: seq<Event>, s: State,
                  t: Tid, op: Op, woken: Option<Tid>)
    returns (es': seq<Event>, s': State)
    requires Runs(v, slots, roles, es, s) && Allowed(Call(t, op, NoWait), roles) && !op.Clear?
    requires s.holder.None? && s.At(t).Idle? && s.ring.CursorsInRange()
    requires if op.Push? then !s.Full() else !s.Empty()
    requires woken.None? ==> forall u: Tid :: !WaitsFor(s.At(u), op)
    requires woken.Some? ==> WaitsFor(s.At(woken.value), op)
    ensures Runs(v, slots, roles, es', s')
    ensures s'.ring == (if op.Push? then s.ring.Put(op.item) else s.ring.Take())
    ensures s'.holder.None? && s'.At(t).Idle?
    ensures forall u: Tid | u != t :: s'.At(u) ==
              if woken == Some(u) then Woken(s.At(u).op, s.At(u).wait, Signalled) else s.At(u)
  {
    es', s' := EntersOpen(v, slots, roles, es, s, t, op);
    es', s' := GoAlone(v, slots, roles, es', s',
                  if op.Push? then CommitPush(t, op.item) else CommitPop(t, s.ring.slots[s.ring.head]));
    es', s' := SignalAndLeave(v, slots, roles, es', s', t, woken);
  }

  /** A call that finds its guard closed and goes to sleep. */
  lemma SleepyCall(v: Variant, slots: seq<Record>, roles: Roles, es: seq<Event>, s: State, t: Tid, op: Op)
    returns (es': seq<Event>, s': State)
    requires Runs(v, slots, roles, es, s) && Allowed(Call(t, op, Forever), roles) && !op.Clear?
    requires s.holder.None? && s.At(t).Idle?
    requires if op.Push? then s.Full() else s.Empty()
    ensures Runs(v, slots, roles, es', s')
    ensures s'.ring == s.ring && s'.holder.None? && s'.At(t) == Parked(op, Forever)
    ensures forall u: Tid | u != t :: s'.At(u) == s.At(u)
  {
    es', s' := GetsIn(v, slots, roles, es, s, t, op, Forever);
    es', s' := GoAlone(v, slots, roles, es', s', Check(t));
    es', s' := GoAlone(v, slots, roles, es', s', Park(t));
  }

  /** n more pushes in a row by one thread, into free slots. */
  lemma {:induction false} Filled(v: Variant, slots: seq<Record>, roles: Roles, es: seq<Event>, s: State, t: Tid,
                                   n: nat)
    returns (es': seq<Event>, s': State)
    requires Runs(v, slots, roles, es, s) && t in roles.pushers
    requires s.holder.None? && s.At(t).Idle? && s.ring.Valid() && s.ring.length + n <= |s.ring.slots|
    requires forall u: Tid :: !WaitsFor(s.At(u), Push([]))
    ensures Runs(v, slots, roles, es', s') && s'.ring.Valid()
    ensures s'.ring.length == s.ring.length + n && |s'.ring.slots| == |s.ring.slots|
    ensures s'.holder.None? && forall u: Tid :: s'.At(u) == s.At(u)
  {
    if n == 0 {
      es', s' := es, s;
    } else {
      es', s' := Filled(v, slots, roles, es, s, t, n - 1);
      PutAppends(s'.ring, []);
      es', s' := QuickCall(v, slots, roles, es', s', t, Push([]), None);
    }
  }

  /** The early check of clear, in a state without waiters. */
  lemma SeesNoWaiters(v: Variant, slots: seq<Record>, roles: Roles, es: seq<Event>, s: State, c: Tid)
    returns (es': seq<Event>, s': State)
    requires !v.clearChecksLocked && Runs(v, slots, roles, es, s) && c in roles.clearers
    requires s.At(c).Idle? && s.waitingEmpty == 0 && s.waitingFull == 0
    ensures Runs(v, slots, roles, es', s')
    ensures s'.ring == s.ring && s'.holder == s.holder && s'.At(c) == Locking(Clear, Forever)
    ensures forall u: Tid | u != c :: s'.At(u) == s.At(u)
  {
    es', s' := GoAlone(v, slots, roles, es, s, Call(c, Clear, NoWait));
    es', s' := GoAlone(v, slots, roles, es', s', Precheck(c));
  }

  /** The rest of clear, whatever happened in between. */
  lemma ClearsLate(v: Variant, slots: seq<Record>, roles: Roles, es: seq<Event>, s: State, c: Tid)
    returns (es': seq<Event>, s': State)
    requires !v.clearChecksLocked && Runs(v, slots, roles, es, s)
    requires s.holder.None? && s.At(c) == Locking(Clear, Forever)
    ensures Runs(v, slots, roles, es', s')
    ensures s'.ring == s.ring.Reset() && s'.holder.None? && s'.At(c) == Returning(LSP_ERR_NONE)
    ensures forall u: Tid | u != c :: s'.At(u) == s.At(u)
  {
    es', s' := GetsToClear(v, slots, roles, es, s, c);
    es', s' := GoAlone(v, slots, roles, es', s', CommitClear(c));
    es', s' := GoAlone(v, slots, roles, es', s', Unlock(c));
  }

  lemma GetsToClear(v: Variant, slots: seq<Record>, roles: Roles, es: seq<Event>, s: State, c: Tid)
    returns (es': seq<Event>, s': State)
    requires !v.clearChecksLocked && Runs(v, slots, roles, es, s)
    requires s.holder.None? && s.At(c) == Locking(Clear, Forever)
    ensures Runs(v, slots, roles, es', s')
    ensures s'.ring == s.ring && s'.At(c) == Committing(Clear)
    ensures forall u: Tid | u != c :: s'.At(u) == s.At(u)
  {
    es', s' := GoAlone(v, slots, roles, es, s, Lock(c));
    es', s' := GoAlone(v, slots, roles, es', s', Check(c));
  }

  /** A thread that does not look again: signalled, it takes the lock back, commits
      whatever the length is by now, and returns. */
  lemma BlindCall(v: Variant, slots: seq<Record>, roles: Roles, es: seq<Event>, s: State, t: Tid)
    returns (es': seq<Event>, s': State)
    requires !v.recheck && Runs(v, slots, roles, es, s) && s.holder.None? && s.ring.CursorsInRange()
    requires s.At(t).Woken? && s.At(t).cause.Signalled? && !s.At(t).op.Clear?
    requires forall u: Tid :: !WaitsFor(s.At(u), s.At(t).op)
    ensures Runs(v, slots, roles, es', s') && s'.holder.None? && s'.At(t).Idle?
    ensures s'.ring == (if s.At(t).op.Push? then s.ring.Put(s.At(t).op.item) else s.ring.Take())
    ensures forall u: Tid | u != t :: s'.At(u) == s.At(u)
  {
    var op := s.At(t).op;
    es', s' := GoesOnBlindly(v, slots, roles, es, s, t);
    assert forall u: Tid :: !WaitsFor(s'.At(u), op);
    es', s' := SignalAndLeave(v, slots, roles, es', s', t, None);
  }

  lemma GoesOnBlindly(v: Variant, slots: seq<Record>, roles: Roles, es: seq<Event>, s: State, t: Tid)
    returns (es': seq<Event>, s': State)
    requires !v.recheck && Runs(v, slots, roles, es, s) && s.holder.None? && s.ring.CursorsInRange()
    requires s.At(t).Woken? && s.At(t).cause.Signalled? && !s.At(t).op.Clear?
    ensures Runs(v, slots, roles, es', s') && s'.At(t) == Signalling(s.At(t).op)
    ensures s'.ring == (if s.At(t).op.Push? then s.ring.Put(s.At(t).op.item) else s.ring.Take())
    ensures forall u: Tid | u != t :: s'.At(u) == s.At(u)
  {
    var op := s.At(t).op;
    es', s' := GoAlone(v, slots, roles, es, s, Reacquire(t));
    es', s' := GoAlone(v, slots, roles, es', s',
                  if op.Push? then CommitPush(t, op.item) else CommitPop(t, s.ring.slots[s.ring.head]));
  }

  /** Everybody is idle, and the mutex is free. */
  ghost predicate AllIdle(s: State) {
    s.holder.None? && forall t: Tid :: s.At(t).Idle?
  }

  /** Two poppers and a pusher: the second popper takes the item the first was woken for. */
  lemma StolenItem(v: Variant, slots: seq<Record>, r: Roles, p: Tid, a: Tid, b: Tid)
    returns (es: seq<Event>, s: State)
    requires !v.recheck && slots != []
    requires p in r.pushers && a in r.poppers && b in r.poppers && a != p && a != b
    ensures Runs(v, slots, r, es, s) && s.ring.length == -1 && AllIdle(s)
  {
    es, s := SleepyCall(v, slots, r, [], Init(slots), a, Pop);
    es, s := QuickCall(v, slots, r, es, s, p, Push([]), Some(a));
    es, s := QuickCall(v, slots, r, es, s, b, Pop, None);
    es, s := BlindCall(v, slots, r, es, s, a);
  }

  /** A popper alone, and a stray wakeup. */
  lemma StrayPop(v: Variant, slots: seq<Record>, r: Roles, c: Tid) returns (es: seq<Event>, s: State)
    requires !v.recheck && slots != [] && c in r.poppers && r.spurious
    ensures Runs(v, slots, r, es, s) && s.ring.length == -1 && AllIdle(s)
  {
    es, s := SleepyCall(v, slots, r, [], Init(slots), c, Pop);
    es, s := GoAlone(v, slots, r, es, s, Spurious(c));
    assert forall u: Tid | u != c :: s.At(u).Idle?;
    es, s := BlindCall(v, slots, r, es, s, c);
  }
}
