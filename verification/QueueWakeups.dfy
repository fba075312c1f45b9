/** Lost wakeups, for every variant of the queue: looking again after a wakeup or
    not, checking for waiters inside the lock before a clear or not. The source does
    neither (src/arch/posix/lsp_queue.c). */
module QueueWakeups {
  import opened LspTypes
  import opened Ring
  import opened QueueMonitor
  import opened QueueRuns
  import opened QueueAsWritten

  /** Threads look again after a wakeup, but clear still checks outside the lock. */
  const EARLY_CHECK := Variant(true, false)

  ghost predicate WakeupsKept(s: State) {
    s.holder.None? ==>
      && (Those(s.pcs, ParkedPopper) != {} ==> s.ring.length <= |Those(s.pcs, SignalledPopper)|)
      && (Those(s.pcs, ParkedPusher) != {} ==> |s.ring.slots| - s.ring.length <= |Those(s.pcs, SignalledPusher)|)
  }

  /** No run of these threads ever loses a wakeup. */
  ghost predicate NeverLost(v: Variant, slots: seq<Record>, r: Roles) {
    forall es, s :: Runs(v, slots, r, es, s) ==> WakeupsKept(s)
  }

  /** Threads that do not look again: one side is absent, or at most one pops and
      nobody is woken for nothing. */
  predicate OneLookWillDo(r: Roles) {
    r.pushers == {} || r.poppers == {} || (!r.spurious && |r.poppers| <= 1)
  }

  ghost predicate WakesAll(v: Variant, r: Roles) {
    (v.clearChecksLocked || NobodyClearsBesideAPusher(r)) && (v.recheck || OneLookWillDo(r))
  }

  // ---------------------------------------------------------------- sufficiency

  /** A thread past the pop guard, or signalled and not going to look, finds an item. */
  ghost predicate ItemKept(v: Variant, s: State, pc: Pc) {
    && (pc.Committing? && pc.op.Pop? ==> !s.Empty())
    && (!v.recheck ==> (SignalledPopper(pc) || (pc.Signalling? && pc.op.Push?) ==> !s.Empty()))
  }

  ghost predicate ThreadKept(s: State, r: Roles, t: Tid) {
    InRole(s.At(t), t, r) && WaitKept(s, s.At(t))
  }

  /** Does the length stay at or above zero? Not if threads commit blindly and nobody pushes. */
  predicate Guarded(v: Variant, r: Roles) {
    v.recheck || r.pushers != {}
  }

  ghost predicate ItemsKept(v: Variant, s: State) {
    && 0 <= s.ring.length
    && (forall t: Tid :: ItemKept(v, s, s.At(t)))
    && (!v.recheck ==> ClearsKept(v, s))
  }

  ghost predicate Awake(v: Variant, s: State, r: Roles) {
    && Exclusive(s) && Counted(s) && Served(s)
    && (forall t: Tid :: ThreadKept(s, r, t))
    && (v.clearChecksLocked ==> ClearChecked(s))
    && (Guarded(v, r) ==> ItemsKept(v, s))
  }

  lemma ThreadKeptStep(v: Variant, s: State, e: Event, r: Roles, t: Tid)
    requires ThreadKept(s, r, t) && Step(v, s, e).Some? && Allowed(e, r)
    requires InsideLock(s.At(t)) && InsideLock(s.At(e.t)) ==> t == e.t
    ensures ThreadKept(Step(v, s, e).value, r, t)
  {
    InRoleStep(v, s, e, t, r);
    if t == e.t { MoverWaitKept(v, s, e); } else { OtherWaitKept(v, s, e, t); }
  }

  lemma NoParkedPusher(v: Variant, s: State, c: Tid, r: Roles)
    requires WakesAll(v, r) && Awake(v, s, r) && s.At(c) == Committing(Clear)
    ensures Those(s.pcs, ParkedPusher) == {}
  {
    if v.clearChecksLocked {
      assert c in s.pcs;
      NoWaiters(s);
    } else {
      assert ThreadKept(s, r, c);
      forall w | w in s.pcs ensures !ParkedPusher(s.pcs[w]) { assert ThreadKept(s, r, w); }
    }
  }

  lemma NoPushersNoneParked(s: State, r: Roles)
    requires r.pushers == {} && forall t: Tid :: ThreadKept(s, r, t)
    ensures Those(s.pcs, ParkedPusher) == {}
  {
    forall w | w in s.pcs ensures !ParkedPusher(s.pcs[w]) { assert ThreadKept(s, r, w); }
  }

  lemma ServedStep(v: Variant, s: State, e: Event, r: Roles)
    requires WakesAll(v, r) && Awake(v, s, r) && Step(v, s, e).Some?
    requires forall t: Tid :: ThreadKept(Step(v, s, e).value, r, t)
    ensures Served(Step(v, s, e).value)
  {
    assert ThreadKept(s, r, e.t);
    ServedPoppersStep(v, s, e);
    if r.pushers == {} {
      NoPushersNoneParked(Step(v, s, e).value, r);
    } else {
      if e.CommitClear? { NoParkedPusher(v, s, e.t, r); }
      ServedPushersStep(v, s, e);
    }
  }

  /** The thread that moves. */
  lemma MoverItemKept(v: Variant, s: State, e: Event, r: Roles)
    requires WakesAll(v, r) && Guarded(v, r) && ThreadKept(s, r, e.t) && ItemKept(v, s, s.At(e.t))
    requires 0 <= s.ring.length && Step(v, s, e).Some? && Allowed(e, r)
    ensures var s' := Step(v, s, e).value;
            ItemKept(v, s', s'.At(e.t)) && 0 <= s'.ring.length
  {
  }

  /** The threads that do not. */
  lemma OtherItemKept(v: Variant, s: State, e: Event, r: Roles, t: Tid)
    requires WakesAll(v, r) && Guarded(v, r) && t != e.t && Step(v, s, e).Some?
    requires ThreadKept(s, r, t) && ThreadKept(s, r, e.t) && ItemKept(v, s, s.At(t)) && ItemKept(v, s, s.At(e.t))
    requires 0 <= s.ring.length && !(InsideLock(s.At(t)) && InsideLock(s.At(e.t)))
    requires !v.recheck ==> !(SawNobody(v, s.At(e.t)) && SignalledPopper(s.At(t)))
    ensures ItemKept(v, Step(v, s, e).value, Step(v, s, e).value.At(t))
  {
    OtherStands(v, s, e, t);
    if !v.recheck && e.CommitPop? && SignalledPopper(s.At(t)) { AtMostOne(t, e.t, r.poppers); }
  }

  /** The pusher that signals is not about to clear, and nobody else may be. */
  lemma SignallerMeetsNoClear(v: Variant, s: State, r: Roles, t: Tid, c: Tid)
    requires WakesAll(v, r) && ThreadKept(s, r, t) && ThreadKept(s, r, c)
    requires s.At(t).Signalling? && s.At(t).op.Push? && !(InsideLock(s.At(c)) && InsideLock(s.At(t)) && c != t)
    ensures !SawNobody(v, s.At(c))
  {
  }

  lemma ItemsKeptStep(v: Variant, s: State, e: Event, r: Roles)
    requires WakesAll(v, r) && Guarded(v, r) && Awake(v, s, r) && Step(v, s, e).Some? && Allowed(e, r)
    ensures ItemsKept(v, Step(v, s, e).value)
  {
    var s' := Step(v, s, e).value;
    assert ThreadKept(s, r, e.t) && ItemKept(v, s, s.At(e.t));
    MoverItemKept(v, s, e, r);
    forall t: Tid | t != e.t ensures ItemKept(v, s', s'.At(t)) {
      assert ThreadKept(s, r, t) && ItemKept(v, s, s.At(t));
      OtherItemKept(v, s, e, r, t);
    }
    if !v.recheck {
      assert forall t: Tid :: ThreadKept(s, r, t) ==> InRole(s.At(t), t, r);
      if e.Signal? && s.At(e.t).op.Push? {
        forall c: Tid ensures !SawNobody(v, s.At(c)) {
          assert ThreadKept(s, r, c);
          SignallerMeetsNoClear(v, s, r, e.t, c);
        }
      }
      ClearsKeptStep(v, s, e, r);
    }
  }

  lemma AwakeStep(v: Variant, s: State, e: Event, r: Roles)
    requires WakesAll(v, r) && Awake(v, s, r) && Step(v, s, e).Some? && Allowed(e, r)
    ensures Awake(v, Step(v, s, e).value, r)
  {
    var s' := Step(v, s, e).value;
    assert ThreadKept(s, r, e.t);
    ExclusiveStep(v, s, e);
    CountedStep(v, s, e);
    forall t: Tid ensures ThreadKept(s', r, t) {
      assert ThreadKept(s, r, t);
      ThreadKeptStep(v, s, e, r, t);
    }
    ServedStep(v, s, e, r);
    if v.clearChecksLocked { ClearCheckedStep(v, s, e); }
    if Guarded(v, r) { ItemsKeptStep(v, s, e, r); }
  }

  lemma {:induction false} AwakeAlways(v: Variant, slots: seq<Record>, r: Roles, es: seq<Event>, s: State)
    requires WakesAll(v, r) && Runs(v, slots, r, es, s)
    ensures Awake(v, s, r)
  {
    if es == [] {
      InitInv(slots);
    } else {
      var before, e := es[..|es| - 1], es[|es| - 1];
      var m := Exec(v, Init(slots), before).value;
      AwakeAlways(v, slots, r, before, m);
      AwakeStep(v, m, e, r);
    }
  }

  lemma ServedKeepsWakeups(s: State)
    requires Exclusive(s) && Served(s)
    ensures WakeupsKept(s)
  {
    if s.holder.None? {
      assert Those(s.pcs, ServesPoppers) == Those(s.pcs, SignalledPopper);
      assert Those(s.pcs, ServesPushers) == Those(s.pcs, SignalledPusher);
    }
  }

  // ---------------------------------------------------------------- necessity

  /** The run that forgets a pusher: clear sees no waiters; the pusher fills the
      queue and parks; clear empties the queue and signals nobody. */
  lemma PusherForgotten(v: Variant, slots: seq<Record>, r: Roles, a: Tid, c: Tid) returns (es: seq<Event>, s: State)
    requires !v.clearChecksLocked && slots != [] && a in r.pushers && c in r.clearers && a != c
    ensures Runs(v, slots, r, es, s)
    ensures s.holder.None? && s.ring.length == 0 && |s.ring.slots| == |slots|
    ensures s.At(a) == Parked(Push([]), Forever) && forall t: Tid | t != a :: s.At(t).Idle?
  {
    es, s := SeesNoWaiters(v, slots, r, [], Init(slots), c);
    es, s := Filled(v, slots, r, es, s, a, |slots|);
    es, s := SleepyCall(v, slots, r, es, s, a, Push([]));
    es, s := ClearsLate(v, slots, r, es, s, c);
    es, s := GoAlone(v, slots, r, es, s, Return(c, LSP_ERR_NONE));
  }

  /** And the popper of a harmless company follows it: one producer, one consumer
      that also clears, both asleep for ever on an empty queue, as the source has it. */
  lemma HarmlessDeadlock(slots: seq<Record>, p: Tid, c: Tid) returns (es: seq<Event>, s: State)
    requires slots != [] && p != c
    ensures Harmless(Roles({p}, {c}, {c}, false)) && Runs(AS_WRITTEN, slots, Roles({p}, {c}, {c}, false), es, s)
    ensures s.holder.None? && s.ring.length == 0
    ensures s.At(p) == Parked(Push([]), Forever) && s.At(c) == Parked(Pop, Forever)
    ensures forall t: Tid | t != p && t != c :: s.At(t).Idle?
  {
    var r := Roles({p}, {c}, {c}, false);
    es, s := PusherForgotten(AS_WRITTEN, slots, r, p, c);
    es, s := SleepyCall(AS_WRITTEN, slots, r, es, s, c, Pop);
  }

  /** A popper that did not look again has taken the length below zero: the next
      pusher takes the queue for full, and parks for good. */
  lemma PusherMisled(v: Variant, slots: seq<Record>, r: Roles, p: Tid, c: Tid) returns (es: seq<Event>, s: State)
    requires !v.recheck && slots != [] && p in r.pushers && c in r.poppers && (r.spurious || |r.poppers| >= 2)
    ensures Runs(v, slots, r, es, s)
    ensures s.holder.None? && s.ring.length == -1
    ensures s.At(p) == Parked(Push([]), Forever) && forall t: Tid | t != p :: s.At(t).Idle?
  {
    if r.spurious {
      es, s := StrayPop(v, slots, r, c);
    } else {
      var a, b := PickTwo(r.poppers, p);
      es, s := StolenItem(v, slots, r, p, a, b);
    }
    es, s := SleepyCall(v, slots, r, es, s, p, Push([]));
  }

  lemma ForgottenIsLost(s: State, p: Tid)
    requires s.holder.None? && s.At(p) == Parked(Push([]), Forever) && forall t: Tid | t != p :: s.At(t).Idle?
    requires s.ring.length < |s.ring.slots|
    ensures !WakeupsKept(s)
  {
    assert p in Those(s.pcs, ParkedPusher);
    assert forall t | t in s.pcs :: s.pcs[t] == s.At(t);
    assert Those(s.pcs, SignalledPusher) == {};
  }

  /** Every variant, any capacity above zero, any threads: no run loses a wakeup iff
      the check of clear is inside the lock or nobody clears beside a different thread
      that pushes, and threads look again or one look will do. */
  lemma WakeupsSafeIff(v: Variant, slots: seq<Record>, r: Roles)
    requires slots != []
    ensures NeverLost(v, slots, r) <==> WakesAll(v, r)
  {
    if WakesAll(v, r) {
      forall es, s | Runs(v, slots, r, es, s) ensures WakeupsKept(s) {
        AwakeAlways(v, slots, r, es, s);
        ServedKeepsWakeups(s);
      }
    } else if !v.clearChecksLocked && !NobodyClearsBesideAPusher(r) {
      var a, c :| a in r.pushers && c in r.clearers && a != c;
      var es, s := PusherForgotten(v, slots, r, a, c);
      ForgottenIsLost(s, a);
    } else {
      var p, c :| p in r.pushers && c in r.poppers;
      var es, s := PusherMisled(v, slots, r, p, c);
      ForgottenIsLost(s, p);
    }
  }

  /** The source's own queue. */
  lemma AsWrittenWakeupsIff(slots: seq<Record>, r: Roles)
    requires slots != []
    ensures NeverLost(AS_WRITTEN, slots, r) <==> NobodyClearsBesideAPusher(r) && OneLookWillDo(r)
  {
    WakeupsSafeIff(AS_WRITTEN, slots, r);
  }

  /** With the check outside the lock as the only fault. */
  lemma EarlyCheckSafeIff(slots: seq<Record>, r: Roles)
    requires slots != []
    ensures NeverLost(EARLY_CHECK, slots, r) <==> NobodyClearsBesideAPusher(r)
  {
    WakeupsSafeIff(EARLY_CHECK, slots, r);
  }

  /** So who may use the source's queue together? They find it first in, first out and
      are never left asleep, in every run, iff they are harmless and nobody clears
      beside a different thread that pushes. */
  lemma AsWrittenUsableIff(slots: seq<Record>, r: Roles)
    requires slots != []
    ensures Fifo(slots, r) && NeverLost(AS_WRITTEN, slots, r) <==> Harmless(r) && NobodyClearsBesideAPusher(r)
  {
    AsWrittenSafeIff(slots, r);
    AsWrittenWakeupsIff(slots, r);
  }
}
