/** The queue exactly as the source has it: a woken thread does not look at its
    guard again, and clear reads the waiter counters before it locks
    (src/arch/posix/lsp_queue.c). Which threads may use such a queue together and
    still find its length and its order in one piece? (Whether they are woken is
    the question of QueueWakeups.) */
module QueueAsWritten {
  import opened LspTypes
  import opened Ring
  import opened QueueMonitor
  import opened QueueRuns
  import QueueFifo

  /** No run of these threads drives the length out of its range. */
  ghost predicate Safe(slots: seq<Record>, r: Roles) {
    forall es, s :: Runs(AS_WRITTEN, slots, r, es, s) ==> 0 <= s.ring.length <= |slots|
  }

  /** Every run of these threads is a history of the sequential bounded queue, and
      the ring holds what that queue holds. */
  ghost predicate Fifo(slots: seq<Record>, r: Roles) {
    forall es, s :: Runs(AS_WRITTEN, slots, r, es, s) ==>
      s.ring.Valid() && QueueFifo.AbsExec(|slots|, es) == Some(s.ring.Contents())
  }

  /** At most one pusher and one popper, and no third thread that clears. */
  predicate AtMostTwo(r: Roles) {
    |r.pushers| <= 1 && |r.poppers| <= 1 && (r.clearers <= r.pushers + r.poppers || r.pushers == r.poppers)
  }

  /** With stray wakeups nobody may wait; without them one side is absent, or there
      are at most two threads. This is about length and order only: harmless
      threads may still sleep for ever. */
  predicate Harmless(r: Roles) {
    if r.spurious then r.pushers == {} && r.poppers == {}
    else r.pushers == {} || r.poppers == {} || AtMostTwo(r)
  }

  // ---------------------------------------------------------------- sufficiency

  /** A guard found open, or a signal received, still means what it did. */
  ghost predicate StillOpen(s: State, r: Roles, pc: Pc) {
    && (pc.Committing? && pc.op.Push? ==> !s.Full())
    && (pc.Committing? && pc.op.Pop? ==> !s.Empty())
    && (pc.Signalling? && pc.op.Push? ==> !s.Empty())
    && (pc.Signalling? && pc.op.Pop? ==> !s.Full())
    && (SignalledPusher(pc) ==> !s.Full() && r.poppers != {})
    && (SignalledPopper(pc) ==> !s.Empty() && r.pushers != {})
  }

  ghost predicate PcKept(s: State, r: Roles, t: Tid) {
    InRole(s.At(t), t, r) && StillOpen(s, r, s.At(t))
  }

  ghost predicate Kept(s: State, r: Roles) {
    Exclusive(s) && s.ring.Valid() && Counted(s) && ClearsKept(AS_WRITTEN, s) && forall t: Tid :: PcKept(s, r, t)
  }

  /** The thread that moves: a commit, or another step. */
  lemma CommitKept(s: State, e: Event, r: Roles)
    requires s.ring.Valid() && PcKept(s, r, e.t) && s.At(e.t).Committing?
    requires Step(AS_WRITTEN, s, e).Some? && Allowed(e, r)
    ensures StillOpen(Step(AS_WRITTEN, s, e).value, r, Step(AS_WRITTEN, s, e).value.At(e.t))
  {
  }

  lemma MoverKept(s: State, e: Event, r: Roles)
    requires Harmless(r) && s.ring.Valid() && PcKept(s, r, e.t)
    requires Step(AS_WRITTEN, s, e).Some? && Allowed(e, r)
    ensures PcKept(Step(AS_WRITTEN, s, e).value, r, e.t)
  {
    InRoleStep(AS_WRITTEN, s, e, e.t, r);
    if s.At(e.t).Committing? { CommitKept(s, e, r); }
  }

  /** The threads that do not. */
  lemma OthersKept(s: State, e: Event, r: Roles, t: Tid)
    requires Harmless(r) && s.ring.Valid() && PcKept(s, r, t) && PcKept(s, r, e.t)
    requires !(SawNobody(AS_WRITTEN, s.At(e.t)) && SignalledPopper(s.At(t)))
    requires !(InsideLock(s.At(t)) && InsideLock(s.At(e.t)))
    requires Step(AS_WRITTEN, s, e).Some? && t != e.t
    ensures PcKept(Step(AS_WRITTEN, s, e).value, r, t)
  {
    OtherStands(AS_WRITTEN, s, e, t);
    if e.CommitPush? && SignalledPusher(s.At(t)) { AtMostOne(t, e.t, r.pushers); }
    if e.CommitPop? && SignalledPopper(s.At(t)) { AtMostOne(t, e.t, r.poppers); }
  }

  /** The pusher signals: the clearer would have to be one of the two, but one is
      signalling and the other parked. */
  lemma SignalMeetsNoClear(s: State, r: Roles, t: Tid, w: Tid, c: Tid)
    requires Harmless(r) && PcKept(s, r, t) && PcKept(s, r, w) && PcKept(s, r, c)
    requires s.At(t).Signalling? && s.At(t).op.Push? && s.At(w).Parked? && s.At(w).op.Pop?
    ensures !SawNobody(AS_WRITTEN, s.At(c))
  {
    if SawNobody(AS_WRITTEN, s.At(c)) {
      if r.pushers == r.poppers { AtMostOne(t, w, r.pushers); }
      if c in r.pushers { AtMostOne(c, t, r.pushers); }
      if c in r.poppers { AtMostOne(c, w, r.poppers); }
    }
  }

  lemma KeptStep(s: State, e: Event, r: Roles)
    requires Harmless(r) && Kept(s, r) && Step(AS_WRITTEN, s, e).Some? && Allowed(e, r)
    ensures Kept(Step(AS_WRITTEN, s, e).value, r)
    ensures var s' := Step(AS_WRITTEN, s, e).value;
            QueueFifo.AbsStep(|s.ring.slots|, s.ring.Contents(), e) == Some(s'.ring.Contents())
  {
    ExclusiveStep(AS_WRITTEN, s, e);
    assert PcKept(s, r, e.t);
    QueueFifo.StepRefines(AS_WRITTEN, s, e);
    CountedStep(AS_WRITTEN, s, e);
    assert forall t: Tid :: PcKept(s, r, t) ==> InRole(s.At(t), t, r);
    if e.Signal? && s.At(e.t).op.Push? && e.woken.Some? {
      forall c: Tid ensures !SawNobody(AS_WRITTEN, s.At(c)) {
        assert PcKept(s, r, c) && PcKept(s, r, e.woken.value);
        SignalMeetsNoClear(s, r, e.t, e.woken.value, c);
      }
    }
    ClearsKeptStep(AS_WRITTEN, s, e, r);
    MoverKept(s, e, r);
    forall t: Tid | t != e.t ensures PcKept(Step(AS_WRITTEN, s, e).value, r, t) {
      assert PcKept(s, r, t);
      OthersKept(s, e, r, t);
    }
  }

  lemma {:induction false} KeptAlways(slots: seq<Record>, r: Roles, es: seq<Event>, s: State)
    requires Harmless(r) && Runs(AS_WRITTEN, slots, r, es, s)
    ensures Kept(s, r) && |s.ring.slots| == |slots|
    ensures QueueFifo.AbsExec(|slots|, es) == Some(s.ring.Contents())
  {
    if es == [] {
      InitInv(slots);
    } else {
      var before, e := es[..|es| - 1], es[|es| - 1];
      var m := Exec(AS_WRITTEN, Init(slots), before).value;
      KeptAlways(slots, r, before, m);
      KeptStep(m, e, r);
      SameSize(AS_WRITTEN, m, e);
    }
  }

  /** One producer and one consumer, either of which may also clear: what was pushed
      comes out, first in, first out, and the ring holds the rest. */
  lemma OneProducerOneConsumer(slots: seq<Record>, producer: Tid, consumer: Tid, clearers: set<Tid>, es: seq<Event>,
                               s: State)
    requires clearers <= {producer, consumer}
    requires Runs(AS_WRITTEN, slots, Roles({producer}, {consumer}, clearers, false), es, s)
    ensures s.ring.Valid() && 0 <= s.ring.length <= |slots|
    ensures QueueFifo.AbsExec(|slots|, es) == Some(s.ring.Contents())
    ensures !QueueFifo.Cleared(es) ==> QueueFifo.Pushed(es) == QueueFifo.Popped(es) + s.ring.Contents()
  {
    KeptAlways(slots, Roles({producer}, {consumer}, clearers, false), es, s);
    if !QueueFifo.Cleared(es) { QueueFifo.FirstInFirstOut(|slots|, es); }
  }

  // ---------------------------------------------------------------- necessity

  /** Two pushers and a popper: the second pusher fills the slot the first was woken for. */
  lemma StolenSlot(slots: seq<Record>, r: Roles, c: Tid, a: Tid, b: Tid) returns (es: seq<Event>, s: State)
    requires slots != [] && c in r.poppers && a in r.pushers && b in r.pushers && a != c && a != b
    ensures Runs(AS_WRITTEN, slots, r, es, s) && s.ring.length == |slots| + 1
  {
    es, s := Filled(AS_WRITTEN, slots, r, [], Init(slots), b, |slots|);
    es, s := SleepyCall(AS_WRITTEN, slots, r, es, s, a, Push([]));
    es, s := QuickCall(AS_WRITTEN, slots, r, es, s, c, Pop, Some(a));
    es, s := QuickCall(AS_WRITTEN, slots, r, es, s, b, Push([]), None);
    es, s := GoesOnBlindly(AS_WRITTEN, slots, r, es, s, a);
  }

  /** A third thread clears: it sees no waiters, then takes the item from under the
      popper that was signalled for it. */
  lemma ClearedItem(slots: seq<Record>, r: Roles, p: Tid, c: Tid, k: Tid) returns (es: seq<Event>, s: State)
    requires slots != [] && p in r.pushers && c in r.poppers && k in r.clearers && p != c && k != p && k != c
    ensures Runs(AS_WRITTEN, slots, r, es, s) && s.ring.length == -1
  {
    es, s := SeesNoWaiters(AS_WRITTEN, slots, r, [], Init(slots), k);
    es, s := SleepyCall(AS_WRITTEN, slots, r, es, s, c, Pop);
    es, s := QuickCall(AS_WRITTEN, slots, r, es, s, p, Push([]), Some(c));
    es, s := ClearsLate(AS_WRITTEN, slots, r, es, s, k);
    es, s := GoesOnBlindly(AS_WRITTEN, slots, r, es, s, c);
  }

  /** A pusher alone, and a stray wakeup. */
  lemma StrayPush(slots: seq<Record>, r: Roles, p: Tid) returns (es: seq<Event>, s: State)
    requires slots != [] && p in r.pushers && r.spurious
    ensures Runs(AS_WRITTEN, slots, r, es, s) && s.ring.length == |slots| + 1
  {
    es, s := Filled(AS_WRITTEN, slots, r, [], Init(slots), p, |slots|);
    es, s := SleepyCall(AS_WRITTEN, slots, r, es, s, p, Push([]));
    es, s := Go(AS_WRITTEN, slots, r, es, s, Spurious(p));
    es, s := GoesOnBlindly(AS_WRITTEN, slots, r, es, s, p);
  }

  /** Any other company has a run that leaves the range. */
  lemma HarmfulRun(slots: seq<Record>, r: Roles) returns (es: seq<Event>, s: State)
    requires slots != [] && !Harmless(r)
    ensures Runs(AS_WRITTEN, slots, r, es, s) && !(0 <= s.ring.length <= |slots|)
  {
    if r.spurious {
      if c :| c in r.poppers {
        es, s := StrayPop(AS_WRITTEN, slots, r, c);
      } else {
        var p :| p in r.pushers;
        es, s := StrayPush(slots, r, p);
      }
    } else {
      var p, c :| p in r.pushers && c in r.poppers;
      if |r.poppers| >= 2 {
        var a, b := PickTwo(r.poppers, p);
        es, s := StolenItem(AS_WRITTEN, slots, r, p, a, b);
      } else if |r.pushers| >= 2 {
        var a, b := PickTwo(r.pushers, c);
        es, s := StolenSlot(slots, r, c, a, b);
      } else {
        if p == c { OnlyOne(r.pushers, p); OnlyOne(r.poppers, c); }
        var k :| k in r.clearers && k !in r.pushers + r.poppers;
        es, s := ClearedItem(slots, r, p, c, k);
      }
    }
  }

  lemma OnlyOne(ts: set<Tid>, a: Tid)
    requires |ts| <= 1 && a in ts
    ensures ts == {a}
  {
    forall b | b in ts ensures b == a { AtMostOne(b, a, ts); }
  }

  /** The source's queue, any capacity above zero, with any threads pushing, popping
      and clearing: its length is safe in every run, and every run is first in,
      first out, iff the company is harmless. */
  lemma AsWrittenSafeIff(slots: seq<Record>, r: Roles)
    requires slots != []
    ensures Safe(slots, r) <==> Harmless(r)
    ensures Fifo(slots, r) <==> Harmless(r)
  {
    if Harmless(r) {
      forall es, s | Runs(AS_WRITTEN, slots, r, es, s)
        ensures s.ring.Valid() && 0 <= s.ring.length <= |slots|
        ensures QueueFifo.AbsExec(|slots|, es) == Some(s.ring.Contents())
      {
        KeptAlways(slots, r, es, s);
      }
    } else {
      var es, s := HarmfulRun(slots, r);
      SameCapacity(slots, es);
      assert !s.ring.Valid();
    }
  }

  lemma {:induction false} SameCapacity(slots: seq<Record>, es: seq<Event>)
    requires Exec(AS_WRITTEN, Init(slots), es).Some?
    ensures |Exec(AS_WRITTEN, Init(slots), es).value.ring.slots| == |slots|
  {
    if es != [] {
      SameCapacity(slots, es[..|es| - 1]);
      SameSize(AS_WRITTEN, Exec(AS_WRITTEN, Init(slots), es[..|es| - 1]).value, es[|es| - 1]);
    }
  }
}
