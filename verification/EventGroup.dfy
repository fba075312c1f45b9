/** The event group as a state machine over any number of threads, as written
    (src/arch/posix/lsp_egroup.c): one word of event bits, one mutex, one
    condition variable that lsp_egroup_set broadcasts on. */
module EventGroup {
  import opened LspTypes

  /** An event word, as the set of the positions of its one bits: the source only
      ever uses it bit by bit (& is *, | is +, and & ~m is - m). */
  type Bits = set<nat>

  /** One lsp_egroup_wait call. */
  datatype Request = Request(mask: Bits, clearOnExit: bool, waitAll: bool, wait: Wait)

  datatype Cause = Notified | TimedOut | Failed

  datatype Pc =
    | Idle
    | Locking(r: Request)
    | Testing(r: Request)               // lock held, choosing a branch or at the head of its loop
    | Preparing(r: Request)             // lock held, about to call egroup_wait_internal
    | Parked(r: Request)                // on the condition variable, lock released
    | Woken(r: Request, cause: Cause)   // needs the lock back
    | Resuming(r: Request, cause: Cause)// lock held, looking at how the wait ended
    | Exiting(r: Request, failed: bool) // lock held, at the label mutex_err
    | WaitUnlocking(r: Request, failed: bool, value: Bits)
    | WaitDone(r: Request, failed: bool, value: Bits)
    | SetLocking(mask: Bits)
    | Setting(mask: Bits)               // lock held
    | Broadcasting                      // lock held, bits already or-ed in
    | SetUnlocking
    | SetDone

  datatype State = State(bits: Bits, holder: Option<Tid>, pcs: map<Tid, Pc>)
  {
    function At(t: Tid): Pc {
      if t in pcs then pcs[t] else Idle
    }

    function Goto(t: Tid, pc: Pc): State {
      this.(pcs := pcs[t := pc])
    }
  }

  datatype Event =
    | CallWait(t: Tid, r: Request)
    | CallSet(t: Tid, mask: Bits)
    | Lock(t: Tid)
    | LockFail(t: Tid)
    | Test(t: Tid)
    | Park(t: Tid)
    | Stir(t: Tid, cause: Cause)        // timeout, error or stray wakeup of one thread
    | Reacquire(t: Tid)
    | Resume(t: Tid, timeLeft: bool)    // the clock decides whether a bounded loop goes on
    | Leave(t: Tid, r: Request, value: Bits) // read the bits, clear some of them
    | SetBits(t: Tid, mask: Bits)
    | Broadcast(t: Tid)
    | Unlock(t: Tid)
    | ReturnWait(t: Tid, value: Bits)
    | ReturnSet(t: Tid, value: Bits)

  const INIT := State({}, None, map[])

  /** The condition a wait is for. */
  predicate Satisfied(r: Request, bits: Bits) {
    if r.waitAll then bits * r.mask == r.mask else bits * r.mask != {}
  }

  /** Bit by bit: an all-wait wants every bit of its mask, an any-wait one of them. */
  lemma SatisfiedBitByBit(r: Request, bits: Bits)
    ensures r.waitAll ==> (Satisfied(r, bits) <==> forall b | b in r.mask :: b in bits)
    ensures !r.waitAll ==> (Satisfied(r, bits) <==> exists b :: b in r.mask && b in bits)
  {
    if r.waitAll {
      assert (forall b | b in r.mask :: b in bits) ==> bits * r.mask == r.mask;
      assert bits * r.mask == r.mask ==> forall b | b in r.mask :: b in bits * r.mask;
    } else {
      if b :| b in r.mask && b in bits { assert b in bits * r.mask; }
      if b :| b in bits * r.mask { assert b in r.mask && b in bits; }
    }
  }

  /** What leaves the event word when a wait returns. */
  function Remaining(r: Request, bits: Bits): Bits {
    if r.clearOnExit then {} else bits - r.mask
  }

  function WakeAll(pcs: map<Tid, Pc>): map<Tid, Pc> {
    map t | t in pcs :: if pcs[t].Parked? then Woken(pcs[t].r, Notified) else pcs[t]
  }

  function Step(s: State, e: Event): Option<State> {
    var pc := s.At(e.t);
    match e
    case CallWait(t, r) =>
      if pc.Idle? then Some(s.Goto(t, Locking(r))) else None
    case CallSet(t, mask) =>
      if pc.Idle? then Some(s.Goto(t, SetLocking(mask))) else None
    case Lock(t) =>
      if s.holder.Some? then None
      else if pc.Locking? then Some(s.(holder := Some(t)).Goto(t, Testing(pc.r)))
      else if pc.SetLocking? then Some(s.(holder := Some(t)).Goto(t, Setting(pc.mask)))
      else None
    case LockFail(t) =>
      // a wait that cannot lock returns an uninitialised word: the call is over
      if pc.Locking? then Some(s.Goto(t, Idle))
      else if pc.SetLocking? then Some(s.Goto(t, SetDone)) else None
    case Test(t) =>
      if !pc.Testing? then None
      else
        (match pc.r.wait
         case NoWait => Some(s.Goto(t, Exiting(pc.r, false)))
         case Forever => Some(s.Goto(t, if Satisfied(pc.r, s.bits) then Exiting(pc.r, false) else Preparing(pc.r)))
         case Bounded => Some(s.Goto(t, Preparing(pc.r))))
    case Park(t) =>
      if pc.Preparing? then Some(s.(holder := None).Goto(t, Parked(pc.r))) else None
    case Stir(t, cause) =>
      if pc.Parked? && (cause.TimedOut? ==> pc.r.wait.Bounded?)
      then Some(s.Goto(t, Woken(pc.r, cause))) else None
    case Reacquire(t) =>
      if pc.Woken? && s.holder.None?
      then Some(s.(holder := Some(t)).Goto(t, Resuming(pc.r, pc.cause))) else None
    case Resume(t, timeLeft) =>
      if !pc.Resuming? then None
      else if pc.cause.Failed? then Some(s.Goto(t, Exiting(pc.r, true)))
      else if !pc.r.wait.Bounded? then Some(s.Goto(t, Testing(pc.r)))
      else if Satisfied(pc.r, s.bits) || !timeLeft then Some(s.Goto(t, Exiting(pc.r, false)))
      else Some(s.Goto(t, Preparing(pc.r)))
    case Leave(t, r, value) =>
      if pc.Exiting? && pc.r == r && value == s.bits
      then Some(s.(bits := Remaining(pc.r, s.bits)).Goto(t, WaitUnlocking(pc.r, pc.failed, value))) else None
    case SetBits(t, mask) =>
      if pc == Setting(mask) then Some(s.(bits := s.bits + mask).Goto(t, Broadcasting)) else None
    case Broadcast(t) =>
      if pc.Broadcasting? then Some(s.(pcs := WakeAll(s.pcs)).Goto(t, SetUnlocking)) else None
    case Unlock(t) =>
      if pc.WaitUnlocking? then Some(s.(holder := None).Goto(t, WaitDone(pc.r, pc.failed, pc.value)))
      else if pc.SetUnlocking? then Some(s.(holder := None).Goto(t, SetDone)) else None
    case ReturnWait(t, value) =>
      if pc.WaitDone? && pc.value == value then Some(s.Goto(t, Idle)) else None
    case ReturnSet(t, value) =>
      // read again without the lock
      if pc.SetDone? && value == s.bits then Some(s.Goto(t, Idle)) else None
  }

  function Exec(es: seq<Event>): Option<State> {
    if es == [] then Some(INIT)
    else
      match Exec(es[..|es| - 1])
      case None => None
      case Some(m) => Step(m, es[|es| - 1])
  }

  lemma Extend(es: seq<Event>, s: State, e: Event) returns (es': seq<Event>, s': State)
    requires Exec(es) == Some(s) && Step(s, e).Some?
    ensures es' == es + [e] && Step(s, e) == Some(s') && Exec(es') == Some(s')
  {
    es', s' := es + [e], Step(s, e).value;
    assert es'[..|es'| - 1] == es;
  }

  // ---------------------------------------------------------------- no event bit is lost

  /** A group of bits that is pending stays pending until one wait returns the whole group. */
  lemma PendingOrReported(s: State, e: Event, group: Bits)
    requires Step(s, e).Some? && group <= s.bits
    ensures group <= Step(s, e).value.bits || (e.Leave? && group <= e.value)
  {
  }

  /** Does this exit clear bit b? All of them, or those of its mask. */
  predicate Takes(e: Event, b: nat) {
    e.Leave? && (e.r.clearOnExit || b in e.r.mask)
  }

  /** Some set or-ed bit b in, and no exit since has cleared it. */
  ghost predicate StillPending(es: seq<Event>, b: nat) {
    exists i :: 0 <= i < |es| && SetAt(es, b, i)
  }

  ghost predicate SetAt(es: seq<Event>, b: nat, i: nat)
    requires i < |es|
  {
    es[i].SetBits? && b in es[i].mask && forall j | i < j < |es| :: !Takes(es[j], b)
  }

  lemma PendingMore(before: seq<Event>, e: Event, b: nat)
    ensures StillPending(before + [e], b) <==> (e.SetBits? && b in e.mask) || (StillPending(before, b) && !Takes(e, b))
  {
    var es := before + [e];
    if i :| 0 <= i < |before| && SetAt(before, b, i) {
      assert !Takes(e, b) ==> SetAt(es, b, i);
    }
    if i :| 0 <= i < |es| && SetAt(es, b, i) {
      assert i < |before| ==> !Takes(es[|before|], b) && forall j | i < j < |before| :: before[j] == es[j];
      assert i < |before| ==> SetAt(before, b, i);
    }
    if e.SetBits? && b in e.mask { assert SetAt(es, b, |before|); }
  }

  /** The event word is exact: over every run a bit is pending iff some set or-ed it in
      and no exit since has cleared it. Nobody's bits go but with a wait that says so. */
  lemma {:induction false} PendingIff(es: seq<Event>, b: nat)
    requires Exec(es).Some?
    ensures b in Exec(es).value.bits <==> StillPending(es, b)
  {
    if es != [] {
      var before, e := es[..|es| - 1], es[|es| - 1];
      PendingIff(before, b);
      BitStep(Exec(before).value, e, b);
      PendingMore(before, e, b);
      assert before + [e] == es;
    }
  }

  lemma BitStep(s: State, e: Event, b: nat)
    requires Step(s, e).Some?
    ensures b in Step(s, e).value.bits <==> (e.SetBits? && b in e.mask) || (b in s.bits && !Takes(e, b))
  {
  }

  /** Every group of bits that was ever set is still pending, or was returned whole
      by one later wait: over every run, no event is lost. */
  lemma {:induction false} NoEventLost(es: seq<Event>, i: nat, group: Bits)
    requires Exec(es).Some? && i < |es| && es[i].SetBits? && group <= es[i].mask
    ensures || group <= Exec(es).value.bits
            || exists j :: i < j < |es| && es[j].Leave? && group <= es[j].value
  {
    var n := |es| - 1;
    var s := Exec(es[..n]).value;
    if i < n {
      NoEventLost(es[..n], i, group);
      if group <= s.bits {
        PendingOrReported(s, es[n], group);
      } else {
        var j :| i < j < n && es[..n][j].Leave? && group <= es[..n][j].value;
        assert es[j] == es[..n][j];
      }
    }
  }

  /** All bits ever set. */
  function EverSet(es: seq<Event>): Bits {
    if es == [] then {}
    else
      var last := es[|es| - 1];
      EverSet(es[..|es| - 1]) + (if last.SetBits? then last.mask else {})
  }

  /** And none is made up: pending and returned bits were all set by somebody. */
  lemma {:induction false} NoEventInvented(es: seq<Event>)
    requires Exec(es).Some?
    ensures Exec(es).value.bits <= EverSet(es)
    ensures forall j | 0 <= j < |es| && es[j].Leave? :: es[j].value <= EverSet(es)
  {
    if es != [] {
      var n := |es| - 1;
      NoEventInvented(es[..n]);
      forall j | 0 <= j < |es| && es[j].Leave? ensures es[j].value <= EverSet(es) {
        if j < n { assert es[j] == es[..n][j]; }
      }
    }
  }

  /** How often bit b was set; how often a wait took it: returned and cleared it. */
  function TimesSet(es: seq<Event>, b: nat): nat {
    if es == [] then 0
    else
      var last := es[|es| - 1];
      TimesSet(es[..|es| - 1], b) + (if last.SetBits? && b in last.mask then 1 else 0)
  }

  function TimesTaken(es: seq<Event>, b: nat): nat {
    if es == [] then 0
    else
      var last := es[|es| - 1];
      TimesTaken(es[..|es| - 1], b)
      + (if last.Leave? && b in last.value && (last.r.clearOnExit || b in last.r.mask) then 1 else 0)
  }

  /** One event serves one waiter: however many waits compete, a bit is taken at most
      as often as it was set, counting the setting that is still pending. */
  lemma {:induction false} TakenAtMostOnce(es: seq<Event>, b: nat)
    requires Exec(es).Some?
    ensures TimesTaken(es, b) + (if b in Exec(es).value.bits then 1 else 0) <= TimesSet(es, b)
  {
    if es != [] {
      TakenAtMostOnce(es[..|es| - 1], b);
    }
  }

  // ---------------------------------------------------------------- waits without a timeout

  predicate InsideLock(pc: Pc) {
    || pc.Testing? || pc.Preparing? || pc.Resuming? || pc.Exiting? || pc.WaitUnlocking?
    || pc.Setting? || pc.Broadcasting? || pc.SetUnlocking?
  }

  ghost predicate Exclusive(s: State) {
    && (forall t | t in s.pcs :: InsideLock(s.pcs[t]) <==> s.holder == Some(t))
    && (s.holder.Some? ==> s.holder.value in s.pcs)
  }

  /** Between or-ing the bits in and the broadcast, parked waiters may be behind. */
  predicate BroadcastDue(s: State) {
    s.holder.Some? && s.At(s.holder.value).Broadcasting?
  }

  ghost predicate PcKept(s: State, pc: Pc) {
    && (pc.Preparing? || pc.Parked? ==> !pc.r.wait.NoWait?)
    && (pc.Preparing? && pc.r.wait.Forever? ==> !Satisfied(pc.r, s.bits))
    && (pc.Parked? && pc.r.wait.Forever? && !BroadcastDue(s) ==> !Satisfied(pc.r, s.bits))
    && (pc.Exiting? && pc.r.wait.Forever? && !pc.failed ==> Satisfied(pc.r, s.bits))
    && ((pc.WaitUnlocking? || pc.WaitDone?) && pc.r.wait.Forever? && !pc.failed ==> Satisfied(pc.r, pc.value))
  }

  ghost predicate Inv(s: State) {
    Exclusive(s) && forall t | t in s.pcs :: PcKept(s, s.pcs[t])
  }

  lemma ExclusiveStep(s: State, e: Event)
    requires Exclusive(s) && Step(s, e).Some?
    ensures Exclusive(Step(s, e).value)
  {
  }

  lemma MoverKept(s: State, e: Event)
    requires Exclusive(s) && PcKept(s, s.At(e.t)) && Step(s, e).Some?
    ensures PcKept(Step(s, e).value, Step(s, e).value.At(e.t))
  {
  }

  lemma OtherKept(s: State, e: Event, t: Tid)
    requires Exclusive(s) && t in s.pcs && t != e.t && PcKept(s, s.pcs[t]) && Step(s, e).Some?
    ensures var s' := Step(s, e).value; t in s'.pcs && PcKept(s', s'.pcs[t])
  {
  }

  lemma {:induction false} InvAlways(es: seq<Event>)
    requires Exec(es).Some?
    ensures Inv(Exec(es).value)
  {
    if es != [] {
      var s, e := Exec(es[..|es| - 1]).value, es[|es| - 1];
      InvAlways(es[..|es| - 1]);
      var s' := Exec(es).value;
      ExclusiveStep(s, e);
      assert e.t in s.pcs ==> PcKept(s, s.pcs[e.t]);
      MoverKept(s, e);
      forall t | t in s'.pcs && t != e.t ensures PcKept(s', s'.pcs[t]) { OtherKept(s, e, t); }
    }
  }

  /** Nobody sleeps on a true condition: except between or-ing bits in and the
      broadcast that follows under the same lock, every thread parked without a
      timeout is waiting for bits that are not there. */
  lemma ParkedMeansUnsatisfied(es: seq<Event>, t: Tid)
    requires Exec(es).Some?
    requires !BroadcastDue(Exec(es).value) && Exec(es).value.At(t).Parked? && Exec(es).value.At(t).r.wait.Forever?
    ensures !Satisfied(Exec(es).value.At(t).r, Exec(es).value.bits)
  {
    InvAlways(es);
    assert PcKept(Exec(es).value, Exec(es).value.pcs[t]);
  }

  /** However many waiters one broadcast wakes, a wait without a timeout that does
      not fail returns a value in which its own condition holds. */
  lemma ReturnedMeansSatisfied(es: seq<Event>, t: Tid, value: Bits)
    requires Exec(es + [ReturnWait(t, value)]).Some?
    ensures Exec(es).Some? && Exec(es).value.At(t).WaitDone?
    ensures var done := Exec(es).value.At(t);
            done.value == value && (done.r.wait.Forever? && !done.failed ==> Satisfied(done.r, value))
  {
    var all := es + [ReturnWait(t, value)];
    assert all[..|all| - 1] == es;
    InvAlways(es);
    assert PcKept(Exec(es).value, Exec(es).value.pcs[t]);
  }

  // ---------------------------------------------------------------- who a broadcast wakes

  /** A broadcast wakes everybody who is parked, with or without a timeout. */
  lemma BroadcastWakesAll(s: State, t: Tid, u: Tid)
    requires Step(s, Broadcast(t)).Some?
    ensures var s' := Step(s, Broadcast(t)).value;
            && !s'.At(u).Parked?
            && (s.At(u).Parked? ==> s'.At(u) == Woken(s.At(u).r, Notified))
  {
  }

  /** Where a parked thread parked, and what sets came after: at most one, whose
      broadcast is due. */
  ghost predicate ParkedAt(es: seq<Event>, s: State, t: Tid, p: nat) {
    && p < |es| && es[p] == Park(t)
    && forall k | p < k < |es| :: es[k].t != t && (es[k].SetBits? ==> BroadcastDue(s))
  }

  lemma StillParked(es: seq<Event>, s: State, e: Event, t: Tid, p: nat)
    requires Exclusive(s) && ParkedAt(es, s, t, p) && Step(s, e).Some? && e.t != t
    requires Step(s, e).value.At(t).Parked?
    ensures ParkedAt(es + [e], Step(s, e).value, t, p)
  {
    assert !e.Broadcast?;
    DueStays(s, e);
    forall k | p < k < |es + [e]|
      ensures (es + [e])[k].t != t && ((es + [e])[k].SetBits? ==> BroadcastDue(Step(s, e).value))
    {
      assert k < |es| ==> (es + [e])[k] == es[k];
    }
  }

  /** Only the broadcast ends the time when one is due. */
  lemma DueStays(s: State, e: Event)
    requires Exclusive(s) && Step(s, e).Some? && !e.Broadcast?
    ensures BroadcastDue(s) || e.SetBits? ==> BroadcastDue(Step(s, e).value)
  {
    if e.SetBits? { assert InsideLock(s.pcs[e.t]); }
  }

  lemma {:induction false} SleptSince(es: seq<Event>, t: Tid) returns (p: nat)
    requires Exec(es).Some?
    ensures Exec(es).value.At(t).Parked? ==> ParkedAt(es, Exec(es).value, t, p)
  {
    p := 0;
    if es != [] {
      var n := |es| - 1;
      var s, e := Exec(es[..n]).value, es[n];
      p := SleptSince(es[..n], t);
      InvAlways(es[..n]);
      assert es == es[..n] + [e];
      if e.t == t {
        p := n;
      } else if Exec(es).value.At(t).Parked? {
        StillParked(es[..n], s, e, t, p);
      }
    }
  }

  /** Nobody sleeps through a set: outside the time between a set's or and its
      broadcast, no bits have been set since any parked thread parked. */
  lemma NoSetSinceParked(es: seq<Event>, t: Tid) returns (p: nat)
    requires Exec(es).Some? && Exec(es).value.At(t).Parked? && !BroadcastDue(Exec(es).value)
    ensures p < |es| && es[p] == Park(t) && forall k | p < k < |es| :: es[k].t != t && !es[k].SetBits?
  {
    p := SleptSince(es, t);
  }

  // ---------------------------------------------------------------- why a wait ends

  /** What befell a thread's latest wait: did it sleep, has it looked at the bits after
      a sleep, did a sleep time out or fail, had its time run out when it last looked? */
  datatype Fate = Fate(slept: bool, looked: bool, timedOut: bool, failed: bool, outOfTime: bool)

  function FateOf(es: seq<Event>, t: Tid): Fate {
    if es == [] then Fate(false, false, false, false, false)
    else
      var before, e := FateOf(es[..|es| - 1], t), es[|es| - 1];
      if e.t != t then before
      else
        match e
        case CallWait(_, _) => Fate(false, false, false, false, false)
        case Park(_) => before.(slept := true)
        case Stir(_, cause) => before.(timedOut := before.timedOut || cause.TimedOut?, failed := cause.Failed?)
        case Resume(_, timeLeft) => before.(looked := true, outOfTime := !timeLeft)
        case _ => before
  }

  /** An exit is earned: by an error, by the condition, by a timeout of 0, or by a
      finite one that has run out. */
  predicate Earned(r: Request, failed: bool, bits: Bits, f: Fate) {
    && (failed <==> f.failed)
    && (failed || Satisfied(r, bits) || r.wait.NoWait? || (r.wait.Bounded? && f.outOfTime))
    && (r.wait.NoWait? ==> !f.slept) && (r.wait.Bounded? ==> f.slept) && (f.timedOut ==> r.wait.Bounded?)
  }

  ghost predicate OnCourse(s: State, pc: Pc, f: Fate) {
    match pc
    case Locking(r) => f == Fate(false, false, false, false, false)
    case Testing(r) => !f.failed && (!r.wait.Forever? ==> !f.slept && !f.looked) && OnTime(r, f)
    case Preparing(r) => !f.failed && !r.wait.NoWait? && (f.looked ==> !Satisfied(r, s.bits)) && OnTime(r, f)
    case Parked(r) =>
      !f.failed && Slept(r, f) && (f.looked && !BroadcastDue(s) ==> !Satisfied(r, s.bits))
    case Woken(r, cause) => (f.failed <==> cause.Failed?) && Slept(r, f)
    case Resuming(r, cause) => (f.failed <==> cause.Failed?) && Slept(r, f)
    case Exiting(r, failed) => Earned(r, failed, s.bits, f)
    case WaitUnlocking(r, failed, value) => Earned(r, failed, value, f)
    case WaitDone(r, failed, value) => Earned(r, failed, value, f)
    case _ => true
  }

  predicate OnTime(r: Request, f: Fate) {
    f.timedOut ==> r.wait.Bounded?
  }

  predicate Slept(r: Request, f: Fate) {
    f.slept && !r.wait.NoWait? && OnTime(r, f)
  }

  lemma OtherOnCourse(s: State, e: Event, t: Tid, f: Fate)
    requires OnCourse(s, s.At(t), f) && Step(s, e).Some? && t != e.t
    requires !(InsideLock(s.At(t)) && InsideLock(s.At(e.t)))
    requires !e.Broadcast? && (BroadcastDue(s) || e.SetBits?) ==> BroadcastDue(Step(s, e).value)
    ensures OnCourse(Step(s, e).value, Step(s, e).value.At(t), f)
  {
  }

  lemma MoverOnCourse(es: seq<Event>, s: State, e: Event)
    requires Exec(es) == Some(s) && OnCourse(s, s.At(e.t), FateOf(es, e.t)) && Step(s, e).Some?
    ensures OnCourse(Step(s, e).value, Step(s, e).value.At(e.t), FateOf(es + [e], e.t))
  {
    assert (es + [e])[..|es|] == es;
  }

  lemma {:induction false} CourseAlways(es: seq<Event>, t: Tid)
    requires Exec(es).Some?
    ensures OnCourse(Exec(es).value, Exec(es).value.At(t), FateOf(es, t))
  {
    if es != [] {
      var before, e := es[..|es| - 1], es[|es| - 1];
      CourseAlways(before, t);
      InvAlways(before);
      if e.t == t {
        MoverOnCourse(before, Exec(before).value, e);
        assert before + [e] == es;
      } else {
        var s := Exec(before).value;
        assert t in s.pcs && e.t in s.pcs ==> !(InsideLock(s.pcs[t]) && InsideLock(s.pcs[e.t]));
        if !e.Broadcast? { DueStays(s, e); }
        OtherOnCourse(s, e, t, FateOf(before, t));
      }
    }
  }

  /** In every run a wait that returns has earned it: it failed iff its sleep did;
      otherwise its condition held when it left, or its timeout was 0 (and it never
      slept), or its time had run out (and it had slept). */
  lemma WaitEndsForAReason(es: seq<Event>, t: Tid, value: Bits)
    requires Exec(es + [ReturnWait(t, value)]).Some?
    ensures Exec(es).Some? && Exec(es).value.At(t).WaitDone?
    ensures var done := Exec(es).value.At(t);
            done.value == value && Earned(done.r, done.failed, value, FateOf(es, t))
  {
    var all := es + [ReturnWait(t, value)];
    assert all[..|all| - 1] == es;
    CourseAlways(es, t);
  }

  /** Only the first sleep of a wait can be blind: whoever has looked once, with or
      without a timeout, sleeps on only while its condition is false. */
  lemma OnlyTheFirstSleepIsBlind(es: seq<Event>, t: Tid)
    requires Exec(es).Some? && Exec(es).value.At(t).Parked? && !BroadcastDue(Exec(es).value)
    requires FateOf(es, t).looked
    ensures !Satisfied(Exec(es).value.At(t).r, Exec(es).value.bits)
  {
    CourseAlways(es, t);
  }

  // ---------------------------------------------------------------- waits with a timeout

  /** One thread sets some bits while nobody waits. */
  lemma SetAlone(mask: Bits) returns (es: seq<Event>, s: State)
    ensures Exec(es) == Some(s) && s.bits == mask && s.holder.None? && s.At(1).Idle?
    ensures forall u: Tid :: !s.At(u).Parked?
  {
    es, s := SetFirst(mask);
    es, s := OrsIn(es, s, 0, mask);
    es, s := BroadcastToNobody(es, s, 0);
  }

  lemma SetFirst(mask: Bits) returns (es: seq<Event>, s: State)
    ensures Exec(es) == Some(s) && s.bits == {} && s.holder.None? && s.At(0) == SetLocking(mask)
    ensures forall u: Tid | u != 0 :: s.At(u).Idle?
  {
    es, s := Extend([], INIT, CallSet(0, mask));
  }

  lemma OrsIn(es: seq<Event>, s: State, t: Tid, mask: Bits) returns (es': seq<Event>, s': State)
    requires Exec(es) == Some(s) && s.holder.None? && s.At(t) == SetLocking(mask)
    ensures Exec(es') == Some(s') && s'.At(t).Broadcasting? && s'.bits == s.bits + mask
    ensures es' == es + [Lock(t)] + [SetBits(t, mask)] && forall u: Tid | u != t :: s'.At(u) == s.At(u)
  {
    es', s' := Extend(es, s, Lock(t));
    es', s' := Extend(es', s', SetBits(t, mask));
  }

  lemma BroadcastToNobody(es: seq<Event>, s: State, t: Tid) returns (es': seq<Event>, s': State)
    requires Exec(es) == Some(s) && s.At(t).Broadcasting? && forall u: Tid :: !s.At(u).Parked?
    ensures Exec(es') == Some(s') && s'.bits == s.bits && s'.holder.None? && s'.At(t).SetDone?
    ensures forall u: Tid | u != t :: s'.At(u) == s.At(u)
    ensures es' == es + [Broadcast(t)] + [Unlock(t)]
  {
    assert forall u | u in s.pcs :: s.pcs[u] == s.At(u);
    assert WakeAll(s.pcs) == s.pcs;
    es', s' := Extend(es, s, Broadcast(t));
    es', s' := Extend(es', s', Unlock(t));
  }

  lemma NobodyParks(s: State, e: Event)
    requires Step(s, e).Some? && !e.Park? && forall u: Tid :: !s.At(u).Parked?
    ensures forall u: Tid :: !Step(s, e).value.At(u).Parked?
  {
    forall u: Tid ensures !Step(s, e).value.At(u).Parked? { assert !s.At(u).Parked?; }
  }

  lemma Asks(es: seq<Event>, s: State, t: Tid, r: Request) returns (es': seq<Event>, s': State)
    requires Exec(es) == Some(s) && s.holder.None? && s.At(t).Idle?
    ensures Exec(es') == Some(s') && s'.At(t) == Testing(r) && s'.bits == s.bits
  {
    es', s' := Extend(es, s, CallWait(t, r));
    es', s' := Extend(es', s', Lock(t));
  }

  lemma ParksAtOnce(es: seq<Event>, s: State, t: Tid, r: Request) returns (es': seq<Event>, s': State)
    requires Exec(es) == Some(s) && s.holder.None? && s.At(t).Idle? && r.wait.Bounded?
    ensures Exec(es') == Some(s') && s'.At(t) == Parked(r) && s'.bits == s.bits && s'.holder.None?
  {
    es', s' := Asks(es, s, t, r);
    es', s' := Extend(es', s', Test(t));
    es', s' := Extend(es', s', Park(t));
  }

  /** Some thread can sleep in the wait `r` although its bits are there, the mutex is
      free and no broadcast is due. */
  ghost predicate SleepsOnTrueCondition(r: Request) {
    exists es, s, t :: Exec(es) == Some(s) && s.holder.None? && s.At(t) == Parked(r) && Satisfied(r, s.bits)
  }

  /** Which waits can sleep through their own bits? Exactly the bounded ones, which
      park before they look (unless they can never be satisfied at all). */
  lemma SleepsOnTrueConditionIff(r: Request)
    ensures SleepsOnTrueCondition(r) <==> r.wait.Bounded? && (r.waitAll || r.mask != {})
  {
    if r.wait.Bounded? && (r.waitAll || r.mask != {}) {
      var es, s := SetAlone(r.mask);
      es, s := ParksAtOnce(es, s, 1, r);
      assert r.mask * r.mask == r.mask;
      assert s.At(1) == Parked(r) && Satisfied(r, s.bits);
    } else {
      forall es, s, t: Tid | Exec(es) == Some(s) && s.holder.None? && s.At(t) == Parked(r)
        ensures !Satisfied(r, s.bits)
      {
        InvAlways(es);
        assert PcKept(s, s.pcs[t]);
      }
    }
  }

  /** A wait with timeout 0 succeeds at once on any pending word, satisfied or not. */
  lemma PollReturnsTheWord(r: Request, bits: Bits) returns (es: seq<Event>, s: State)
    requires r.wait.NoWait?
    ensures Exec(es) == Some(s) && s.At(1) == WaitDone(r, false, bits) && s.bits == Remaining(r, bits)
  {
    es, s := SetAlone(bits);
    es, s := Asks(es, s, 1, r);
    es, s := Extend(es, s, Test(1));
    es, s := Leaves(es, s, 1, r);
  }

  lemma Leaves(es: seq<Event>, s: State, t: Tid, r: Request) returns (es': seq<Event>, s': State)
    requires Exec(es) == Some(s) && s.At(t) == Exiting(r, false)
    ensures Exec(es') == Some(s') && s'.At(t) == WaitDone(r, false, s.bits) && s'.bits == Remaining(r, s.bits)
  {
    es', s' := Extend(es, s, Leave(t, r, s.bits));
    es', s' := Extend(es', s', Unlock(t));
  }

  /** A wait with a finite timeout parks at once, and may expire. */
  lemma BoundedExpires(r: Request) returns (es: seq<Event>, s: State)
    requires r.wait.Bounded?
    ensures Exec(es) == Some(s) && s.At(1) == WaitDone(r, false, {})
  {
    es, s := ParksAtOnce([], INIT, 1, r);
    es, s := Extend(es, s, Stir(1, TimedOut));
    es, s := Extend(es, s, Reacquire(1));
    es, s := Extend(es, s, Resume(1, false));
    es, s := Leaves(es, s, 1, r);
  }

  /** Every wait for `r` that ends without an error, in any run and by any thread,
      returns a word in which r's condition holds. */
  ghost predicate AlwaysSatisfied(r: Request) {
    forall es, s: State, t: Tid ::
      Exec(es) == Some(s) && s.At(t).WaitDone? && s.At(t).r == r && !s.At(t).failed ==> Satisfied(r, s.At(t).value)
  }

  /** Which waits can be trusted to return what they waited for? Exactly those
      without a timeout (and the one that waits for nothing): the documentation
      promises 0 when a wait expires, the code returns whatever is pending. */
  lemma AlwaysSatisfiedIff(r: Request)
    ensures AlwaysSatisfied(r) <==> r.wait.Forever? || (r.waitAll && r.mask == {})
  {
    if r.wait.Forever? || (r.waitAll && r.mask == {}) {
      forall es, s: State, t: Tid | Exec(es) == Some(s) && s.At(t).WaitDone? && s.At(t).r == r && !s.At(t).failed
        ensures Satisfied(r, s.At(t).value)
      {
        InvAlways(es);
        assert PcKept(s, s.pcs[t]);
      }
    } else {
      assert {} * r.mask == {};
      assert !Satisfied(r, {});
      var es, s;
      if r.wait.NoWait? { es, s := PollReturnsTheWord(r, {}); } else { es, s := BoundedExpires(r); }
      assert s.At(1) == WaitDone(r, false, {});
    }
  }

  // ---------------------------------------------------------------- what a call returns

  /** This value is the word pending after `es`. */
  ghost predicate IsPendingWord(es: seq<Event>, value: Bits) {
    forall b: nat :: b in value <==> StillPending(es, b)
  }

  lemma WordIsPending(es: seq<Event>)
    requires Exec(es).Some?
    ensures IsPendingWord(es, Exec(es).value.bits)
  {
    forall b: nat ensures b in Exec(es).value.bits <==> StillPending(es, b) { PendingIff(es, b); }
  }

  /** The exit of a wait that is past it: the thread has only unlocked since. */
  ghost predicate LeftAt(es: seq<Event>, t: Tid, r: Request, value: Bits, j: nat) {
    && j < |es| && es[j] == Leave(t, r, value) && IsPendingWord(es[..j], value)
    && forall k | j < k < |es| && es[k].t == t :: es[k].Unlock?
  }

  lemma StillLeftAt(before: seq<Event>, e: Event, t: Tid, r: Request, value: Bits, j: nat)
    requires LeftAt(before, t, r, value, j) && (e.t == t ==> e.Unlock?)
    ensures LeftAt(before + [e], t, r, value, j)
  {
    assert (before + [e])[..j] == before[..j];
  }

  lemma LeavesNow(before: seq<Event>, e: Event)
    requires Exec(before).Some? && Step(Exec(before).value, e).Some? && e.Leave?
    ensures LeftAt(before + [e], e.t, e.r, e.value, |before|)
  {
    WordIsPending(before);
    assert (before + [e])[..|before|] == before;
  }

  /** How a thread comes to be past its exit. */
  lemma PastExit(s: State, e: Event, t: Tid)
    requires Step(s, e).Some?
    ensures var pc, pc' := s.At(t), Step(s, e).value.At(t);
            pc'.WaitUnlocking? || pc'.WaitDone? ==>
              || (e.t == t && e == Leave(t, pc'.r, pc'.value))
              || ((pc.WaitUnlocking? || pc.WaitDone?) && pc.r == pc'.r && pc.value == pc'.value
                  && (e.t == t ==> e.Unlock?))
  {
  }

  lemma {:induction false} WaitLeftAt(es: seq<Event>, t: Tid) returns (j: nat)
    requires Exec(es).Some?
    ensures var pc := Exec(es).value.At(t);
            pc.WaitUnlocking? || pc.WaitDone? ==> LeftAt(es, t, pc.r, pc.value, j)
  {
    j := 0;
    if es != [] {
      var n := |es| - 1;
      var before, e := es[..n], es[n];
      var pc' := Exec(es).value.At(t);
      j := WaitLeftAt(before, t);
      assert es == before + [e];
      PastExit(Exec(before).value, e, t);
      if pc'.WaitUnlocking? || pc'.WaitDone? {
        if e == Leave(t, pc'.r, pc'.value) {
          LeavesNow(before, e);
          j := n;
        } else {
          StillLeftAt(before, e, t, pc'.r, pc'.value, j);
        }
      }
    }
  }

  /** Whatever its timeout and however it ended, a wait that had the lock returns the
      whole word that was pending when it left, not just the bits it waited for. */
  lemma ReturnsTheWholeWord(es: seq<Event>, t: Tid, value: Bits) returns (j: nat)
    requires Exec(es + [ReturnWait(t, value)]).Some?
    ensures Exec(es).Some? && Exec(es).value.At(t).WaitDone?
    ensures LeftAt(es, t, Exec(es).value.At(t).r, value, j)
  {
    var all := es + [ReturnWait(t, value)];
    assert all[..|all| - 1] == es;
    j := WaitLeftAt(es, t);
  }

  /** A thread's latest set call: its mask, what it or-ed in, whether it could lock. */
  datatype SetCall = SetCall(mask: Option<Bits>, effects: seq<Bits>, lockFailed: bool)

  function SetCallOf(es: seq<Event>, t: Tid): SetCall {
    if es == [] then SetCall(None, [], false)
    else
      var before, e := SetCallOf(es[..|es| - 1], t), es[|es| - 1];
      if e.t != t then before
      else
        match e
        case CallSet(_, mask) => SetCall(Some(mask), [], false)
        case SetBits(_, mask) => before.(effects := before.effects + [mask])
        case LockFail(_) => before.(lockFailed := true)
        case _ => before
  }

  predicate OnSetCall(pc: Pc, c: SetCall) {
    match pc
    case SetLocking(mask) => c == SetCall(Some(mask), [], false)
    case Setting(mask) => c == SetCall(Some(mask), [], false)
    case Broadcasting => c.mask.Some? && c == SetCall(c.mask, [c.mask.value], false)
    case SetUnlocking => c.mask.Some? && c == SetCall(c.mask, [c.mask.value], false)
    case SetDone => c.mask.Some? && c.effects == if c.lockFailed then [] else [c.mask.value]
    case _ => true
  }

  lemma {:induction false} SetCallKept(es: seq<Event>, t: Tid)
    requires Exec(es).Some?
    ensures OnSetCall(Exec(es).value.At(t), SetCallOf(es, t))
  {
    if es != [] { SetCallKept(es[..|es| - 1], t); }
  }

  /** A set call or-s its bits in exactly once if it got the lock, and never if it
      did not; what it returns is the word as it is by then, in either case. */
  lemma SetTakesEffectIffLocked(es: seq<Event>, t: Tid, value: Bits)
    requires Exec(es + [ReturnSet(t, value)]).Some?
    ensures var c := SetCallOf(es, t);
            c.mask.Some? && c.effects == (if c.lockFailed then [] else [c.mask.value]) && IsPendingWord(es, value)
  {
    var all := es + [ReturnSet(t, value)];
    assert all[..|all| - 1] == es;
    SetCallKept(es, t);
    WordIsPending(es);
  }

  /** So the caller cannot tell: the same call can return the same word having taken
      effect and having not. */
  lemma SetCannotTell(mask: Bits) returns (es: seq<Event>, s: State, es': seq<Event>, s': State)
    ensures Exec(es) == Some(s) && s.At(1).SetDone? && SetCallOf(es, 1) == SetCall(Some(mask), [mask], false)
    ensures Exec(es') == Some(s') && s'.At(1).SetDone? && SetCallOf(es', 1) == SetCall(Some(mask), [], true)
    ensures s.bits == s'.bits == mask
  {
    var es0, s0 := SetAlone(mask);
    var es1, s1 := Extend(es0, s0, CallSet(1, mask));
    SetCallMore(es0, CallSet(1, mask));
    NobodyParks(s0, CallSet(1, mask));
    es, s := SetsAgain(es1, s1, mask);
    es', s' := Extend(es1, s1, LockFail(1));
    SetCallMore(es1, LockFail(1));
  }

  /** SetCallOf unfolded once. */
  lemma SetCallMore(before: seq<Event>, e: Event)
    ensures var c := SetCallOf(before, e.t);
            SetCallOf(before + [e], e.t) ==
              match e
              case CallSet(_, mask) => SetCall(Some(mask), [], false)
              case SetBits(_, mask) => c.(effects := c.effects + [mask])
              case LockFail(_) => c.(lockFailed := true)
              case _ => c
  {
    assert (before + [e])[..|before|] == before;
  }

  lemma SetsAgain(es: seq<Event>, s: State, mask: Bits) returns (es': seq<Event>, s': State)
    requires Exec(es) == Some(s) && s.holder.None? && s.bits == mask && s.At(1) == SetLocking(mask)
    requires SetCallOf(es, 1) == SetCall(Some(mask), [], false) && forall u: Tid :: !s.At(u).Parked?
    ensures Exec(es') == Some(s') && s'.At(1).SetDone? && s'.bits == mask
    ensures SetCallOf(es', 1) == SetCall(Some(mask), [mask], false)
  {
    SetCallMore(es, Lock(1));
    SetCallMore(es + [Lock(1)], SetBits(1, mask));
    es', s' := OrsIn(es, s, 1, mask);
    SetCallMore(es', Broadcast(1));
    SetCallMore(es' + [Broadcast(1)], Unlock(1));
    es', s' := BroadcastToNobody(es', s', 1);
  }
}
