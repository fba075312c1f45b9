/** What the threads of the queue observe: a bounded FIFO queue, with every call
    taking effect at one moment between its start and its return, or not at all. */
module QueueFifo {
  import opened LspTypes
  import opened Ring
  import opened QueueMonitor

  /** The sequential bounded queue: which effects are legal, and what they do. */
  function AbsStep(capacity: nat, q: seq<Record>, e: Event): Option<seq<Record>> {
    match e
    case CommitPush(_, x) => if |q| < capacity then Some(q + [x]) else None
    case CommitPop(_, x) => if q != [] && q[0] == x then Some(q[1..]) else None
    case CommitClear(_) => Some([])
    case _ => Some(q)
  }

  function AbsExec(capacity: nat, es: seq<Event>): Option<seq<Record>> {
    if es == [] then Some([])
    else
      match AbsExec(capacity, es[..|es| - 1])
      case None => None
      case Some(q) => AbsStep(capacity, q, es[|es| - 1])
  }

  /** The items of the pushes that took effect, in order; likewise the pops. */
  function Pushed(es: seq<Event>): seq<Record> {
    if es == [] then []
    else
      var last := es[|es| - 1];
      Pushed(es[..|es| - 1]) + (if last.CommitPush? then [last.x] else [])
  }

  function Popped(es: seq<Event>): seq<Record> {
    if es == [] then []
    else
      var last := es[|es| - 1];
      Popped(es[..|es| - 1]) + (if last.CommitPop? then [last.x] else [])
  }

  predicate Cleared(es: seq<Event>) {
    exists e | e in es :: e.CommitClear?
  }

  /** A history the sequential queue accepts is first in, first out, and bounded. */
  lemma {:induction false} FirstInFirstOut(capacity: nat, es: seq<Event>)
    requires AbsExec(capacity, es).Some? && !Cleared(es)
    ensures Pushed(es) == Popped(es) + AbsExec(capacity, es).value
    ensures |AbsExec(capacity, es).value| <= capacity
  {
    if es != [] {
      var before, e := es[..|es| - 1], es[|es| - 1];
      FirstInFirstOut(capacity, before);
      var q := AbsExec(capacity, before).value;
      if e.CommitPop? { assert q == [e.x] + q[1..]; }
    }
  }

  /** One step of the threads is one step of the sequential queue, provided the
      ring is sound and nobody commits through a closed guard. */
  lemma StepRefines(v: Variant, s: State, e: Event)
    requires Step(v, s, e).Some? && s.ring.Valid()
    requires (e.CommitPush? ==> !s.Full()) && (e.CommitPop? ==> !s.Empty())
    ensures var s' := Step(v, s, e).value;
            s'.ring.Valid() && AbsStep(|s.ring.slots|, s.ring.Contents(), e) == Some(s'.ring.Contents())
  {
    match e
    case CommitPush(t, x) => PutAppends(s.ring, x);
    case CommitPop(t, x) => TakeRemovesOldest(s.ring);
    case _ =>
  }

  /** Every run of any number of threads is a history of the sequential bounded
      queue, and the ring holds what that queue holds. */
  lemma {:induction false} RunsAreQueueHistories(slots: seq<Record>, es: seq<Event>)
    requires Exec(REPAIRED, Init(slots), es).Some?
    ensures var s := Exec(REPAIRED, Init(slots), es).value;
            s.ring.Valid() && AbsExec(|slots|, es) == Some(s.ring.Contents())
  {
    MonitorInvariant(slots, es);
    if es != [] {
      var before, e := es[..|es| - 1], es[|es| - 1];
      RunsAreQueueHistories(slots, before);
      MonitorInvariant(slots, before);
      var s := Exec(REPAIRED, Init(slots), before).value;
      assert e.t in s.pcs ==> GuardKept(s, s.pcs[e.t]);
      StepRefines(REPAIRED, s, e);
    }
  }

  /** Items pushed with success == items popped with success ++ items in the ring, in order. */
  lemma LinearizableFifo(slots: seq<Record>, es: seq<Event>)
    requires Exec(REPAIRED, Init(slots), es).Some? && !Cleared(es)
    ensures var s := Exec(REPAIRED, Init(slots), es).value;
            s.ring.Valid() && Pushed(es) == Popped(es) + s.ring.Contents()
  {
    RunsAreQueueHistories(slots, es);
    FirstInFirstOut(|slots|, es);
  }

  // ---------------------------------------------------------------- one call, one effect

  /** A thread's latest call and what it has done to the ring since. */
  datatype Duty = Duty(op: Option<Op>, wait: Wait, effects: seq<Event>)

  predicate IsEffect(e: Event) {
    e.CommitPush? || e.CommitPop? || e.CommitClear?
  }

  function DutyAfter(d: Duty, e: Event, t: Tid): Duty {
    if e.t != t then d
    else if e.Call? then Duty(Some(e.op), if e.op.Clear? then Forever else e.wait, [])
    else if IsEffect(e) then d.(effects := d.effects + [e])
    else d
  }

  function DutyOf(es: seq<Event>, t: Tid): Duty {
    if es == [] then Duty(None, NoWait, [])
    else DutyAfter(DutyOf(es[..|es| - 1], t), es[|es| - 1], t)
  }

  predicate Carries(e: Event, op: Op) {
    match op
    case Push(x) => e.CommitPush? && e.x == x
    case Pop => e.CommitPop?
    case Clear => e.CommitClear?
  }

  predicate DidIt(d: Duty) {
    d.op.Some? && |d.effects| == 1 && Carries(d.effects[0], d.op.value)
  }

  /** The errors each operation may return, by the timeout that goes with them. */
  predicate MayFail(op: Op, wait: Wait, rc: int) {
    match op
    case Push(_) =>
      || rc == LSP_ERR_MUTEX || (rc == LSP_ERR_QUEUE_FULL && wait.NoWait?)
      || (rc == LSP_ERR_TIMEOUT && wait.Bounded?) || (rc == LSP_ERR_INVALID && !wait.NoWait?)
    case Pop =>
      || rc == LSP_ERR_MUTEX || (rc == LSP_ERR_QUEUE_EMPTY && wait.NoWait?)
      || (rc == LSP_ERR_TIMEOUT && wait.Bounded?) || (rc == LSP_ERR_INVALID && !wait.NoWait?)
    case Clear => rc == LSP_ERR_RESOURCE_IN_USE
  }

  /** An error that fits its call, and nothing done. */
  predicate Excused(d: Duty, rc: int) {
    d.op.Some? && d.effects == [] && MayFail(d.op.value, d.wait, rc)
  }

  predicate OnDuty(pc: Pc, d: Duty) {
    match pc
    case Idle => true
    case Prechecking => d == Duty(Some(Clear), Forever, [])
    case Committing(op) => d.op == Some(op) && d.effects == []
    case Signalling(op) => d.op == Some(op) && DidIt(d)
    case Unlocking(rc) => if rc == LSP_ERR_NONE then DidIt(d) else Excused(d, rc)
    case Returning(rc) => if rc == LSP_ERR_NONE then DidIt(d) else Excused(d, rc)
    case _ =>
      && d == Duty(Some(pc.op), pc.wait, [])
      && (pc.Announced? || pc.Parked? || pc.Woken? ==> !pc.op.Clear? && !pc.wait.NoWait?)
      && (pc.Woken? && pc.cause.TimedOut? ==> pc.wait.Bounded?)
  }

  /** The thread that moves, by what it does: an effect, or another step. */
  lemma DutyEffect(v: Variant, s: State, e: Event, d: Duty)
    requires Step(v, s, e).Some? && OnDuty(s.At(e.t), d) && IsEffect(e)
    ensures OnDuty(Step(v, s, e).value.At(e.t), DutyAfter(d, e, e.t))
  {
  }

  lemma DutyMover(v: Variant, s: State, e: Event, d: Duty)
    requires Step(v, s, e).Some? && OnDuty(s.At(e.t), d) && !IsEffect(e)
    ensures OnDuty(Step(v, s, e).value.At(e.t), DutyAfter(d, e, e.t))
  {
  }

  lemma DutyStep(v: Variant, s: State, e: Event, t: Tid, d: Duty)
    requires Step(v, s, e).Some? && OnDuty(s.At(t), d)
    ensures OnDuty(Step(v, s, e).value.At(t), DutyAfter(d, e, t))
  {
    if e.t != t { OtherStands(v, s, e, t); }
    else if IsEffect(e) { DutyEffect(v, s, e, d); }
    else { DutyMover(v, s, e, d); }
  }

  /** Whatever the variant, a call returns success iff it changed the ring exactly
      once, as asked; a call that returns an error changed nothing, and the error
      fits its operation and its timeout. */
  lemma {:induction false} OneEffectIffSuccess(v: Variant, slots: seq<Record>, es: seq<Event>, t: Tid)
    requires Exec(v, Init(slots), es).Some?
    ensures OnDuty(Exec(v, Init(slots), es).value.At(t), DutyOf(es, t))
  {
    if es != [] {
      var before := es[..|es| - 1];
      OneEffectIffSuccess(v, slots, before, t);
      DutyStep(v, Exec(v, Init(slots), before).value, es[|es| - 1], t, DutyOf(before, t));
    }
  }

  lemma ReturnTellsTheTruth(v: Variant, slots: seq<Record>, es: seq<Event>, t: Tid, rc: int)
    requires Exec(v, Init(slots), es + [Return(t, rc)]).Some?
    ensures if rc == LSP_ERR_NONE then DidIt(DutyOf(es, t)) else Excused(DutyOf(es, t), rc)
  {
    var all := es + [Return(t, rc)];
    assert all[..|all| - 1] == es;
    OneEffectIffSuccess(v, slots, es, t);
  }
}
