/** Concurrent lsp_conn_alloc calls, slot by slot, beside frees that take no lock
    (src/lsp_conn.c). The scan bound is the pool size; the variants differ in
    whether a slot is claimed inside conn_mutex. */
module ConnRace {
  import opened LspTypes

  datatype Pc =
    | Idle
    | Locking
    | Looking(i: nat)                  // lock held, about to read slot i
    | Seen(i: nat)                     // lock held, slot i was free
    | Leaving(slot: Option<nat>)       // lock held, search over
    | Setup(slot: Option<nat>)         // lock released

  /** `used` says which slots are not CONN_FREE; `live` are the handles that were
      returned and not freed since. */
  datatype State = State(used: seq<bool>, live: multiset<nat>, holder: Option<Tid>, pcs: map<Tid, Pc>)
  {
    function At(t: Tid): Pc {
      if t in pcs then pcs[t] else Idle
    }

    function Goto(t: Tid, pc: Pc): State {
      this.(pcs := pcs[t := pc])
    }
  }

  datatype Event =
    | Call(t: Tid)
    | Lock(t: Tid)
    | Look(t: Tid)
    | Take(t: Tid)                     // break out of the scan, claiming or not
    | Unlock(t: Tid)
    | SetupFails(t: Tid)               // no memory for a queue or an event group
    | Return(t: Tid)
    | Release(t: Tid, i: nat)          // lsp_conn_free writes CONN_FREE

  function Init(n: nat): State {
    State(seq(n, _ => false), multiset{}, None, map[])
  }

  function Step(claimLocked: bool, s: State, e: Event): Option<State> {
    var pc := s.At(e.t);
    match e
    case Call(t) =>
      if pc.Idle? then Some(s.Goto(t, Locking)) else None
    case Lock(t) =>
      if pc.Locking? && s.holder.None? then Some(s.(holder := Some(t)).Goto(t, Looking(0))) else None
    case Look(t) =>
      if !pc.Looking? then None
      else if pc.i >= |s.used| then Some(s.Goto(t, Leaving(None)))
      else Some(s.Goto(t, if s.used[pc.i] then Looking(pc.i + 1) else Seen(pc.i)))
    case Take(t) =>
      if !pc.Seen? || pc.i >= |s.used| then None
      else Some(s.(used := if claimLocked then s.used[pc.i := true] else s.used).Goto(t, Leaving(Some(pc.i))))
    case Unlock(t) =>
      if pc.Leaving? then Some(s.(holder := None).Goto(t, Setup(pc.slot))) else None
    case SetupFails(t) =>
      if !pc.Setup? || pc.slot.None? || pc.slot.value >= |s.used| then None
      else Some(s.(used := if claimLocked then s.used[pc.slot.value := false] else s.used).Goto(t, Idle))
    case Return(t) =>
      if !pc.Setup? then None
      else if pc.slot.None? then Some(s.Goto(t, Idle))
      else if pc.slot.value >= |s.used| then None
      else Some(s.(used := s.used[pc.slot.value := true], live := s.live + multiset{pc.slot.value}).Goto(t, Idle))
    case Release(t, i) =>
      if pc.Idle? && i in s.live && i < |s.used|
      then Some(s.(used := s.used[i := false], live := s.live - multiset{i}).Goto(t, Idle)) else None
  }

  function Exec(claimLocked: bool, n: nat, es: seq<Event>): Option<State> {
    if es == [] then Some(Init(n))
    else
      match Exec(claimLocked, n, es[..|es| - 1])
      case None => None
      case Some(m) => Step(claimLocked, m, es[|es| - 1])
  }

  // ---------------------------------------------------------------- slot ownership

  /** The slot a thread has picked and not yet handed out. */
  predicate Picked(pc: Pc, i: nat) {
    (pc.Leaving? || pc.Setup?) && pc.slot == Some(i)
  }

  predicate HasPicked(pc: Pc) {
    (pc.Leaving? || pc.Setup?) && pc.slot.Some?
  }

  /** Inside the mutex. */
  predicate Holds(pc: Pc) {
    pc.Looking? || pc.Seen? || pc.Leaving?
  }

  ghost predicate Exclusive(s: State) {
    forall t: Tid :: Holds(s.At(t)) <==> s.holder == Some(t)
  }

  ghost predicate PcKept(s: State, t: Tid) {
    var pc := s.At(t);
    && (pc.Seen? ==> pc.i < |s.used| && !s.used[pc.i])
    && (HasPicked(pc) ==> pc.slot.value < |s.used| && s.used[pc.slot.value] && pc.slot.value !in s.live)
  }

  /** A live handle names a used slot, and no other live handle names it. */
  ghost predicate LiveKept(s: State) {
    forall i | i in s.live :: i < |s.used| && s.used[i] && s.live[i] == 1
  }

  ghost predicate PicksDiffer(s: State) {
    forall t: Tid, u: Tid, i: nat | Picked(s.At(t), i) && Picked(s.At(u), i) :: t == u
  }

  ghost predicate Owned(s: State) {
    LiveKept(s) && (forall t: Tid :: PcKept(s, t)) && PicksDiffer(s)
  }

  lemma HoldsStep(claimLocked: bool, s: State, e: Event, t: Tid)
    requires (Holds(s.At(t)) <==> s.holder == Some(t)) && (Holds(s.At(e.t)) <==> s.holder == Some(e.t))
    requires Step(claimLocked, s, e).Some?
    ensures var s' := Step(claimLocked, s, e).value;
            Holds(s'.At(t)) <==> s'.holder == Some(t)
  {
  }

  lemma ExclusiveStep(claimLocked: bool, s: State, e: Event)
    requires Exclusive(s) && Step(claimLocked, s, e).Some?
    ensures Exclusive(Step(claimLocked, s, e).value)
  {
    assert Holds(s.At(e.t)) <==> s.holder == Some(e.t);
    var s' := Step(claimLocked, s, e).value;
    forall t: Tid ensures Holds(s'.At(t)) <==> s'.holder == Some(t) {
      assert Holds(s.At(t)) <==> s.holder == Some(t);
      HoldsStep(claimLocked, s, e, t);
    }
  }

  lemma LiveStep(s: State, e: Event)
    requires LiveKept(s) && PcKept(s, e.t) && Step(true, s, e).Some?
    ensures LiveKept(Step(true, s, e).value)
  {
  }

  lemma MoverStep(s: State, e: Event)
    requires LiveKept(s) && PcKept(s, e.t) && Step(true, s, e).Some?
    ensures PcKept(Step(true, s, e).value, e.t)
  {
  }

  lemma OtherStep(s: State, e: Event, t: Tid)
    requires LiveKept(s) && PcKept(s, e.t) && PcKept(s, t) && !(Holds(s.At(t)) && Holds(s.At(e.t)))
    requires HasPicked(s.At(t)) && HasPicked(s.At(e.t)) ==> s.At(t).slot != s.At(e.t).slot
    requires Step(true, s, e).Some? && t != e.t
    ensures PcKept(Step(true, s, e).value, t)
  {
    var pc := s.At(t);
    OtherAlone(s, e, t);
    if pc.Seen? {
      UsedElsewhere(s, e, pc.i);
    } else if HasPicked(pc) {
      UsedElsewhere(s, e, pc.slot.value);
      LiveElsewhere(s, e, pc.slot.value);
    }
  }

  /** The slot whose state or handle a step changes, if any. */
  function Touched(s: State, e: Event): Option<nat> {
    var pc := s.At(e.t);
    match e
    case Take(_) => if pc.Seen? then Some(pc.i) else None
    case SetupFails(_) => if HasPicked(pc) then pc.slot else None
    case Return(_) => if HasPicked(pc) then pc.slot else None
    case Release(_, i) => Some(i)
    case _ => None
  }

  lemma OtherAlone(s: State, e: Event, t: Tid)
    requires Step(true, s, e).Some? && t != e.t
    ensures |Step(true, s, e).value.used| == |s.used| && Step(true, s, e).value.At(t) == s.At(t)
  {
  }

  lemma UsedElsewhere(s: State, e: Event, j: nat)
    requires Step(true, s, e).Some? && Touched(s, e) != Some(j) && j < |s.used|
    ensures j < |Step(true, s, e).value.used| && Step(true, s, e).value.used[j] == s.used[j]
  {
  }

  lemma LiveElsewhere(s: State, e: Event, j: nat)
    requires Step(true, s, e).Some? && Touched(s, e) != Some(j)
    ensures j in Step(true, s, e).value.live <==> j in s.live
  {
  }

  /** A thread has picked a slot because it had before, or because it found it free just now. */
  lemma PickedSince(s: State, e: Event, t: Tid, i: nat)
    requires Step(true, s, e).Some? && Picked(Step(true, s, e).value.At(t), i)
    ensures Picked(s.At(t), i) || (e == Take(t) && s.At(t) == Seen(i))
  {
  }

  lemma PicksStep(s: State, e: Event)
    requires PicksDiffer(s) && (forall t: Tid :: PcKept(s, t)) && Step(true, s, e).Some?
    ensures PicksDiffer(Step(true, s, e).value)
  {
    var s' := Step(true, s, e).value;
    forall t: Tid, u: Tid, i: nat | Picked(s'.At(t), i) && Picked(s'.At(u), i) ensures t == u {
      PickedSince(s, e, t, i);
      PickedSince(s, e, u, i);
      assert PcKept(s, t) && PcKept(s, u);
    }
  }

  lemma OwnedStep(s: State, e: Event)
    requires Exclusive(s) && Owned(s) && Step(true, s, e).Some?
    ensures Owned(Step(true, s, e).value)
  {
    assert PcKept(s, e.t);
    LiveStep(s, e);
    MoverStep(s, e);
    PicksStep(s, e);
    forall t: Tid | t != e.t ensures PcKept(Step(true, s, e).value, t) {
      assert PcKept(s, t);
      assert !(Holds(s.At(t)) && Holds(s.At(e.t)));
      assert HasPicked(s.At(t)) ==> Picked(s.At(t), s.At(t).slot.value);
      assert HasPicked(s.At(e.t)) ==> Picked(s.At(e.t), s.At(e.t).slot.value);
      OtherStep(s, e, t);
    }
  }

  lemma KeepsAll(s: State, e: Event)
    requires Exclusive(s) && Owned(s) && Step(true, s, e).Some?
    ensures var s' := Step(true, s, e).value;
            Exclusive(s') && Owned(s') && |s'.used| == |s.used|
  {
    ExclusiveStep(true, s, e);
    OwnedStep(s, e);
  }

  lemma {:induction false} OwnedAlways(n: nat, es: seq<Event>)
    requires Exec(true, n, es).Some?
    ensures var s := Exec(true, n, es).value;
            Exclusive(s) && Owned(s) && |s.used| == n
  {
    if es != [] {
      var before, e := es[..|es| - 1], es[|es| - 1];
      OwnedAlways(n, before);
      KeepsAll(Exec(true, n, before).value, e);
    }
  }

  /** Claiming under the mutex: in every interleaving of any number of allocating
      and freeing threads no two live handles name the same slot, and every live
      handle names a slot that is not free. */
  lemma HandlesAreExclusive(n: nat, es: seq<Event>, i: nat)
    requires Exec(true, n, es).Some?
    ensures var s := Exec(true, n, es).value;
            s.live[i] <= 1 && (i in s.live ==> i < |s.used| && s.used[i])
  {
    OwnedAlways(n, es);
  }

  // ---------------------------------------------------------------- conservation

  function FreeCount(used: seq<bool>): nat {
    if used == [] then 0 else FreeCount(used[..|used| - 1]) + (if used[|used| - 1] then 0 else 1)
  }

  function One(b: bool): nat { if b then 1 else 0 }

  lemma {:induction false} FreeCountUpdate(used: seq<bool>, i: nat, b: bool)
    requires i < |used|
    ensures FreeCount(used[i := b]) == FreeCount(used) - One(!used[i]) + One(!b)
  {
    var n := |used| - 1;
    if i == n {
      assert used[i := b][..n] == used[..n];
    } else {
      FreeCountUpdate(used[..n], i, b);
      assert used[i := b][..n] == used[..n][i := b];
    }
  }

  /** Threads between picking a slot and handing it out or giving up. */
  function Pickers(pcs: map<Tid, Pc>): set<Tid> {
    set t | t in pcs && HasPicked(pcs[t])
  }

  lemma PickersAfter(pcs: map<Tid, Pc>, t: Tid, pc: Pc)
    ensures |Pickers(pcs[t := pc])| == |Pickers(pcs)| - One(t in pcs && HasPicked(pcs[t])) + One(HasPicked(pc))
  {
    PickersSet(pcs, t, pc);
    var before := Pickers(pcs);
    assert t in before <==> t in pcs && HasPicked(pcs[t]);
    if t in before { assert before + {t} == before; } else { assert before - {t} == before; }
  }

  lemma PickersSet(pcs: map<Tid, Pc>, t: Tid, pc: Pc)
    ensures Pickers(pcs[t := pc]) == if HasPicked(pc) then Pickers(pcs) + {t} else Pickers(pcs) - {t}
  {
  }

  function Accounted(s: State): int {
    |s.live| + |Pickers(s.pcs)| + FreeCount(s.used)
  }

  lemma AccountedStep(s: State, e: Event)
    requires LiveKept(s) && PcKept(s, e.t) && Step(true, s, e).Some?
    ensures Accounted(Step(true, s, e).value) == Accounted(s)
  {
    var s' := Step(true, s, e).value;
    PickersAfter(s.pcs, e.t, s'.At(e.t));
    match e
    case Take(t) => FreeCountUpdate(s.used, s.At(t).i, true);
    case SetupFails(t) => FreeCountUpdate(s.used, s.At(t).slot.value, false);
    case Return(t) => if s.At(t).slot.Some? { FreeCountUpdate(s.used, s.At(t).slot.value, true); }
    case Release(t, i) => FreeCountUpdate(s.used, i, false);
    case _ =>
  }

  lemma {:induction false} AllFree(n: nat)
    ensures FreeCount(seq(n, _ => false)) == n
  {
    if n > 0 {
      AllFree(n - 1);
      assert seq(n, _ => false)[..n - 1] == seq(n - 1, _ => false);
    }
  }

  /** Live handles, slots on their way to one, and free slots always add up to the pool. */
  lemma {:induction false} SlotsConserved(n: nat, es: seq<Event>)
    requires Exec(true, n, es).Some?
    ensures Accounted(Exec(true, n, es).value) == n
  {
    if es == [] {
      AllFree(n);
      assert Pickers(Init(n).pcs) == {};
    } else {
      var s := Exec(true, n, es[..|es| - 1]).value;
      SlotsConserved(n, es[..|es| - 1]);
      OwnedAlways(n, es[..|es| - 1]);
      assert PcKept(s, es[|es| - 1].t);
      AccountedStep(s, es[|es| - 1]);
    }
  }

  // ---------------------------------------------------------------- one call, one handle

  /** The slot at which a thread's latest call stopped searching, if it has. */
  ghost function TakenBy(claimLocked: bool, n: nat, es: seq<Event>, t: Tid): Option<nat>
    requires Exec(claimLocked, n, es).Some?
  {
    if es == [] then None
    else
      var before, e := es[..|es| - 1], es[|es| - 1];
      if e == Call(t) then None
      else if e == Take(t) then Some(Exec(claimLocked, n, before).value.At(t).i)
      else TakenBy(claimLocked, n, before, t)
  }

  predicate OnCourse(pc: Pc, taken: Option<nat>) {
    && (pc.Locking? || pc.Looking? || pc.Seen? ==> taken == None)
    && (pc.Leaving? || pc.Setup? ==> taken == pc.slot)
  }

  lemma {:induction false} CourseAlways(claimLocked: bool, n: nat, es: seq<Event>, t: Tid)
    requires Exec(claimLocked, n, es).Some?
    ensures OnCourse(Exec(claimLocked, n, es).value.At(t), TakenBy(claimLocked, n, es, t))
  {
    if es != [] {
      CourseAlways(claimLocked, n, es[..|es| - 1], t);
      var s, taken := Exec(claimLocked, n, es[..|es| - 1]).value, TakenBy(claimLocked, n, es[..|es| - 1], t);
      CourseStep(claimLocked, s, es[|es| - 1], t, taken);
    }
  }

  lemma CourseStep(claimLocked: bool, s: State, e: Event, t: Tid, taken: Option<nat>)
    requires Step(claimLocked, s, e).Some? && OnCourse(s.At(t), taken)
    ensures e == Take(t) ==> s.At(t).Seen?
    ensures OnCourse(Step(claimLocked, s, e).value.At(t),
                     if e == Call(t) then None else if e == Take(t) then Some(s.At(t).i) else taken)
  {
  }

  /** In both variants a call that returns hands out exactly the slot at which its own
      search stopped, and that slot is in use; if it stopped at none, it hands out none
      and touches nothing. */
  lemma ReturnsWhatItTook(claimLocked: bool, n: nat, es: seq<Event>, t: Tid)
    requires Exec(claimLocked, n, es + [Return(t)]).Some?
    ensures Exec(claimLocked, n, es).Some?
    ensures var s, s' := Exec(claimLocked, n, es).value, Exec(claimLocked, n, es + [Return(t)]).value;
            match TakenBy(claimLocked, n, es, t)
            case Some(i) => i < |s.used| && s'.live == s.live + multiset{i} && s'.used == s.used[i := true]
            case None => s'.live == s.live && s'.used == s.used
  {
    assert (es + [Return(t)])[..|es|] == es;
    CourseAlways(claimLocked, n, es, t);
  }

  // ---------------------------------------------------------------- the search

  /** Was some slot freed since t last took the lock? */
  function FreedSince(es: seq<Event>, t: Tid): bool {
    if es == [] then false
    else
      var last := es[|es| - 1];
      if last.Release? || last.SetupFails? then true
      else if last == Lock(t) then false
      else FreedSince(es[..|es| - 1], t)
  }

  ghost predicate Searched(s: State, t: Tid, freed: bool) {
    var pc := s.At(t);
    && (pc.Looking? && !freed ==> pc.i <= |s.used| && forall j | 0 <= j < pc.i :: s.used[j])
    && (pc == Leaving(None) && !freed ==> forall j | 0 <= j < |s.used| :: s.used[j])
  }

  lemma SearchedStep(s: State, e: Event, t: Tid, freed: bool)
    requires Searched(s, t, freed) && Step(true, s, e).Some?
    ensures Searched(Step(true, s, e).value, t, e.Release? || e.SetupFails? || (e != Lock(t) && freed))
  {
  }

  lemma {:induction false} SearchedAlways(n: nat, es: seq<Event>, t: Tid)
    requires Exec(true, n, es).Some?
    ensures Searched(Exec(true, n, es).value, t, FreedSince(es, t))
  {
    if es != [] {
      SearchedAlways(n, es[..|es| - 1], t);
      SearchedStep(Exec(true, n, es[..|es| - 1]).value, es[|es| - 1], t, FreedSince(es[..|es| - 1], t));
    }
  }

  /** The search is honest: it stops at a slot only if that slot is free right then,
      and it gives up only if no slot is free, unless one was freed while it ran. */
  lemma SearchFailsOnlyWhenFull(n: nat, es: seq<Event>, t: Tid)
    requires Exec(true, n, es).Some?
    ensures var s := Exec(true, n, es).value;
            && (s.At(t).Seen? ==> s.At(t).i < |s.used| && !s.used[s.At(t).i])
            && (s.At(t) == Leaving(None) && !FreedSince(es, t) ==> FreeCount(s.used) == 0)
  {
    OwnedAlways(n, es);
    SearchedAlways(n, es, t);
    var s := Exec(true, n, es).value;
    assert PcKept(s, t);
    if s.At(t) == Leaving(None) && !FreedSince(es, t) { NoneFree(s.used); }
  }

  lemma {:induction false} NoneFree(used: seq<bool>)
    ensures FreeCount(used) == 0 <==> forall j | 0 <= j < |used| :: used[j]
  {
    if used != [] {
      NoneFree(used[..|used| - 1]);
      assert forall j | 0 <= j < |used| - 1 :: used[..|used| - 1][j] == used[j];
    }
  }

  /** The pool is full, and t is not on its way to a slot. */
  ghost predicate Fails(s: State, t: Tid) {
    var pc := s.At(t);
    && (pc.Idle? || pc.Looking? || pc == Leaving(None) || pc == Setup(None))
    && forall j | 0 <= j < |s.used| :: s.used[j]
  }

  lemma StillFails(s: State, e: Event, t: Tid)
    requires Fails(s, t) && Step(true, s, e).Some?
    requires !e.Release? && !e.SetupFails? && e != Call(t)
    ensures Fails(Step(true, s, e).value, t)
  {
  }

  /** A run with one more event. */
  lemma LastStep(n: nat, es: seq<Event>, e: Event)
    requires Exec(true, n, es + [e]).Some?
    ensures Exec(true, n, es).Some? && Exec(true, n, es + [e]) == Step(true, Exec(true, n, es).value, e)
  {
    assert (es + [e])[..|es|] == es;
  }

  /** And the other way round: a search that begins on a full pool finds nothing,
      whatever other threads allocate meanwhile, unless a slot is freed. */
  lemma {:induction false} FullPoolFails(n: nat, before: seq<Event>, t: Tid, after: seq<Event>)
    requires Exec(true, n, before + [Lock(t)] + after).Some?
    requires Exec(true, n, before).Some? && FreeCount(Exec(true, n, before).value.used) == 0
    requires forall e | e in after :: !e.Release? && !e.SetupFails? && e != Call(t)
    ensures Fails(Exec(true, n, before + [Lock(t)] + after).value, t)
  {
    var locked := before + [Lock(t)];
    if after == [] {
      assert locked + after == locked;
      LastStep(n, before, Lock(t));
      NoneFree(Exec(true, n, before).value.used);
      LockFails(Exec(true, n, before).value, t);
    } else {
      var k := |after| - 1;
      assert locked + after == locked + after[..k] + [after[k]];
      LastStep(n, locked + after[..k], after[k]);
      FullPoolFails(n, before, t, after[..k]);
      StillFails(Exec(true, n, locked + after[..k]).value, after[k], t);
    }
  }

  lemma LockFails(s: State, t: Tid)
    requires Step(true, s, Lock(t)).Some? && forall j | 0 <= j < |s.used| :: s.used[j]
    ensures Fails(Step(true, s, Lock(t)).value, t)
  {
  }

  // ---------------------------------------------------------------- the claim after the unlock, as written

  ghost predicate Runs(n: nat, allocators: set<Tid>, es: seq<Event>, s: State) {
    (forall e | e in es :: e.Call? ==> e.t in allocators) && Exec(false, n, es) == Some(s)
  }

  /** No run of these allocating threads, beside any frees, gives one slot to two. */
  ghost predicate Safe(n: nat, allocators: set<Tid>) {
    forall es, s, i: nat :: Runs(n, allocators, es, s) ==> s.live[i] <= 1
  }

  lemma Go(n: nat, allocators: set<Tid>, es: seq<Event>, s: State, e: Event) returns (es': seq<Event>, s': State)
    requires Runs(n, allocators, es, s) && (e.Call? ==> e.t in allocators) && Step(false, s, e).Some?
    ensures Runs(n, allocators, es', s') && Step(false, s, e) == Some(s')
  {
    es', s' := es + [e], Step(false, s, e).value;
    assert es'[..|es'| - 1] == es;
  }

  ghost predicate Unclaimed(s: State, t: Tid) {
    var pc := s.At(t);
    && (pc.Seen? ==> pc.i < |s.used| && !s.used[pc.i])
    && (HasPicked(pc) ==> pc.slot.value < |s.used| && !s.used[pc.slot.value])
  }

  lemma LateLiveStep(s: State, e: Event)
    requires LiveKept(s) && Unclaimed(s, e.t) && Step(false, s, e).Some?
    ensures LiveKept(Step(false, s, e).value)
  {
  }

  lemma UnclaimedMover(s: State, e: Event)
    requires Unclaimed(s, e.t) && Step(false, s, e).Some?
    ensures Unclaimed(Step(false, s, e).value, e.t)
  {
  }

  /** A thread that is not the allocator cannot use up a slot. */
  lemma UnclaimedOther(s: State, e: Event, t: Tid)
    requires Unclaimed(s, t) && t != e.t && (s.At(t).Idle? || s.At(e.t).Idle?) && Step(false, s, e).Some?
    ensures Unclaimed(Step(false, s, e).value, t) && Step(false, s, e).value.At(t) == s.At(t)
  {
  }

  ghost predicate AllocatorsOnly(s: State, allocators: set<Tid>) {
    forall t: Tid :: Unclaimed(s, t) && (!s.At(t).Idle? ==> t in allocators)
  }

  lemma AllocatorsOnlyStep(s: State, e: Event, allocators: set<Tid>)
    requires |allocators| <= 1 && AllocatorsOnly(s, allocators)
    requires Step(false, s, e).Some? && (e.Call? ==> e.t in allocators)
    ensures AllocatorsOnly(Step(false, s, e).value, allocators)
  {
    var s' := Step(false, s, e).value;
    assert Unclaimed(s, e.t) && (!s.At(e.t).Idle? ==> e.t in allocators);
    UnclaimedMover(s, e);
    forall t: Tid | t != e.t ensures Unclaimed(s', t) && (!s'.At(t).Idle? ==> t in allocators) {
      assert Unclaimed(s, t) && (!s.At(t).Idle? ==> t in allocators);
      if t in allocators {
        var rest := allocators - {t};
        assert |rest| == 0;
        assert e.t !in rest;
      }
      UnclaimedOther(s, e, t);
    }
  }

  lemma {:induction false} OneAllocatorOwns(n: nat, allocators: set<Tid>, es: seq<Event>, s: State)
    requires |allocators| <= 1 && Runs(n, allocators, es, s)
    ensures LiveKept(s) && AllocatorsOnly(s, allocators)
  {
    if es != [] {
      var before, e := es[..|es| - 1], es[|es| - 1];
      var m := Exec(false, n, before).value;
      OneAllocatorOwns(n, allocators, before, m);
      assert Unclaimed(m, e.t);
      LateLiveStep(m, e);
      AllocatorsOnlyStep(m, e, allocators);
    }
  }

  /** A thread gets through its search on a pool whose first slot is free. */
  lemma PicksFirst(n: nat, allocators: set<Tid>, es: seq<Event>, s: State, t: Tid) returns (es': seq<Event>, s': State)
    requires Runs(n, allocators, es, s) && t in allocators && s.At(t).Idle? && s.holder.None?
    requires |s.used| > 0 && !s.used[0]
    ensures Runs(n, allocators, es', s') && s'.used == s.used && s'.live == s.live && s'.holder.None?
    ensures s'.At(t) == Setup(Some(0)) && forall u: Tid | u != t :: s'.At(u) == s.At(u)
  {
    es', s' := Go(n, allocators, es, s, Call(t));
    es', s' := Go(n, allocators, es', s', Lock(t));
    es', s' := Go(n, allocators, es', s', Look(t));
    es', s' := Go(n, allocators, es', s', Take(t));
    es', s' := Go(n, allocators, es', s', Unlock(t));
  }

  lemma TwoGetTheSameSlot(n: nat, allocators: set<Tid>, a: Tid, b: Tid)
    requires n > 0 && a in allocators && b in allocators && a != b
    ensures !Safe(n, allocators)
  {
    var es, s := PicksFirst(n, allocators, [], Init(n), a);
    es, s := PicksFirst(n, allocators, es, s, b);
    es, s := Go(n, allocators, es, s, Return(a));
    es, s := Go(n, allocators, es, s, Return(b));
    assert s.live[0] == 2;
  }

  /** With the claim after the unlock, handles stay exclusive in every run iff at
      most one thread ever allocates (on a pool that is not empty). */
  lemma LateClaimSafeIff(n: nat, allocators: set<Tid>)
    requires n > 0
    ensures Safe(n, allocators) <==> |allocators| <= 1
  {
    if |allocators| <= 1 {
      forall es, s, i: nat | Runs(n, allocators, es, s) ensures s.live[i] <= 1 {
        OneAllocatorOwns(n, allocators, es, s);
        if i in s.live { assert s.live[i] == 1; }
      }
    } else {
      var a :| a in allocators;
      var rest := allocators - {a};
      assert |rest| == |allocators| - 1;
      var b :| b in rest;
      TwoGetTheSameSlot(n, allocators, a, b);
    }
  }
}
