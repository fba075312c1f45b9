/** Left to themselves, the threads of the queue come to rest: the steps they can
    take without new calls, timeouts and stray wakeups run out
    (src/arch/posix/lsp_queue.c). */
module QueueRest {
  import opened LspTypes
  import opened Ring
  import opened QueueMonitor

  /** How far a thread is from rest. A signal wakes one thread up by less than it
      takes the signaller down. */
  function Weight(pc: Pc): nat {
    match pc
    case Idle => 0
    case Returning(_) => 1
    case Unlocking(_) => 2
    case Signalling(_) => 6
    case Committing(_) => 7
    case Parked(_, _) => 6
    case Announced(_, _) => 7
    case Checking(_, _) => 8
    case Woken(_, _, _) => 9
    case Locking(_, _) => 9
    case Prechecking => MAX_WEIGHT
  }

  const MAX_WEIGHT: nat := 10

  function Min(a: nat, b: nat): nat { if a < b then a else b }

  predicate AtLeast(pc: Pc, k: nat) { Weight(pc) >= k }

  /** The weights of all threads, cut off at k, added up layer by layer. */
  function Layers(pcs: map<Tid, Pc>, k: nat): nat {
    if k == 0 then 0 else Layers(pcs, k - 1) + |Those(pcs, pc => AtLeast(pc, k))|
  }

  function Total(s: State): nat {
    Layers(s.pcs, MAX_WEIGHT)
  }

  lemma {:induction false} LayersAfter(pcs: map<Tid, Pc>, t: Tid, pc: Pc, k: nat)
    ensures Layers(pcs[t := pc], k) ==
              Layers(pcs, k) - (if t in pcs then Min(k, Weight(pcs[t])) else 0) + Min(k, Weight(pc))
  {
    if k > 0 {
      LayersAfter(pcs, t, pc, k - 1);
      CountAfter(pcs, t, pc, pc => AtLeast(pc, k));
    }
  }

  lemma {:induction false} LayersBounded(pcs: map<Tid, Pc>, k: nat)
    ensures Layers(pcs, k) <= k * |pcs|
  {
    if k > 0 {
      LayersBounded(pcs, k - 1);
      var layer := Those(pcs, pc => AtLeast(pc, k));
      SubsetSize(layer, pcs.Keys);
      assert k * |pcs| == (k - 1) * |pcs| + |pcs|;
    }
  }

  lemma {:induction false} SubsetSize(a: set<Tid>, b: set<Tid>)
    requires a <= b
    ensures |a| <= |b|
  {
    assert a + (b - a) == b;
  }

  /** One thread's own step takes it down. */
  lemma MoverLighter(v: Variant, s: State, e: Event)
    requires Step(v, s, e).Some? && OwnStep(e)
    ensures var s' := Step(v, s, e).value;
            && e.t in s.pcs
            && if e.Signal? && e.woken.Some? then
                 && e.woken.value in s.pcs && e.woken.value != e.t
                 && s'.pcs == s.pcs[e.t := s'.At(e.t)][e.woken.value := s'.At(e.woken.value)]
                 && Weight(s'.At(e.t)) + Weight(s'.At(e.woken.value)) < Weight(s.At(e.t)) + Weight(s.At(e.woken.value))
               else s'.pcs == s.pcs[e.t := s'.At(e.t)] && Weight(s'.At(e.t)) < Weight(s.At(e.t))
  {
  }

  lemma OwnStepLighter(v: Variant, s: State, e: Event)
    requires Step(v, s, e).Some? && OwnStep(e)
    ensures Total(Step(v, s, e).value) < Total(s) && Step(v, s, e).value.pcs.Keys == s.pcs.Keys
  {
    var s' := Step(v, s, e).value;
    MoverLighter(v, s, e);
    var m := s.pcs[e.t := s'.At(e.t)];
    LayersAfter(s.pcs, e.t, s'.At(e.t), MAX_WEIGHT);
    if e.Signal? && e.woken.Some? {
      LayersAfter(m, e.woken.value, s'.At(e.woken.value), MAX_WEIGHT);
    }
  }

  /** In every variant and from every state, a run of own steps is no longer than
      ten times the number of threads. */
  lemma {:induction false} OwnStepsRunOut(v: Variant, s: State, es: seq<Event>)
    requires Exec(v, s, es).Some? && forall e | e in es :: OwnStep(e)
    ensures |es| + Total(Exec(v, s, es).value) <= Total(s) <= MAX_WEIGHT * |s.pcs|
  {
    LayersBounded(s.pcs, MAX_WEIGHT);
    if es != [] {
      var before := es[..|es| - 1];
      OwnStepsRunOut(v, s, before);
      OwnStepLighter(v, Exec(v, s, before).value, es[|es| - 1]);
    }
  }

  predicate AtRest(s: State) {
    forall t | t in s.pcs :: s.pcs[t].Idle? || s.pcs[t].Parked?
  }

  lemma NextOwnStep(slots: seq<Record>, es: seq<Event>, s: State) returns (e: Event, s': State)
    requires Exec(REPAIRED, Init(slots), es) == Some(s) && !AtRest(s)
    ensures OwnStep(e) && Exec(REPAIRED, Init(slots), es + [e]) == Some(s') && Total(s') < Total(s)
  {
    var t :| t in s.pcs && !s.pcs[t].Idle? && !s.pcs[t].Parked?;
    Progress(slots, es, t);
    e :| Step(REPAIRED, s, e).Some? && OwnStep(e);
    OwnStepLighter(REPAIRED, s, e);
    s' := Step(REPAIRED, s, e).value;
    assert (es + [e])[..|es|] == es;
  }

  /** And they end well: from every reachable state of the repaired queue, own steps
      lead to one where everybody is idle or parked, and by QueueMonitor.OnlyJustifiedSleep
      nobody is parked there who should not be. */
  lemma ComesToRest(slots: seq<Record>, es: seq<Event>, s: State)
    returns (own: seq<Event>, s': State)
    requires Exec(REPAIRED, Init(slots), es) == Some(s)
    ensures Exec(REPAIRED, Init(slots), es + own) == Some(s') && AtRest(s')
    ensures |own| <= Total(s) && forall e | e in own :: OwnStep(e)
  {
    own, s' := [], s;
    var all := es;
    while !AtRest(s')
      invariant all == es + own && Exec(REPAIRED, Init(slots), all) == Some(s')
      invariant |own| + Total(s') <= Total(s)
      invariant forall e | e in own :: OwnStep(e)
      decreases Total(s')
    {
      var e;
      e, s' := NextOwnStep(slots, all, s');
      own, all := own + [e], all + [e];
    }
  }
}
