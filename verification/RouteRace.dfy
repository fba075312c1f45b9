/** Concurrent lsp_route_add calls, step by step (src/lsp_routing.c). The list test
    and the stored speed are the repaired ones; the variants differ in whether the
    scan and the comparison happen inside rtable_mutex. */
module RouteRace {
  import opened LspTypes
  import opened RouteOrder

  /** What an adder means to do. Routes are never removed, only put in front, so the
      distance from the end of the list names a route for good. */
  datatype Plan = Insert | Replace(fromEnd: nat) | Keep

  datatype Pc =
    | Idle
    | Scanning(o: Offer)
    | Comparing(o: Offer, fromEnd: nat)           // the route found, 0 for none
    | Locking(o: Offer, next: Option<Plan>)       // waiting for rtable_mutex
    | Acting(o: Offer, plan: Plan)                // lock held
    | Unlocking

  datatype State = State(routes: seq<Route>, holder: Option<Tid>, pcs: map<Tid, Pc>)
  {
    function At(t: Tid): Pc {
      if t in pcs then pcs[t] else Idle
    }

    function Goto(t: Tid, pc: Pc): State {
      this.(pcs := pcs[t := pc])
    }
  }

  datatype Event =
    | Call(t: Tid, o: Offer)
    | Lock(t: Tid)
    | Scan(t: Tid)
    | Compare(t: Tid)
    | Write(t: Tid, o: Offer)
    | Unlock(t: Tid)

  const INIT := State([], None, map[])

  function PlanFor(rs: seq<Route>, o: Offer, fromEnd: nat): Plan
    requires fromEnd <= |rs|
  {
    if fromEnd == 0 then Insert
    else if AsU32(o.linkspeed) < rs[|rs| - fromEnd].linkspeed then Replace(fromEnd) else Keep
  }

  function Carry(rs: seq<Route>, o: Offer, plan: Plan): seq<Route>
    requires plan.Replace? ==> 0 < plan.fromEnd <= |rs|
  {
    match plan
    case Insert => [RouteOf(o)] + rs
    case Replace(d) => rs[|rs| - d := rs[|rs| - d].(iface := o.iface, linkspeed := AsU32(o.linkspeed))]
    case Keep => rs
  }

  function Step(scanLocked: bool, s: State, e: Event): Option<State> {
    var pc := s.At(e.t);
    match e
    case Call(t, o) =>
      if !pc.Idle? then None
      else Some(s.Goto(t, if scanLocked then Locking(o, None) else Scanning(o)))
    case Lock(t) =>
      if !pc.Locking? || s.holder.Some? then None
      else Some(s.(holder := Some(t)).Goto(t, if pc.next.None? then Scanning(pc.o) else Acting(pc.o, pc.next.value)))
    case Scan(t) =>
      if pc.Scanning? then Some(s.Goto(t, Comparing(pc.o, |s.routes| - FirstFor(s.routes, pc.o.addr)))) else None
    case Compare(t) =>
      if !pc.Comparing? || pc.fromEnd > |s.routes| then None
      else
        var plan := PlanFor(s.routes, pc.o, pc.fromEnd);
        Some(s.Goto(t, if scanLocked then Acting(pc.o, plan)
                       else if plan.Keep? then Idle else Locking(pc.o, Some(plan))))
    case Write(t, o) =>
      if pc.Acting? && pc.o == o && (pc.plan.Replace? ==> 0 < pc.plan.fromEnd <= |s.routes|)
      then Some(s.(routes := Carry(s.routes, o, pc.plan)).Goto(t, Unlocking)) else None
    case Unlock(t) =>
      if pc.Unlocking? then Some(s.(holder := None).Goto(t, Idle)) else None
  }

  function Exec(scanLocked: bool, es: seq<Event>): Option<State> {
    if es == [] then Some(INIT)
    else
      match Exec(scanLocked, es[..|es| - 1])
      case None => None
      case Some(m) => Step(scanLocked, m, es[|es| - 1])
  }

  /** The offers that were carried out, in the order of the mutex. */
  function Offers(es: seq<Event>): seq<Offer> {
    if es == [] then []
    else
      var last := es[|es| - 1];
      Offers(es[..|es| - 1]) + (if last.Write? then [last.o] else [])
  }

  // ---------------------------------------------------------------- plans that stay right

  /** Between its scan and its write an adder relies on the table standing still. */
  predicate Engaged(pc: Pc) {
    pc.Comparing? || pc.Acting? || (pc.Locking? && pc.next.Some?)
  }

  ghost predicate PlanRight(rs: seq<Route>, pc: Pc) {
    && (pc.Comparing? ==> pc.fromEnd == |rs| - FirstFor(rs, pc.o.addr))
    && (pc.Acting? ==> pc.plan == PlanFor(rs, pc.o, |rs| - FirstFor(rs, pc.o.addr)))
    && (pc.Locking? && pc.next.Some? ==> pc.next.value == PlanFor(rs, pc.o, |rs| - FirstFor(rs, pc.o.addr)))
  }

  ghost predicate AtMostOneEngaged(s: State) {
    forall t, u | t in s.pcs && u in s.pcs && Engaged(s.pcs[t]) && Engaged(s.pcs[u]) :: t == u
  }

  ghost predicate PlansRight(s: State) {
    forall t | t in s.pcs :: PlanRight(s.routes, s.pcs[t])
  }

  /** Carrying out a right plan is the sequential add. */
  lemma CarryIsAdd(rs: seq<Route>, o: Offer)
    ensures Carry(rs, o, PlanFor(rs, o, |rs| - FirstFor(rs, o.addr))) == Added(rs, o, false, 0)
  {
    if FirstFor(rs, o.addr) == |rs| { CarryNew(rs, o); } else { CarryKnown(rs, o, FirstFor(rs, o.addr)); }
  }

  lemma CarryNew(rs: seq<Route>, o: Offer)
    requires FirstFor(rs, o.addr) == |rs|
    ensures Carry(rs, o, PlanFor(rs, o, 0)) == Added(rs, o, false, 0)
  {
  }

  lemma CarryKnown(rs: seq<Route>, o: Offer, k: nat)
    requires k == FirstFor(rs, o.addr) < |rs|
    ensures Carry(rs, o, PlanFor(rs, o, |rs| - k)) == Added(rs, o, false, 0)
  {
    var plan := PlanFor(rs, o, |rs| - k);
    assert plan == if AsU32(o.linkspeed) < rs[k].linkspeed then Replace(|rs| - k) else Keep;
  }

  lemma MoverPlan(scanLocked: bool, s: State, e: Event)
    requires PlanRight(s.routes, s.At(e.t)) && Step(scanLocked, s, e).Some?
    ensures var s' := Step(scanLocked, s, e).value;
            && PlanRight(s'.routes, s'.At(e.t))
            && s'.routes == if e.Write? then Added(s.routes, e.o, false, 0) else s.routes
  {
    if e.Write? { CarryIsAdd(s.routes, e.o); }
  }

  lemma OtherPlan(scanLocked: bool, s: State, e: Event, t: Tid)
    requires PlanRight(s.routes, s.At(t)) && t != e.t && !(Engaged(s.At(t)) && Engaged(s.At(e.t)))
    requires Step(scanLocked, s, e).Some?
    ensures var s' := Step(scanLocked, s, e).value; PlanRight(s'.routes, s'.At(t)) && (t in s'.pcs ==> t in s.pcs)
  {
  }

  lemma PlansStep(scanLocked: bool, s: State, e: Event)
    requires AtMostOneEngaged(s) && PlansRight(s) && Step(scanLocked, s, e).Some?
    ensures var s' := Step(scanLocked, s, e).value;
            PlansRight(s') && s'.routes == if e.Write? then Added(s.routes, e.o, false, 0) else s.routes
  {
    var s' := Step(scanLocked, s, e).value;
    assert e.t in s.pcs ==> PlanRight(s.routes, s.pcs[e.t]);
    MoverPlan(scanLocked, s, e);
    forall t | t in s'.pcs && t != e.t ensures PlanRight(s'.routes, s'.pcs[t]) {
      assert t in s.pcs ==> PlanRight(s.routes, s.pcs[t]);
      assert Engaged(s.At(t)) && Engaged(s.At(e.t)) ==> t == e.t;
      OtherPlan(scanLocked, s, e, t);
    }
  }

  // ---------------------------------------------------------------- the scan inside the mutex

  ghost predicate Exclusive(s: State) {
    && (forall t | t in s.pcs :: (s.pcs[t].Scanning? || s.pcs[t].Comparing? || s.pcs[t].Acting? || s.pcs[t].Unlocking?)
                                 <==> s.holder == Some(t))
    && (forall t | t in s.pcs && s.pcs[t].Locking? :: s.pcs[t].next.None?)
    && (s.holder.Some? ==> s.holder.value in s.pcs)
  }

  lemma ExclusiveStep(s: State, e: Event)
    requires Exclusive(s) && Step(true, s, e).Some?
    ensures Exclusive(Step(true, s, e).value)
  {
  }

  /** With the scan inside the mutex, any interleaving of any number of adders leaves
      the table of the sequential adds in the order of their writes; by
      RouteOrder.BestOfferWins no address is doubled and no better speed is lost. */
  lemma {:induction false} LockedAddsAreSequential(es: seq<Event>)
    requires Exec(true, es).Some?
    ensures var s := Exec(true, es).value;
            && Exclusive(s) && PlansRight(s)
            && s.routes == RoutesAfter(Offers(es)) && OnePerAddress(s.routes)
  {
    if es != [] {
      var before, e := es[..|es| - 1], es[|es| - 1];
      LockedAddsAreSequential(before);
      var m := Exec(true, before).value;
      ExclusiveStep(m, e);
      PlansStep(true, m, e);
      AfterOneMore(before, e);
    }
  }

  lemma AfterOneMore(before: seq<Event>, e: Event)
    requires OnePerAddress(RoutesAfter(Offers(before)))
    ensures var rs := RoutesAfter(Offers(before));
            RoutesAfter(Offers(before + [e])) == if e.Write? then Added(rs, e.o, false, 0) else rs
    ensures OnePerAddress(RoutesAfter(Offers(before + [e])))
  {
    var es := before + [e];
    assert es[..|es| - 1] == before;
    if e.Write? {
      assert (Offers(before) + [e.o])[..|Offers(before)|] == Offers(before);
      AddUpdatesMap(RoutesAfter(Offers(before)), e.o, 0, e.o.addr);
    } else {
      assert Offers(before) + [] == Offers(before);
    }
  }

  /** The offers of a history come again in every longer one. */
  lemma {:induction false} OffersGrow(es: seq<Event>, n: nat)
    requires n <= |es|
    ensures Offers(es[..n]) <= Offers(es)
  {
    if n == |es| {
      assert es[..n] == es;
    } else {
      OffersGrow(es[..|es| - 1], n);
      assert es[..|es| - 1][..n] == es[..n];
    }
  }

  // ---------------------------------------------------------------- one call, one write

  /** A thread's latest call: its offer, what it wrote, and whether the table had a
      speed at least as good for its address when it compared. */
  datatype AddCall = AddCall(o: Option<Offer>, written: seq<Offer>, beaten: bool)

  ghost predicate HasAsGood(rs: seq<Route>, o: Offer) {
    exists i :: 0 <= i < |rs| && rs[i].addr == o.addr && rs[i].linkspeed <= AsU32(o.linkspeed)
  }

  ghost function CallAfter(c: AddCall, s: State, e: Event, t: Tid): AddCall {
    if e.t != t then c
    else
      match e
      case Call(_, o) => AddCall(Some(o), [], false)
      case Compare(_) => c.(beaten := c.o.Some? && HasAsGood(s.routes, c.o.value))
      case Write(_, o) => c.(written := c.written + [o])
      case _ => c
  }

  ghost function CallOf(scanLocked: bool, es: seq<Event>, t: Tid): AddCall
    requires Exec(scanLocked, es).Some?
  {
    if es == [] then AddCall(None, [], false)
    else
      var before := es[..|es| - 1];
      CallAfter(CallOf(scanLocked, before, t), Exec(scanLocked, before).value, es[|es| - 1], t)
  }

  /** The call is over: it wrote its own offer once; or, without the lock, it found
      itself beaten and wrote nothing. */
  predicate Done(scanLocked: bool, c: AddCall) {
    c.o.Some? && (c.written == [c.o.value] || (!scanLocked && c.written == [] && c.beaten))
  }

  ghost predicate OnCourse(scanLocked: bool, s: State, pc: Pc, c: AddCall) {
    match pc
    case Idle => c.o.None? || Done(scanLocked, c)
    case Scanning(o) => c == AddCall(Some(o), [], c.beaten)
    case Comparing(o, d) => c == AddCall(Some(o), [], c.beaten) && RouteAt(s.routes, o, d)
    case Locking(o, _) => c == AddCall(Some(o), [], c.beaten)
    case Acting(o, _) => c == AddCall(Some(o), [], c.beaten)
    case Unlocking => c.o.Some? && c.written == [c.o.value]
  }

  /** The route that a scan found is still there, and still for that address. */
  predicate RouteAt(rs: seq<Route>, o: Offer, fromEnd: nat) {
    fromEnd <= |rs| && (fromEnd > 0 ==> rs[|rs| - fromEnd].addr == o.addr)
  }

  lemma RouteStays(scanLocked: bool, s: State, e: Event, o: Offer, fromEnd: nat)
    requires Step(scanLocked, s, e).Some? && RouteAt(s.routes, o, fromEnd)
    ensures RouteAt(Step(scanLocked, s, e).value.routes, o, fromEnd)
  {
  }

  lemma MoverOnCourse(scanLocked: bool, s: State, e: Event, c: AddCall)
    requires Step(scanLocked, s, e).Some? && OnCourse(scanLocked, s, s.At(e.t), c)
    ensures var s' := Step(scanLocked, s, e).value;
            OnCourse(scanLocked, s', s'.At(e.t), CallAfter(c, s, e, e.t))
  {
    if e.Compare? && s.At(e.t).fromEnd > 0 {
      assert s.routes[|s.routes| - s.At(e.t).fromEnd].addr == s.At(e.t).o.addr;
    }
  }

  lemma {:induction false} CourseAlways(scanLocked: bool, es: seq<Event>, t: Tid)
    requires Exec(scanLocked, es).Some?
    ensures OnCourse(scanLocked, Exec(scanLocked, es).value, Exec(scanLocked, es).value.At(t), CallOf(scanLocked, es, t))
  {
    if es != [] {
      var before, e := es[..|es| - 1], es[|es| - 1];
      var s, c := Exec(scanLocked, before).value, CallOf(scanLocked, before, t);
      CourseAlways(scanLocked, before, t);
      if e.t == t {
        MoverOnCourse(scanLocked, s, e, c);
      } else {
        assert Exec(scanLocked, es).value.At(t) == s.At(t);
        if s.At(t).Comparing? { RouteStays(scanLocked, s, e, s.At(t).o, s.At(t).fromEnd); }
      }
    }
  }

  /** Every lsp_route_add call that has returned, in every run: with the scan inside
      the mutex it made exactly one write, of its own offer; with the scan outside it
      did, or it made none because the table had a speed at least as good. */
  lemma EveryCallAdds(scanLocked: bool, es: seq<Event>, t: Tid)
    requires Exec(scanLocked, es).Some? && Exec(scanLocked, es).value.At(t).Idle?
    requires CallOf(scanLocked, es, t).o.Some?
    ensures Done(scanLocked, CallOf(scanLocked, es, t))
  {
    CourseAlways(scanLocked, es, t);
  }

  lemma {:induction false} WrittenAreOffers(scanLocked: bool, es: seq<Event>, t: Tid, o: Offer)
    requires Exec(scanLocked, es).Some? && o in CallOf(scanLocked, es, t).written
    ensures o in Offers(es)
  {
    if es != [] && o in CallOf(scanLocked, es[..|es| - 1], t).written {
      WrittenAreOffers(scanLocked, es[..|es| - 1], t, o);
    }
  }

  /** So no better speed is lost: once a call has returned, at whatever moment i of the
      run, its address is found ever after with a speed at least as good as it offered. */
  lemma NoBetterSpeedIsLost(es: seq<Event>, i: nat, t: Tid)
    requires Exec(true, es).Some? && i <= |es| && Exec(true, es[..i]).Some?
    requires Exec(true, es[..i]).value.At(t).Idle? && CallOf(true, es[..i], t).o.Some?
    ensures var o := CallOf(true, es[..i], t).o.value;
            var found := Lookup(Exec(true, es).value.routes, o.addr);
            found.Some? && found.value.linkspeed <= AsU32(o.linkspeed)
  {
    var o := CallOf(true, es[..i], t).o.value;
    EveryCallAdds(true, es[..i], t);
    WrittenAreOffers(true, es[..i], t, o);
    OffersGrow(es, i);
    var j :| 0 <= j < |Offers(es)| && Offers(es)[j] == o;
    LockedAddsAreSequential(es);
    var k := BestOfferWins(Offers(es), o.addr);
  }

  // ---------------------------------------------------------------- the scan outside, as written

  ghost predicate Runs(adders: set<Tid>, es: seq<Event>, s: State) {
    (forall e | e in es :: e.Call? ==> e.t in adders) && Exec(false, es) == Some(s)
  }

  ghost predicate Safe(adders: set<Tid>) {
    forall es, s :: Runs(adders, es, s) ==> OnePerAddress(s.routes)
  }

  lemma Go(adders: set<Tid>, es: seq<Event>, s: State, e: Event) returns (es': seq<Event>, s': State)
    requires Runs(adders, es, s) && (e.Call? ==> e.t in adders) && Step(false, s, e).Some?
    ensures es' == es + [e] && Runs(adders, es', s') && Step(false, s, e) == Some(s')
    ensures Offers(es') == Offers(es) + if e.Write? then [e.o] else []
  {
    es', s' := es + [e], Step(false, s, e).value;
    assert es'[..|es'| - 1] == es;
  }

  lemma OneThread(s: State, adders: set<Tid>)
    requires |adders| <= 1 && forall t | t in s.pcs :: t in adders
    ensures AtMostOneEngaged(s)
  {
    forall t, u | t in s.pcs && u in s.pcs ensures t == u {
      var rest := adders - {t};
      assert |rest| == 0;
      assert u !in rest;
    }
  }

  lemma NoNewThread(s: State, e: Event, adders: set<Tid>)
    requires Step(false, s, e).Some? && (e.Call? ==> e.t in adders) && forall t | t in s.pcs :: t in adders
    ensures forall t | t in Step(false, s, e).value.pcs :: t in adders
  {
  }

  lemma {:induction false} OneAdderIsSequential(adders: set<Tid>, es: seq<Event>, s: State)
    requires |adders| <= 1 && Runs(adders, es, s)
    ensures PlansRight(s) && s.routes == RoutesAfter(Offers(es)) && OnePerAddress(s.routes)
    ensures forall t | t in s.pcs :: t in adders
  {
    if es != [] {
      var before, e := es[..|es| - 1], es[|es| - 1];
      var m := Exec(false, before).value;
      OneAdderIsSequential(adders, before, m);
      OneThread(m, adders);
      PlansStep(false, m, e);
      AfterOneMore(before, e);
      assert before + [e] == es;
      NoNewThread(m, e, adders);
    }
  }

  /** What an adder means to do about a table that stands still. */
  function PlanOn(rs: seq<Route>, o: Offer): Plan {
    PlanFor(rs, o, |rs| - FirstFor(rs, o.addr))
  }

  lemma PlanOnLone(r: Route, o: Offer)
    requires r.addr == o.addr && AsU32(o.linkspeed) < r.linkspeed
    ensures PlanOn([r], o) == Replace(1)
  {
  }

  /** Both find nothing, both insert. */
  lemma TwoAddersDouble(adders: set<Tid>, a: Tid, b: Tid)
    requires a in adders && b in adders && a != b
    ensures !Safe(adders)
  {
    var o := Offer(0, 7, 10);
    var es, s := BothPlan(adders, a, b, o);
    es, s := Finishes(adders, es, s, a, o, Insert);
    es, s := Finishes(adders, es, s, b, o, Insert);
    assert s.routes[0].addr == s.routes[1].addr;
  }

  lemma BothPlan(adders: set<Tid>, a: Tid, b: Tid, o: Offer) returns (es: seq<Event>, s: State)
    requires a in adders && b in adders && a != b
    ensures Runs(adders, es, s) && s.holder.None? && s.routes == []
    ensures s.At(a) == Locking(o, Some(Insert)) && s.At(b) == Locking(o, Some(Insert))
  {
    es, s := Plans(adders, [], INIT, a, o, Insert);
    es, s := Plans(adders, es, s, b, o, Insert);
  }

  /** With the scan outside the mutex no run doubles an address iff at most one
      thread ever adds routes. */
  lemma UnlockedSafeIff(adders: set<Tid>)
    ensures Safe(adders) <==> |adders| <= 1
  {
    if |adders| <= 1 {
      forall es, s | Runs(adders, es, s) ensures OnePerAddress(s.routes) {
        OneAdderIsSequential(adders, es, s);
      }
    } else {
      var a, b := TwoOf(adders);
      TwoAddersDouble(adders, a, b);
    }
  }

  lemma TwoOf(ts: set<Tid>) returns (a: Tid, b: Tid)
    requires |ts| > 1
    ensures a in ts && b in ts && a != b
  {
    a :| a in ts;
    var rest := ts - {a};
    assert |rest| == |ts| - 1;
    b :| b in rest;
  }

  /** In every run, each offer written is found with a speed at least as good. */
  ghost predicate SpeedSafe(adders: set<Tid>) {
    forall es, s, j: nat :: Runs(adders, es, s) && j < |Offers(es)| ==> FoundAtLeast(s.routes, Offers(es)[j])
  }

  ghost predicate FoundAtLeast(rs: seq<Route>, o: Offer) {
    var found := Lookup(rs, o.addr);
    found.Some? && found.value.linkspeed <= AsU32(o.linkspeed)
  }

  /** The comparison outside the mutex lets a worse speed replace a better one. */
  lemma WorseReplacesBetter(adders: set<Tid>, a: Tid, b: Tid) returns (es: seq<Event>, s: State)
    requires a in adders && b in adders && a != b
    ensures Runs(adders, es, s)
    ensures Offers(es) == [Offer(1, 7, 10), Offer(3, 7, 3), Offer(2, 7, 5)]
    ensures Lookup(s.routes, 7) == Some(Route(2, 7, 5))
  {
    var o1, o2, o3 := Offer(1, 7, 10), Offer(2, 7, 5), Offer(3, 7, 3);
    es, s := Alone(adders, [], INIT, a, o1, Insert);
    PlanOnLone(RouteOf(o1), o2);
    PlanOnLone(RouteOf(o1), o3);
    es, s := Plans(adders, es, s, a, o2, Replace(1));
    es, s := Alone(adders, es, s, b, o3, Replace(1));
    es, s := Finishes(adders, es, s, a, o2, Replace(1));
  }

  /** With the comparison outside the mutex no run loses a better speed iff at most
      one thread ever adds routes. */
  lemma UnlockedSpeedSafeIff(adders: set<Tid>)
    ensures SpeedSafe(adders) <==> |adders| <= 1
  {
    if |adders| <= 1 {
      forall es, s, j: nat | Runs(adders, es, s) && j < |Offers(es)| ensures FoundAtLeast(s.routes, Offers(es)[j]) {
        OneAdderIsSequential(adders, es, s);
        var i := BestOfferWins(Offers(es), Offers(es)[j].addr);
      }
    } else {
      var a, b := TwoOf(adders);
      var es, s := WorseReplacesBetter(adders, a, b);
      assert Offers(es)[1] == Offer(3, 7, 3) && !FoundAtLeast(s.routes, Offers(es)[1]);
    }
  }

  /** Up to the moment an adder asks for the mutex. */
  lemma Plans(adders: set<Tid>, es: seq<Event>, s: State, t: Tid, o: Offer, plan: Plan)
    returns (es': seq<Event>, s': State)
    requires Runs(adders, es, s) && t in adders && s.At(t).Idle?
    requires plan == PlanOn(s.routes, o) && !plan.Keep?
    ensures Runs(adders, es', s') && s'.routes == s.routes && s'.holder == s.holder && Offers(es') == Offers(es)
    ensures s'.At(t) == Locking(o, Some(plan)) && forall u: Tid | u != t :: s'.At(u) == s.At(u)
  {
    es', s' := Go(adders, es, s, Call(t, o));
    es', s' := Go(adders, es', s', Scan(t));
    es', s' := Go(adders, es', s', Compare(t));
  }

  /** From there to the end of the call. */
  lemma Finishes(adders: set<Tid>, es: seq<Event>, s: State, t: Tid, o: Offer, plan: Plan)
    returns (es': seq<Event>, s': State)
    requires Runs(adders, es, s) && s.holder.None? && s.At(t) == Locking(o, Some(plan))
    requires plan.Replace? ==> 0 < plan.fromEnd <= |s.routes|
    ensures Runs(adders, es', s') && s'.holder.None? && s'.At(t).Idle?
    ensures s'.routes == Carry(s.routes, o, plan) && Offers(es') == Offers(es) + [o]
    ensures forall u: Tid | u != t :: s'.At(u) == s.At(u)
  {
    es', s' := Go(adders, es, s, Lock(t));
    es', s' := Go(adders, es', s', Write(t, o));
    es', s' := Go(adders, es', s', Unlock(t));
  }

  /** One whole add while the mutex is free. */
  lemma Alone(adders: set<Tid>, es: seq<Event>, s: State, t: Tid, o: Offer, plan: Plan)
    returns (es': seq<Event>, s': State)
    requires Runs(adders, es, s) && t in adders && s.At(t).Idle? && s.holder.None?
    requires plan == PlanOn(s.routes, o) && !plan.Keep?
    requires plan.Replace? ==> 0 < plan.fromEnd <= |s.routes|
    ensures Runs(adders, es', s') && s'.holder.None? && s'.At(t).Idle?
    ensures s'.routes == Carry(s.routes, o, plan) && Offers(es') == Offers(es) + [o]
    ensures forall u: Tid | u != t :: s'.At(u) == s.At(u)
  {
    es', s' := Plans(adders, es, s, t, o, plan);
    es', s' := Finishes(adders, es', s', t, o, plan);
  }
}
