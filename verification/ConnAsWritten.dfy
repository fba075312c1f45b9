/** lsp_conn_free exactly as the source has it: the flush loop's condition is upside
    down, and a connection that was closed before is judged by a return code that
    nobody set (src/lsp_conn.c). When does the recursion return, and what has it
    freed by then? */
module ConnAsWritten {
  import opened LspTypes
  import opened ConnPool
  import opened ConnDrain
  import ConnPorts

  // ---------------------------------------------------------------- the flush loop as written

  /** while (pop != LSP_ERR_NONE) free: still looping after freeing `garbage`
      pointers that no pop ever set, or left with what is still queued. */
  datatype Flush = Looping(q: seq<nat>, garbage: nat) | Left(q: seq<nat>)

  function FlushAfter(q: seq<nat>, turns: nat): Flush {
    if turns == 0 then Looping(q, 0)
    else
      match FlushAfter(q, turns - 1)
      case Looping(r, g) => if r == [] then Looping(r, g + 1) else Left(r[1..])
      case Left(r) => Left(r)
  }

  /** As written the flush ends iff there is something to flush, and then it drops
      one buffer without freeing it and leaves the rest; on an empty queue it
      frees garbage for ever. */
  lemma {:induction false} FlushAsWritten(q: seq<nat>, turns: nat)
    ensures FlushAfter(q, turns) ==
              if turns == 0 then Looping(q, 0) else if q == [] then Looping([], turns) else Left(q[1..])
    ensures turns > 0 ==> (FlushAfter(q, turns).Left? <==> q != [])
  {
    if turns > 0 { FlushAsWritten(q, turns - 1); }
  }

  // ---------------------------------------------------------------- one call

  datatype Run = Returned(p: Pool, rc: int) | Hung

  /** lsp_conn_close as written, without the list and the event group. */
  function CloseW(p: Pool, i: nat): Run
    requires i < |p.slots|
  {
    var s := p.slots[i];
    if s.state <= CONN_CLOSED then Returned(p, LSP_ERR_NONE)
    else
      var p1 := p.(unlinked := p.unlinked + [i]);
      if s.rx.None? then Returned(p1.With(i, s.(state := CONN_CLOSED)), LSP_ERR_INVALID)
      else if s.rx.value == [] then Hung
      else Returned(p1.With(i, s.(state := CONN_CLOSED, rx := Some(s.rx.value[1..]))), LSP_ERR_NONE)
  }

  /** That is what the flush loop does: it hangs iff it is looping after any number
      of turns, and else stops with the receive queue that the close leaves. */
  lemma CloseRunsTheFlush(p: Pool, i: nat)
    requires i < |p.slots| && p.slots[i].state > CONN_CLOSED && p.slots[i].rx.Some?
    ensures CloseW(p, i).Hung? <==> forall turns: nat :: FlushAfter(p.slots[i].rx.value, turns).Looping?
    ensures CloseW(p, i).Returned? ==>
              exists turns: nat :: FlushAfter(p.slots[i].rx.value, turns) == Left(CloseW(p, i).p.slots[i].rx.value)
  {
    var q := p.slots[i].rx.value;
    forall turns: nat
      ensures FlushAfter(q, turns) ==
                if turns == 0 then Looping(q, 0) else if q == [] then Looping([], turns) else Left(q[1..])
    {
      FlushAsWritten(q, turns);
    }
    assert q != [] ==> FlushAfter(q, 1) == Left(q[1..]);
  }

  /** From the call to the test of the return code. `stale(i)` is what the code
      happens to be when connection i is freed without being closed first. */
  function EnterW(p: Pool, i: nat, stale: nat -> int): Run
    requires i < |p.slots|
  {
    var p0 := p.(calls := p.calls + [i]);
    if p.slots[i].state == CONN_CLOSED then Returned(p0, stale(i)) else CloseW(p0, i)
  }

  ghost predicate SameShape(p: Pool, q: Pool) {
    && q.Valid() && |q.slots| == |p.slots| && Total(q.slots) <= Total(p.slots)
    && forall j | 0 <= j < |p.slots| :: q.slots[j].connType == p.slots[j].connType
  }

  /** lsp_conn_free */
  function FreeW(p: Pool, i: nat, stale: nat -> int): (r: Run)
    requires p.Valid() && i < |p.slots|
    ensures r.Returned? ==> SameShape(p, r.p)
    decreases Total(p.slots), 1
  {
    EnterValid(p, i, stale);
    match EnterW(p, i, stale)
    case Hung => Hung
    case Returned(p1, rc) =>
      if rc != LSP_ERR_NONE then Returned(p1, rc)
      else if !p1.slots[i].Server() then
        FinishValid(p1, i);
        Returned(Finish(p1, i), LSP_ERR_NONE)
      else
        match DrainW(p1, i, stale)
        case Hung => Hung
        case Returned(p2, _) =>
          FinishValid(p2, i);
          Returned(Finish(p2, i), LSP_ERR_NONE)
  }

  /** Its loop over the children. */
  function DrainW(p: Pool, i: nat, stale: nat -> int): (r: Run)
    requires p.Valid() && i < |p.slots| && p.slots[i].Server()
    ensures r.Returned? ==> SameShape(p, r.p) && r.p.slots[i].Pending() == []
    decreases Total(p.slots), 0
  {
    if p.slots[i].children.Destroyed? then Returned(p.(fault := true), LSP_ERR_NONE)
    else if p.slots[i].children.q == [] then Returned(p, LSP_ERR_NONE)
    else
      PoppedValid(p, i);
      match FreeW(Popped(p, i), FirstChild(p, i), stale)
      case Hung => Hung
      case Returned(m, _) =>
        ShapeAfterPop(p, i, m);
        var r := DrainW(m, i, stale);
        if r.Hung? then Hung
        else
          ShapeTrans(p, m, r.p);
          r
  }

  lemma ShapeAfterPop(p: Pool, i: nat, m: Pool)
    requires p.Valid() && HasChild(p, i) && SameShape(Popped(p, i), m)
    ensures SameShape(p, m) && Total(m.slots) < Total(p.slots)
  {
    PoppedValid(p, i);
  }

  lemma ShapeTrans(p: Pool, q: Pool, r: Pool)
    requires SameShape(p, q) && SameShape(q, r)
    ensures SameShape(p, r)
  {
  }

  lemma EnterValid(p: Pool, i: nat, stale: nat -> int)
    requires p.Valid() && i < |p.slots|
    ensures var r := EnterW(p, i, stale);
            r.Returned? ==> SameShape(p, r.p) && Total(r.p.slots) == Total(p.slots)
  {
    var r := EnterW(p, i, stale);
    if r.Returned? { OneSlotChanged(p, r.p, i); }
  }

  /** A connection without children: freed iff it was free, or closed with the code
      happening to be right, or open with something to drop; and the call hangs iff
      it was open with nothing to drop. */
  lemma FreedAloneIff(p: Pool, i: nat, stale: nat -> int)
    requires p.Valid() && i < |p.slots| && !p.slots[i].Server()
    ensures var s, r := p.slots[i], FreeW(p, i, stale);
            && (r.Hung? <==> s.state > CONN_CLOSED && s.rx == Some([]))
            && (r.Returned? && r.p.slots[i].state == CONN_FREE <==>
                  || s.state == CONN_FREE
                  || (s.state == CONN_CLOSED && stale(i) == LSP_ERR_NONE)
                  || (s.state > CONN_CLOSED && s.rx.Some? && s.rx.value != []))
  {
    var r := EnterW(p, i, stale);
    if r.Returned? {
      EnterValid(p, i, stale);
      assert FreeW(p, i, stale) == if r.rc != LSP_ERR_NONE then r else Returned(Finish(r.p, i), LSP_ERR_NONE);
    }
  }

  // ---------------------------------------------------------------- what a stretch of the recursion keeps

  /** A call on this slot gives up at once. */
  predicate Stuck(s: Slot, code: int) {
    s.state == CONN_CLOSED && code != LSP_ERR_NONE
  }

  predicate Handled(s: Slot, code: int) {
    s.Settled() || Stuck(s, code)
  }

  predicate HandledIn(q: Pool, c: nat, stale: nat -> int) {
    c < |q.slots| && Handled(q.slots[c], stale(c))
  }

  predicate Suffix(xs: seq<nat>, ys: seq<nat>) {
    |ys| <= |xs| && ys == xs[|xs| - |ys|..]
  }

  lemma SuffixTrans(xs: seq<nat>, ys: seq<nat>, zs: seq<nat>)
    requires Suffix(xs, ys) && Suffix(ys, zs)
    ensures Suffix(xs, zs)
  {
  }

  /** One slot's state before and after; `busy` if its own children are being drained.
      An open one is let alone or freed with one buffer dropped, a stuck one let alone. */
  ghost predicate StateKept(a: Slot, b: Slot, code: int, busy: bool) {
    if a.state > CONN_CLOSED then
      b == a || (b.Settled() && a.rx.Some? && a.rx.value != [] && b.rx == Some(a.rx.value[1..]))
    else if Stuck(a, code) then b == if busy then a.(children := b.children) else a
    else b.rx == a.rx && (b.state == a.state || b.Settled())
  }

  ghost predicate KeptW(a: Slot, b: Slot, code: int, busy: bool) {
    && b.connType == a.connType
    && (b.children.Queued? ==> a.children.Queued?)
    && Suffix(a.Pending(), b.Pending())
    && StateKept(a, b, code, busy)
  }

  ghost predicate LostHandled(a: Slot, b: Slot, q: Pool, stale: nat -> int) {
    forall k | 0 <= k < |a.Pending()| - |b.Pending()| :: HandledIn(q, a.Pending()[k], stale)
  }

  ghost predicate SlotEvolvesW(p: Pool, q: Pool, stale: nat -> int, busy: int, j: nat)
    requires |q.slots| == |p.slots| && j < |p.slots|
  {
    KeptW(p.slots[j], q.slots[j], stale(j), j == busy) && LostHandled(p.slots[j], q.slots[j], q, stale)
  }

  /** No buffer is freed, and every slot evolves; `busy` is the slot whose children
      are being drained, -1 if none. */
  ghost predicate EvolvesW(p: Pool, q: Pool, stale: nat -> int, busy: int) {
    && |q.slots| == |p.slots| && q.freed == p.freed
    && forall j | 0 <= j < |p.slots| :: SlotEvolvesW(p, q, stale, busy, j)
  }

  lemma KeptTransW(a: Slot, b: Slot, c: Slot, code: int, busy: bool)
    requires KeptW(a, b, code, busy) && KeptW(b, c, code, busy)
    ensures KeptW(a, c, code, busy)
  {
    SuffixTrans(a.Pending(), b.Pending(), c.Pending());
    StateTrans(a, b, c, code, busy);
  }

  lemma StateTrans(a: Slot, b: Slot, c: Slot, code: int, busy: bool)
    requires StateKept(a, b, code, busy) && StateKept(b, c, code, busy) && |c.Pending()| <= |b.Pending()|
    ensures StateKept(a, c, code, busy)
  {
  }

  lemma StillHandled(p: Pool, q: Pool, stale: nat -> int, busy: int, c: nat)
    requires EvolvesW(p, q, stale, busy) && HandledIn(p, c, stale)
    ensures HandledIn(q, c, stale)
  {
    assert SlotEvolvesW(p, q, stale, busy, c);
  }

  lemma EvolvesTransW(p: Pool, q: Pool, r: Pool, stale: nat -> int, busy: int)
    requires EvolvesW(p, q, stale, busy) && EvolvesW(q, r, stale, busy)
    ensures EvolvesW(p, r, stale, busy)
  {
    forall j | 0 <= j < |p.slots| ensures SlotEvolvesW(p, r, stale, busy, j) {
      assert SlotEvolvesW(p, q, stale, busy, j) && SlotEvolvesW(q, r, stale, busy, j);
      var a, b, c := p.slots[j].Pending(), q.slots[j].Pending(), r.slots[j].Pending();
      KeptTransW(p.slots[j], q.slots[j], r.slots[j], stale(j), j == busy);
      forall k | 0 <= k < |a| - |c| ensures HandledIn(r, a[k], stale) {
        if k < |a| - |b| {
          assert HandledIn(q, a[k], stale);
          StillHandled(q, r, stale, busy, a[k]);
        } else {
          assert a[k] == b[k - (|a| - |b|)];
        }
      }
    }
  }

  /** A popped child that the following free handles counts as properly lost. */
  lemma EvolvesAfterPopW(p: Pool, i: nat, q: Pool, stale: nat -> int)
    requires HasChild(p, i) && p.slots[i].state <= CONN_CLOSED
    requires EvolvesW(Popped(p, i), q, stale, -1) && HandledIn(q, FirstChild(p, i), stale)
    ensures EvolvesW(p, q, stale, i)
  {
    var m := Popped(p, i);
    forall j | 0 <= j < |p.slots| ensures SlotEvolvesW(p, q, stale, i, j) {
      assert SlotEvolvesW(m, q, stale, -1, j);
      if j == i {
        var a, b := p.slots[i].Pending(), q.slots[i].Pending();
        forall k | 0 <= k < |a| - |b| ensures HandledIn(q, a[k], stale) {
          if 0 < k { assert a[k] == m.slots[i].Pending()[k - 1]; }
        }
      }
    }
  }

  /** A whole call, from the pool it finds to the pool it leaves. */
  lemma CallEvolves(p: Pool, p1: Pool, p2: Pool, i: nat, stale: nat -> int)
    requires p.Ready() && i < |p.slots| && EnterW(p, i, stale) == Returned(p1, LSP_ERR_NONE)
    requires if p.slots[i].Server() then EvolvesW(p1, p2, stale, i) && p2.slots[i].Pending() == [] else p2 == p1
    ensures EvolvesW(p, Finish(p2, i), stale, -1) && Finish(p2, i).slots[i].Settled()
  {
    var q := Finish(p2, i);
    forall j | 0 <= j < |p.slots| ensures SlotEvolvesW(p, q, stale, -1, j) {
      assert p.slots[i].Server() ==> SlotEvolvesW(p1, p2, stale, i, j);
      assert j != i ==> p1.slots[j] == p.slots[j] && q.slots[j] == p2.slots[j];
      assert p1.slots[j].Pending() == p.slots[j].Pending();
      forall k | 0 <= k < |p.slots[j].Pending()| - |q.slots[j].Pending()|
        ensures HandledIn(q, p.slots[j].Pending()[k], stale)
      {
        assert HandledIn(p2, p.slots[j].Pending()[k], stale);
      }
    }
  }

  lemma ReadyKept(p: Pool, q: Pool, stale: nat -> int, busy: int)
    requires p.Ready() && EvolvesW(p, q, stale, busy)
    ensures q.Ready()
  {
    forall j | 0 <= j < |q.slots| ensures q.slots[j].state > CONN_CLOSED ==> q.slots[j].rx.Some? {
      assert SlotEvolvesW(p, q, stale, busy, j);
    }
  }

  lemma EnterReady(p: Pool, i: nat, stale: nat -> int)
    requires p.Ready() && i < |p.slots| && EnterW(p, i, stale).Returned?
    ensures var r := EnterW(p, i, stale);
            && r.p.Ready() && r.p.slots[i].state <= CONN_CLOSED
            && (r.rc != LSP_ERR_NONE ==> Stuck(p.slots[i], stale(i)) && r.p == p.(calls := p.calls + [i]))
  {
  }

  lemma NothingEvolves(p: Pool, q: Pool, stale: nat -> int, busy: int)
    requires q.slots == p.slots && q.freed == p.freed
    ensures EvolvesW(p, q, stale, busy)
  {
  }

  lemma {:induction false} FreeEvolves(p: Pool, i: nat, stale: nat -> int)
    requires p.Valid() && p.Ready() && i < |p.slots| && FreeW(p, i, stale).Returned?
    ensures var q := FreeW(p, i, stale).p;
            q.Ready() && EvolvesW(p, q, stale, -1) && HandledIn(q, i, stale)
    decreases Total(p.slots), 2
  {
    var q := FreeW(p, i, stale).p;
    EnterValid(p, i, stale);
    EnterReady(p, i, stale);
    var Returned(p1, rc) := EnterW(p, i, stale);
    if rc != LSP_ERR_NONE {
      NothingEvolves(p, q, stale, -1);
    } else if p1.slots[i].Server() {
      DrainEvolves(p1, i, stale);
      CallEvolves(p, p1, DrainW(p1, i, stale).p, i, stale);
    } else {
      CallEvolves(p, p1, p1, i, stale);
    }
    ReadyKept(p, q, stale, -1);
  }

  lemma {:induction false} DrainEvolves(p: Pool, i: nat, stale: nat -> int)
    requires p.Valid() && p.Ready() && i < |p.slots| && p.slots[i].Server() && p.slots[i].state <= CONN_CLOSED
    requires DrainW(p, i, stale).Returned?
    ensures EvolvesW(p, DrainW(p, i, stale).p, stale, i)
    decreases Total(p.slots), 1
  {
    if HasChild(p, i) {
      OneTurnW(p, i, stale);
      TurnEvolves(p, i, stale);
      var m := AfterChildW(p, i, stale).p;
      DrainEvolves(m, i, stale);
      EvolvesTransW(p, m, DrainW(m, i, stale).p, stale, i);
    } else {
      LastPopW(p, i, stale);
      NothingEvolves(p, DrainW(p, i, stale).p, stale, i);
    }
  }

  lemma LastPopW(p: Pool, i: nat, stale: nat -> int)
    requires p.Valid() && i < |p.slots| && p.slots[i].Server() && !HasChild(p, i)
    ensures var r := DrainW(p, i, stale);
            r.Returned? && r.p.slots == p.slots && r.p.freed == p.freed
  {
    assert p.slots[i].Valid(|p.slots|);
  }

  /** The pool after one turn of the loop. */
  function AfterChildW(p: Pool, i: nat, stale: nat -> int): Run
    requires p.Valid() && HasChild(p, i)
  {
    PoppedValid(p, i);
    FreeW(Popped(p, i), FirstChild(p, i), stale)
  }

  lemma OneTurnW(p: Pool, i: nat, stale: nat -> int)
    requires p.Valid() && HasChild(p, i)
    ensures Popped(p, i).Valid() && FirstChild(p, i) < |p.slots| && Total(Popped(p, i).slots) < Total(p.slots)
    ensures p.Ready() ==> Popped(p, i).Ready()
    ensures var r := AfterChildW(p, i, stale);
            if r.Hung? then DrainW(p, i, stale).Hung?
            else
              && r.p.Valid() && |r.p.slots| == |p.slots| && r.p.slots[i].Server() && Total(r.p.slots) < Total(p.slots)
              && DrainW(p, i, stale) == DrainW(r.p, i, stale)
  {
    PoppedValid(p, i);
  }

  lemma {:induction false} TurnEvolves(p: Pool, i: nat, stale: nat -> int)
    requires p.Valid() && p.Ready() && HasChild(p, i) && p.slots[i].state <= CONN_CLOSED
    requires AfterChildW(p, i, stale).Returned?
    ensures var m := AfterChildW(p, i, stale).p;
            EvolvesW(p, m, stale, i) && m.Ready() && m.slots[i].state <= CONN_CLOSED
    decreases Total(p.slots), 0
  {
    var m := AfterChildW(p, i, stale).p;
    OneTurnW(p, i, stale);
    FreeEvolves(Popped(p, i), FirstChild(p, i), stale);
    EvolvesAfterPopW(p, i, m, stale);
    assert SlotEvolvesW(p, m, stale, i, i);
  }

  // ---------------------------------------------------------------- when it returns

  /** A walk along child queues that a call can take: only its last connection may be stuck. */
  ghost predicate Walk(p: Pool, stale: nat -> int, path: seq<nat>) {
    Path(p, path) && forall k | 0 <= k < |path| - 1 :: !Stuck(p.slots[path[k]], stale(path[k]))
  }

  ghost predicate CanCall(p: Pool, stale: nat -> int, i: nat, j: nat) {
    exists path :: Walk(p, stale, path) && path[0] == i && path[|path| - 1] == j
  }

  /** The connections that freeing i would call lsp_conn_free on. */
  ghost function CallSet(p: Pool, stale: nat -> int, i: nat): set<nat> {
    set j | 0 <= j < |p.slots| && CanCall(p, stale, i, j)
  }

  /** Open, with nothing to flush. */
  predicate Trap(s: Slot) {
    s.state > CONN_CLOSED && s.rx == Some([])
  }

  ghost predicate ClosedW(p: Pool, stale: nat -> int, c: set<nat>) {
    forall a, b | a in c && a < |p.slots| && !Stuck(p.slots[a], stale(a)) && b in p.slots[a].Pending() :: b in c
  }

  ghost predicate NoTrap(p: Pool, c: set<nat>) {
    forall a | a in c && a < |p.slots| :: !Trap(p.slots[a])
  }

  lemma CallSetClosed(p: Pool, stale: nat -> int, i: nat)
    requires p.Valid() && i < |p.slots|
    ensures i in CallSet(p, stale, i) && ClosedW(p, stale, CallSet(p, stale, i))
  {
    assert Walk(p, stale, [i]) && [i][0] == i;
    assert CanCall(p, stale, i, i);
    forall a, b | a in CallSet(p, stale, i) && !Stuck(p.slots[a], stale(a)) && b in p.slots[a].Pending()
      ensures b in CallSet(p, stale, i)
    {
      var path :| Walk(p, stale, path) && path[0] == i && path[|path| - 1] == a;
      var longer := path + [b];
      assert p.slots[a].Valid(|p.slots|);
      assert Walk(p, stale, longer) && longer[0] == i && longer[|longer| - 1] == b;
    }
  }

  /** Whoever a returned call has called is handled: freed, or stuck all along. */
  lemma {:induction false} WalkHandled(p: Pool, q: Pool, stale: nat -> int, path: seq<nat>)
    requires EvolvesW(p, q, stale, -1) && Walk(p, stale, path) && HandledIn(q, path[0], stale)
    ensures var j := path[|path| - 1];
            HandledIn(q, j, stale) && (q.slots[j].Settled() || q.slots[j] == p.slots[j])
  {
    var n := |path| - 1;
    if 0 < n {
      assert Walk(p, stale, path[..n]) by {
        assert forall k | 0 <= k < n :: path[..n][k] == path[k];
      }
      WalkHandled(p, q, stale, path[..n]);
      assert SlotEvolvesW(p, q, stale, -1, path[n - 1]);
    }
    assert SlotEvolvesW(p, q, stale, -1, path[n]);
  }

  lemma ClosedKept(p: Pool, q: Pool, stale: nat -> int, busy: int, c: set<nat>)
    requires EvolvesW(p, q, stale, busy) && ClosedW(p, stale, c) && NoTrap(p, c)
    ensures ClosedW(q, stale, c) && NoTrap(q, c)
  {
    forall a | a in c && a < |q.slots|
      ensures !Trap(q.slots[a])
      ensures !Stuck(q.slots[a], stale(a)) ==> forall b | b in q.slots[a].Pending() :: b in c
    {
      assert SlotEvolvesW(p, q, stale, busy, a);
      assert forall b | b in q.slots[a].Pending() :: b in p.slots[a].Pending();
    }
  }

  ghost predicate Inside(s: Slot, c: set<nat>) {
    forall b | b in s.Pending() :: b in c
  }

  /** Closing one connection opens no way out of c, and springs no trap. */
  lemma EnterStaysInside(p: Pool, q: Pool, i: nat, stale: nat -> int, c: set<nat>)
    requires i < |p.slots| == |q.slots| && i in c && ClosedW(p, stale, c) && NoTrap(p, c)
    requires q.slots == p.slots[i := q.slots[i]]
    requires q.slots[i].Pending() == p.slots[i].Pending() && q.slots[i].state <= CONN_CLOSED
    requires Stuck(p.slots[i], stale(i)) ==> Stuck(q.slots[i], stale(i))
    ensures SameOutside(p, q, c) && ClosedW(q, stale, c) && NoTrap(q, c)
    ensures !Stuck(p.slots[i], stale(i)) ==> Inside(q.slots[i], c)
  {
    forall a | a in c && a < |q.slots|
      ensures !Trap(q.slots[a])
      ensures !Stuck(q.slots[a], stale(a)) ==> Inside(q.slots[a], c)
    {
      assert a != i ==> q.slots[a] == p.slots[a];
      assert !Trap(p.slots[a]);
    }
  }

  lemma EnterReturns(p: Pool, i: nat, stale: nat -> int, c: set<nat>)
    requires p.Valid() && p.Ready() && i < |p.slots| && i in c && ClosedW(p, stale, c) && NoTrap(p, c)
    ensures var r := EnterW(p, i, stale);
            && r.Returned? && r.p.Valid() && r.p.Ready() && |r.p.slots| == |p.slots| && SameOutside(p, r.p, c)
            && Total(r.p.slots) == Total(p.slots) && r.p.slots[i].state <= CONN_CLOSED
            && ClosedW(r.p, stale, c) && NoTrap(r.p, c) && (r.rc == LSP_ERR_NONE ==> Inside(r.p.slots[i], c))
  {
    assert !Trap(p.slots[i]);
    EnterValid(p, i, stale);
    EnterReady(p, i, stale);
    var q := EnterW(p, i, stale).p;
    assert q.slots[i].Pending() == p.slots[i].Pending();
    assert q.slots == p.slots[i := q.slots[i]];
    EnterStaysInside(p, q, i, stale, c);
  }

  /** If nobody who can be called is a trap, the call returns, and changes nobody else. */
  lemma {:induction false} FreeReturns(p: Pool, i: nat, stale: nat -> int, c: set<nat>)
    requires p.Valid() && p.Ready() && i < |p.slots| && i in c && ClosedW(p, stale, c) && NoTrap(p, c)
    ensures FreeW(p, i, stale).Returned? && SameOutside(p, FreeW(p, i, stale).p, c)
    decreases Total(p.slots), 2
  {
    EnterReturns(p, i, stale, c);
    var p1, rc := EnterW(p, i, stale).p, EnterW(p, i, stale).rc;
    if rc != LSP_ERR_NONE {
      assert FreeW(p, i, stale) == Returned(p1, rc);
    } else if p1.slots[i].Server() {
      DrainReturns(p1, i, stale, c);
      assert FreeW(p, i, stale) == Returned(Finish(DrainW(p1, i, stale).p, i), LSP_ERR_NONE);
    } else {
      assert FreeW(p, i, stale) == Returned(Finish(p1, i), LSP_ERR_NONE);
    }
  }

  lemma {:induction false} DrainReturns(p: Pool, i: nat, stale: nat -> int, c: set<nat>)
    requires p.Valid() && p.Ready() && i < |p.slots| && p.slots[i].Server() && p.slots[i].state <= CONN_CLOSED
    requires i in c && Inside(p.slots[i], c) && ClosedW(p, stale, c) && NoTrap(p, c)
    ensures DrainW(p, i, stale).Returned? && SameOutside(p, DrainW(p, i, stale).p, c)
    decreases Total(p.slots), 1
  {
    if HasChild(p, i) {
      OneTurnW(p, i, stale);
      TurnReturns(p, i, stale, c);
      var m := AfterChildW(p, i, stale).p;
      DrainReturns(m, i, stale, c);
      SameOutsideTrans(p, m, DrainW(m, i, stale).p, c);
    } else {
      LastPopW(p, i, stale);
    }
  }

  lemma PoppedInside(p: Pool, i: nat, stale: nat -> int, c: set<nat>)
    requires HasChild(p, i) && i in c && Inside(p.slots[i], c) && ClosedW(p, stale, c) && NoTrap(p, c)
    ensures ClosedW(Popped(p, i), stale, c) && NoTrap(Popped(p, i), c) && FirstChild(p, i) in c
    ensures SameOutside(p, Popped(p, i), c)
  {
  }

  lemma {:induction false} TurnReturns(p: Pool, i: nat, stale: nat -> int, c: set<nat>)
    requires p.Valid() && p.Ready() && HasChild(p, i) && p.slots[i].state <= CONN_CLOSED
    requires i in c && Inside(p.slots[i], c) && ClosedW(p, stale, c) && NoTrap(p, c)
    ensures var r := AfterChildW(p, i, stale);
            && r.Returned? && SameOutside(p, r.p, c) && ClosedW(r.p, stale, c) && NoTrap(r.p, c)
            && r.p.Ready() && r.p.slots[i].state <= CONN_CLOSED && Inside(r.p.slots[i], c)
    decreases Total(p.slots), 0
  {
    OneTurnW(p, i, stale);
    PoppedInside(p, i, stale, c);
    FreeReturns(Popped(p, i), FirstChild(p, i), stale, c);
    var m := AfterChildW(p, i, stale).p;
    TurnEvolves(p, i, stale);
    ClosedKept(p, m, stale, i, c);
    assert SlotEvolvesW(p, m, stale, i, i);
  }

  // ---------------------------------------------------------------- calls and unlinkings

  /** The accounts of connection v: entries only move to calls, and whoever is open is
      unlinked when it is closed. */
  ghost predicate Accounts(p: Pool, q: Pool, c: set<nat>, v: nat, called: int) {
    && EntryCount(q, c, v) == EntryCount(p, c, v) + called
    && ConnPorts.OpenCount(q, v) == ConnPorts.OpenCount(p, v)
  }

  lemma CloseAccounts(p: Pool, i: nat, c: set<nat>, v: nat)
    requires i < |p.slots| && i in c && CloseW(p, i).Returned?
    ensures Accounts(p, CloseW(p, i).p, c, v, 0) && CloseW(p, i).p.slots[i].state <= CONN_CLOSED
  {
    if p.slots[i].state > CONN_CLOSED {
      CloseEntries(p, i, c, v);
      OccursConcat(p.unlinked, [i], v);
    }
  }

  lemma CloseEntries(p: Pool, i: nat, c: set<nat>, v: nat)
    requires i < |p.slots| && i in c && CloseW(p, i).Returned? && p.slots[i].state > CONN_CLOSED
    ensures EntryCount(CloseW(p, i).p, c, v) == EntryCount(p, c, v)
  {
    var q := CloseW(p, i).p;
    TallyUpdate(p.slots, c, Entries, v, i, q.slots[i]);
    assert Entries(q.slots[i]) == Entries(p.slots[i]);
  }

  lemma EnterAccounts(p: Pool, i: nat, stale: nat -> int, c: set<nat>, v: nat)
    requires i < |p.slots| && i in c && EnterW(p, i, stale).Returned?
    ensures Accounts(p, EnterW(p, i, stale).p, c, v, Is(i, v))
    ensures EnterW(p, i, stale).p.slots[i].state <= CONN_CLOSED
  {
    var p0 := p.(calls := p.calls + [i]);
    OccursConcat(p.calls, [i], v);
    assert Accounts(p, p0, c, v, Is(i, v));
    if p.slots[i].state != CONN_CLOSED { CloseAccounts(p0, i, c, v); }
  }

  lemma FinishAccounts(p: Pool, i: nat, c: set<nat>, v: nat)
    requires i < |p.slots| && i in c && (p.slots[i].Server() ==> p.slots[i].Pending() == [])
    requires p.slots[i].state <= CONN_CLOSED
    ensures Accounts(p, Finish(p, i), c, v, 0)
  {
    FinishConserves(p, i, c, v);
  }

  lemma {:induction false} FreeAccounts(p: Pool, i: nat, stale: nat -> int, c: set<nat>, v: nat)
    requires p.Valid() && p.Ready() && i < |p.slots| && c == Below(|p.slots|) && FreeW(p, i, stale).Returned?
    ensures Accounts(p, FreeW(p, i, stale).p, c, v, Is(i, v))
    decreases Total(p.slots), 1
  {
    EnterValid(p, i, stale);
    EnterReady(p, i, stale);
    EnterAccounts(p, i, stale, c, v);
    var p1, rc := EnterW(p, i, stale).p, EnterW(p, i, stale).rc;
    if rc != LSP_ERR_NONE {
      assert FreeW(p, i, stale).p == p1;
    } else if p1.slots[i].Server() {
      var p2 := DrainW(p1, i, stale).p;
      DrainAccounts(p1, i, stale, c, v);
      DrainEvolves(p1, i, stale);
      assert SlotEvolvesW(p1, p2, stale, i, i);
      FinishAccounts(p2, i, c, v);
      assert FreeW(p, i, stale).p == Finish(p2, i);
    } else {
      FinishAccounts(p1, i, c, v);
      assert FreeW(p, i, stale).p == Finish(p1, i);
    }
  }

  lemma {:induction false} DrainAccounts(p: Pool, i: nat, stale: nat -> int, c: set<nat>, v: nat)
    requires p.Valid() && p.Ready() && i < |p.slots| && p.slots[i].Server() && c == Below(|p.slots|)
    requires p.slots[i].state <= CONN_CLOSED && DrainW(p, i, stale).Returned?
    ensures Accounts(p, DrainW(p, i, stale).p, c, v, 0)
    decreases Total(p.slots), 0
  {
    if HasChild(p, i) {
      OneTurnW(p, i, stale);
      PopTakesOne(p, i, c, v);
      ConnPorts.PopUnlinksNobody(p, i, v);
      FreeAccounts(Popped(p, i), FirstChild(p, i), stale, c, v);
      TurnEvolves(p, i, stale);
      DrainAccounts(AfterChildW(p, i, stale).p, i, stale, c, v);
    } else {
      assert p.slots[i].Valid(|p.slots|);
    }
  }

  /** As written too, a free that returns takes off their lists exactly the open
      connections it called, each once, and its code is the unset one iff it got stuck
      at once. */
  lemma AsWrittenUnlinks(p: Pool, i: nat, stale: nat -> int, v: nat)
    requires p.Valid() && p.Ready() && i < |p.slots| && v < |p.slots| && FreeW(p, i, stale).Returned?
    ensures var r := FreeW(p, i, stale);
            && Occurs(r.p.unlinked, v) == Occurs(p.unlinked, v)
                 + (if v in CallSet(p, stale, i) && p.slots[v].state > CONN_CLOSED then 1 else 0)
            && r.rc == if Stuck(p.slots[i], stale(i)) then stale(i) else LSP_ERR_NONE
  {
    FreeAccounts(p, i, stale, Below(|p.slots|), v);
    AsWrittenReturnsIff(p, i, stale);
    assert Outcome(p, FreeW(p, i, stale).p, stale, i, v);
    EnterReady(p, i, stale);
  }

  /** lsp_conn_free as written returns iff no connection it would call is open with
      an empty receive queue. If it returns, exactly the connections called that were
      not stuck are free and drained, the open ones among them short of one buffer;
      every other connection is as it was, and not one buffer has been freed. */
  lemma AsWrittenReturnsIff(p: Pool, i: nat, stale: nat -> int)
    requires p.Valid() && p.Ready() && i < |p.slots|
    ensures var r := FreeW(p, i, stale);
            r.Returned? <==> forall j | j in CallSet(p, stale, i) :: !Trap(p.slots[j])
    ensures var r := FreeW(p, i, stale);
            r.Returned? ==>
              && r.p.freed == p.freed && |r.p.slots| == |p.slots|
              && forall j | 0 <= j < |p.slots| :: Outcome(p, r.p, stale, i, j)
  {
    var c := CallSet(p, stale, i);
    CallSetClosed(p, stale, i);
    var r := FreeW(p, i, stale);
    if r.Returned? {
      FreeEvolves(p, i, stale);
      forall j | j in c ensures !Trap(p.slots[j]) && Outcome(p, r.p, stale, i, j) {
        var path :| Walk(p, stale, path) && path[0] == i && path[|path| - 1] == j;
        WalkHandled(p, r.p, stale, path);
        assert SlotEvolvesW(p, r.p, stale, -1, j);
      }
      FreeReturns(p, i, stale, c);
    } else if forall j | j in c :: !Trap(p.slots[j]) {
      FreeReturns(p, i, stale, c);
    }
  }

  /** What has become of connection j when a free of connection i has returned. */
  ghost predicate Outcome(p: Pool, q: Pool, stale: nat -> int, i: nat, j: nat)
    requires j < |p.slots| == |q.slots|
  {
    var s := p.slots[j];
    if j in CallSet(p, stale, i) && !Stuck(s, stale(j)) then
      && q.slots[j].Settled()
      && (if s.state > CONN_CLOSED && s.rx.Some? && s.rx.value != [] then q.slots[j].rx == Some(s.rx.value[1..])
          else q.slots[j].rx == s.rx)
    else q.slots[j] == s
  }

  // ---------------------------------------------------------------- when it does what it should

  /** Already closed, with the code happening to be right, or free. */
  predicate Plain(s: Slot, code: int) {
    s.state <= CONN_CLOSED && !Stuck(s, code)
  }

  ghost predicate AllPlain(p: Pool, stale: nat -> int, c: set<nat>) {
    forall a | a in c && a < |p.slots| :: Plain(p.slots[a], stale(a))
  }

  lemma PlainKept(p: Pool, q: Pool, stale: nat -> int, busy: int, c: set<nat>)
    requires EvolvesW(p, q, stale, busy) && ClosedW(p, stale, c) && AllPlain(p, stale, c)
    ensures ClosedW(q, stale, c) && AllPlain(q, stale, c)
  {
    assert forall a | a in c && a < |p.slots| :: Plain(p.slots[a], stale(a)) ==> !Trap(p.slots[a]);
    ClosedKept(p, q, stale, busy, c);
    forall a | a in c && a < |q.slots| ensures Plain(q.slots[a], stale(a)) {
      assert SlotEvolvesW(p, q, stale, busy, a) && Plain(p.slots[a], stale(a));
    }
  }

  lemma {:induction false} FreeSame(p: Pool, i: nat, stale: nat -> int, c: set<nat>)
    requires p.Valid() && p.Ready() && i < |p.slots| && i in c && ClosedW(p, stale, c) && AllPlain(p, stale, c)
    ensures FreeW(p, i, stale) == Returned(Free(p, i).0, Free(p, i).1)
    decreases Total(p.slots), 2
  {
    assert Plain(p.slots[i], stale(i));
    var p0 := p.(calls := p.calls + [i]);
    assert Close(p0, i) == (p0, LSP_ERR_NONE) && EnterW(p, i, stale) == Returned(p0, LSP_ERR_NONE);
    EnterValid(p, i, stale);
    if p0.slots[i].Server() {
      assert ClosedW(p0, stale, c) && AllPlain(p0, stale, c);
      DrainSame(p0, i, stale, c);
      assert FreeW(p, i, stale) == Returned(Finish(DrainW(p0, i, stale).p, i), LSP_ERR_NONE);
      assert Free(p, i) == (Finish(Drain(p0, i), i), LSP_ERR_NONE);
    } else {
      assert FreeW(p, i, stale) == Returned(Finish(p0, i), LSP_ERR_NONE);
      assert Free(p, i) == (Finish(p0, i), LSP_ERR_NONE);
    }
  }

  lemma {:induction false} DrainSame(p: Pool, i: nat, stale: nat -> int, c: set<nat>)
    requires p.Valid() && p.Ready() && i < |p.slots| && p.slots[i].Server()
    requires i in c && ClosedW(p, stale, c) && AllPlain(p, stale, c)
    ensures DrainW(p, i, stale) == Returned(Drain(p, i), LSP_ERR_NONE)
    decreases Total(p.slots), 1
  {
    if HasChild(p, i) {
      OneTurn(p, i);
      OneTurnW(p, i, stale);
      TurnSame(p, i, stale, c);
      DrainSame(AfterChild(p, i), i, stale, c);
    } else {
      assert p.slots[i].Valid(|p.slots|);
    }
  }

  lemma PoppedPlain(p: Pool, i: nat, stale: nat -> int, c: set<nat>)
    requires HasChild(p, i) && i in c && ClosedW(p, stale, c) && AllPlain(p, stale, c)
    ensures ClosedW(Popped(p, i), stale, c) && AllPlain(Popped(p, i), stale, c)
    ensures FirstChild(p, i) in c && p.slots[i].state <= CONN_CLOSED
  {
    assert Plain(p.slots[i], stale(i));
  }

  lemma {:induction false} TurnSame(p: Pool, i: nat, stale: nat -> int, c: set<nat>)
    requires p.Valid() && p.Ready() && HasChild(p, i) && i in c && ClosedW(p, stale, c) && AllPlain(p, stale, c)
    ensures AfterChildW(p, i, stale).Returned? && AfterChildW(p, i, stale).p == AfterChild(p, i)
    ensures ClosedW(AfterChild(p, i), stale, c) && AllPlain(AfterChild(p, i), stale, c)
    decreases Total(p.slots), 0
  {
    OneTurn(p, i);
    PoppedPlain(p, i, stale, c);
    FreeSame(Popped(p, i), FirstChild(p, i), stale, c);
    TurnEvolves(p, i, stale);
    PlainKept(p, AfterChild(p, i), stale, i, c);
  }

  lemma {:induction false} TallyPositive(slots: seq<Slot>, c: set<nat>, j: nat, v: nat)
    requires j < |slots| && j in c && v in Buffers(slots[j])
    ensures Tally(slots, c, Buffers, v) > 0
  {
    if j < |slots| - 1 { TallyPositive(slots[..|slots| - 1], c, j, v); }
  }

  /** As written lsp_conn_free does what it should, to the last slot, buffer and call,
      iff every connection it calls itself on was free, or closed with the code
      happening to be right: it never frees an open one properly. */
  lemma AsWrittenRightIff(p: Pool, i: nat, stale: nat -> int)
    requires p.Valid() && p.Ready() && i < |p.slots|
    ensures FreeW(p, i, stale) == Returned(Free(p, i).0, Free(p, i).1) <==>
              forall j | j in CallSet(p, stale, i) :: Plain(p.slots[j], stale(j))
  {
    CallSetClosed(p, stale, i);
    if forall j | j in CallSet(p, stale, i) :: Plain(p.slots[j], stale(j)) {
      FreeSame(p, i, stale, CallSet(p, stale, i));
    } else {
      var j :| j in CallSet(p, stale, i) && !Plain(p.slots[j], stale(j));
      NotPlainDiffers(p, i, stale, j);
    }
  }

  lemma NotPlainDiffers(p: Pool, i: nat, stale: nat -> int, j: nat)
    requires p.Valid() && p.Ready() && i < |p.slots|
    requires j in CallSet(p, stale, i) && !Plain(p.slots[j], stale(j))
    ensures FreeW(p, i, stale) != Returned(Free(p, i).0, Free(p, i).1)
  {
    AsWrittenReturnsIff(p, i, stale);
    EveryReachedIsFree(p, i, j);
    if FreeW(p, i, stale).Returned? {
      assert Outcome(p, FreeW(p, i, stale).p, stale, i, j);
      if p.slots[j].state > CONN_CLOSED {
        var v := p.slots[j].rx.value[0];
        BuffersFreedOnce(p, i, v);
        TallyPositive(p.slots, OpenReached(p, i), j, v);
      }
    }
  }
}
