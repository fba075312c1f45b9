/** The connection pool and what freeing one connection does to all the others
    (src/lsp_conn.c). Connections are the slots of a static array, so a slot's
    index stands for its address. */
module ConnPool {
  import opened LspTypes

  /** The queue of children, by what is left in it. A server whose queue has been
      destroyed still points at it. */
  datatype Children = NoQueue | Queued(q: seq<nat>) | Destroyed

  /** `rx` is the receive queue, if there is one, as the buffers in it. */
  datatype Slot = Slot(connType: int, state: nat, rx: Option<seq<nat>>, children: Children)
  {
    predicate Server() { connType == CONN_SERVER }

    /** Entries a free of this slot will pop. */
    function Pending(): seq<nat> {
      if Server() && children.Queued? then children.q else []
    }

    /** Its queue holds slots of a pool of n, and a server has a queue. */
    ghost predicate Valid(n: nat) {
      (Server() ==> !children.NoQueue?) && forall k | 0 <= k < |Pending()| :: Pending()[k] < n
    }

    predicate Settled() { state == CONN_FREE && Pending() == [] }
  }

  /** `freed` lists the buffers handed to lsp_buffer_free, `calls` the connections
      lsp_conn_free was called on, `unlinked` those that lsp_conn_close took off their
      port's list; `fault` records that a destroyed queue was used. */
  datatype Pool = Pool(slots: seq<Slot>, freed: seq<nat>, calls: seq<nat>, unlinked: seq<nat>, fault: bool)
  {
    function With(i: nat, s: Slot): Pool
      requires i < |slots|
    {
      this.(slots := slots[i := s])
    }

    /** Queues hold connections of this pool, and every server has a queue. */
    ghost predicate Valid() {
      forall j | 0 <= j < |slots| :: slots[j].Valid(|slots|)
    }

    /** Whoever is open has a receive queue: lsp_conn_alloc creates it. */
    ghost predicate Ready() {
      forall j | 0 <= j < |slots| :: slots[j].state > CONN_CLOSED ==> slots[j].rx.Some?
    }
  }

  /** All entries still queued anywhere: the measure of the recursion. */
  function Total(slots: seq<Slot>): nat {
    if slots == [] then 0 else Total(slots[..|slots| - 1]) + |slots[|slots| - 1].Pending()|
  }

  lemma {:induction false} TotalUpdate(slots: seq<Slot>, i: nat, s: Slot)
    requires i < |slots|
    ensures Total(slots[i := s]) == Total(slots) - |slots[i].Pending()| + |s.Pending()|
  {
    var n := |slots| - 1;
    if i == n {
      assert slots[i := s][..n] == slots[..n];
    } else {
      TotalUpdate(slots[..n], i, s);
      assert slots[i := s][..n] == slots[..n][i := s];
    }
  }

  /** lsp_conn_close with the flush loop's condition put right. */
  function Close(p: Pool, i: nat): (Pool, int)
    requires i < |p.slots|
  {
    var s := p.slots[i];
    if s.state <= CONN_CLOSED then (p, LSP_ERR_NONE)
    else
      var p1 := p.(unlinked := p.unlinked + [i]);
      if s.rx.None? then (p1.With(i, s.(state := CONN_CLOSED)), LSP_ERR_INVALID)
      else (p1.With(i, s.(state := CONN_CLOSED, rx := Some([]))).(freed := p.freed + s.rx.value), LSP_ERR_NONE)
  }

  /** The end of lsp_conn_free: a server's queue is destroyed, the slot is free. */
  function Finish(p: Pool, i: nat): Pool
    requires i < |p.slots|
  {
    var s := p.slots[i];
    p.With(i, s.(state := CONN_FREE, children := if s.Server() then Destroyed else s.children))
  }

  predicate HasChild(p: Pool, i: nat) {
    i < |p.slots| && p.slots[i].Server() && p.slots[i].children.Queued? && p.slots[i].children.q != []
  }

  function FirstChild(p: Pool, i: nat): nat
    requires HasChild(p, i)
  {
    p.slots[i].children.q[0]
  }

  /** One lsp_queue_pop from a server's queue. */
  function Popped(p: Pool, i: nat): Pool
    requires HasChild(p, i)
  {
    p.With(i, p.slots[i].(children := Queued(p.slots[i].children.q[1..])))
  }

  /** lsp_conn_free with its return code initialised. */
  function Free(p: Pool, i: nat): (r: (Pool, int))
    requires p.Valid() && i < |p.slots|
    ensures r.0.Valid() && |r.0.slots| == |p.slots| && Total(r.0.slots) <= Total(p.slots)
    ensures forall j | 0 <= j < |p.slots| :: r.0.slots[j].connType == p.slots[j].connType
    decreases Total(p.slots), 1
  {
    var p0 := p.(calls := p.calls + [i]);
    CloseValid(p0, i);
    var (p1, rc) := Close(p0, i);
    if rc != LSP_ERR_NONE then (p1, rc)
    else if p1.slots[i].Server() then
      FinishValid(Drain(p1, i), i);
      (Finish(Drain(p1, i), i), LSP_ERR_NONE)
    else
      FinishValid(p1, i);
      (Finish(p1, i), LSP_ERR_NONE)
  }

  /** The loop of lsp_conn_free: pop a child, free it, until the queue is empty. */
  function Drain(p: Pool, i: nat): (r: Pool)
    requires p.Valid() && i < |p.slots| && p.slots[i].Server()
    ensures r.Valid() && |r.slots| == |p.slots| && Total(r.slots) <= Total(p.slots)
    ensures r.slots[i].Pending() == []
    ensures forall j | 0 <= j < |p.slots| :: r.slots[j].connType == p.slots[j].connType
    decreases Total(p.slots), 0
  {
    if p.slots[i].children.Destroyed? then p.(fault := true)
    else if p.slots[i].children.q == [] then p
    else
      PoppedValid(p, i);
      Drain(Free(Popped(p, i), FirstChild(p, i)).0, i)
  }

  lemma UpdateValid(p: Pool, i: nat, s: Slot)
    requires p.Valid() && i < |p.slots| && s.Valid(|p.slots|)
    ensures p.With(i, s).Valid()
  {
  }

  lemma CloseValid(p: Pool, i: nat)
    requires p.Valid() && i < |p.slots|
    ensures var (r, rc) := Close(p, i);
            && r.Valid() && |r.slots| == |p.slots| && Total(r.slots) == Total(p.slots)
            && forall j | 0 <= j < |p.slots| :: r.slots[j].connType == p.slots[j].connType
  {
    OneSlotChanged(p, Close(p, i).0, i);
  }

  /** A slot that keeps its type and its queue leaves the shape of the pool alone. */
  lemma OneSlotChanged(p: Pool, q: Pool, i: nat)
    requires p.Valid() && i < |p.slots| == |q.slots| && q.slots == p.slots[i := q.slots[i]]
    requires q.slots[i].connType == p.slots[i].connType && q.slots[i].children == p.slots[i].children
    ensures q.Valid() && Total(q.slots) == Total(p.slots)
    ensures forall j | 0 <= j < |p.slots| :: q.slots[j].connType == p.slots[j].connType
  {
    assert p.slots[i].Valid(|p.slots|);
    assert q.slots[i].Pending() == p.slots[i].Pending();
    UpdateValid(p, i, q.slots[i]);
    TotalUpdate(p.slots, i, q.slots[i]);
  }

  lemma FinishValid(p: Pool, i: nat)
    requires p.Valid() && i < |p.slots| && (p.slots[i].Server() ==> p.slots[i].Pending() == [])
    ensures Finish(p, i).Valid() && Total(Finish(p, i).slots) == Total(p.slots)
  {
    var s := Finish(p, i).slots[i];
    assert p.slots[i].Valid(|p.slots|);
    UpdateValid(p, i, s);
    TotalUpdate(p.slots, i, s);
  }

  lemma PoppedValid(p: Pool, i: nat)
    requires p.Valid() && HasChild(p, i)
    ensures Popped(p, i).Valid() && Total(Popped(p, i).slots) == Total(p.slots) - 1
    ensures FirstChild(p, i) < |p.slots|
  {
    var s := Popped(p, i).slots[i];
    assert p.slots[i].Valid(|p.slots|);
    forall k | 0 <= k < |s.Pending()| ensures s.Pending()[k] < |p.slots| {
      assert s.Pending()[k] == p.slots[i].Pending()[k + 1];
    }
    UpdateValid(p, i, s);
    TotalUpdate(p.slots, i, s);
  }

  /** A free is refused iff the connection is open and has no receive queue: it is then
      closed and off its list, but not free, and nothing else has happened. */
  lemma FreeRefusedIff(p: Pool, i: nat)
    requires p.Valid() && i < |p.slots|
    ensures var s, (q, rc) := p.slots[i], Free(p, i);
            && (rc != LSP_ERR_NONE <==> s.state > CONN_CLOSED && s.rx.None?)
            && (rc != LSP_ERR_NONE ==>
                  && rc == LSP_ERR_INVALID && q.slots == p.slots[i := s.(state := CONN_CLOSED)]
                  && q.unlinked == p.unlinked + [i] && q.freed == p.freed && q.fault == p.fault)
  {
    CloseValid(p.(calls := p.calls + [i]), i);
  }

  // ---------------------------------------------------------------- who ends up free

  /** p became q by freeing connections: queues only lose entries from the front,
      every entry lost is settled by now, whoever was settled stays settled, and
      receive queues are emptied exactly where an open connection was closed. */
  ghost predicate Evolves(p: Pool, q: Pool) {
    && |q.slots| == |p.slots|
    && forall j | 0 <= j < |p.slots| :: SlotEvolves(p, q, j)
  }

  ghost predicate SlotEvolves(p: Pool, q: Pool, j: nat)
    requires |q.slots| == |p.slots| && j < |p.slots|
  {
    Kept(p.slots[j], q.slots[j]) && LostSettled(p.slots[j], q.slots[j], q)
  }

  /** What one slot keeps. */
  ghost predicate Kept(a: Slot, b: Slot) {
    var lost := |a.Pending()| - |b.Pending()|;
    && b.connType == a.connType
    && (a.Settled() ==> b.Settled())
    && (b.state == a.state || b.state <= CONN_CLOSED < a.state || b.state == CONN_FREE)
    && b.rx == (if b.state <= CONN_CLOSED < a.state && a.rx.Some? then Some([]) else a.rx)
    && (b.children.Queued? ==> a.children.Queued?)
    && 0 <= lost && b.Pending() == a.Pending()[lost..]
  }

  ghost predicate SettledIn(q: Pool, c: nat) {
    c < |q.slots| && q.slots[c].Settled()
  }

  /** Where the entries that one slot has lost are now. */
  ghost predicate LostSettled(a: Slot, b: Slot, q: Pool) {
    forall k | 0 <= k < |a.Pending()| - |b.Pending()| :: SettledIn(q, a.Pending()[k])
  }

  lemma TailOfTail(xs: seq<nat>, m: nat, n: nat)
    requires m + n <= |xs|
    ensures xs[m..][n..] == xs[m + n..]
  {
  }

  lemma KeptTrans(a: Slot, b: Slot, c: Slot)
    requires Kept(a, b) && Kept(b, c)
    ensures Kept(a, c)
  {
    TailOfTail(a.Pending(), |a.Pending()| - |b.Pending()|, |b.Pending()| - |c.Pending()|);
  }

  lemma SlotEvolvesTrans(p: Pool, q: Pool, r: Pool, j: nat)
    requires Evolves(p, q) && Evolves(q, r) && j < |p.slots|
    ensures SlotEvolves(p, r, j)
  {
    assert SlotEvolves(p, q, j) && SlotEvolves(q, r, j);
    var a, b, c := p.slots[j].Pending(), q.slots[j].Pending(), r.slots[j].Pending();
    var lost := |a| - |b|;
    KeptTrans(p.slots[j], q.slots[j], r.slots[j]);
    forall k | 0 <= k < |a| - |c| ensures SettledIn(r, a[k]) {
      if k < lost {
        assert SettledIn(q, a[k]) && SlotEvolves(q, r, a[k]);
      } else {
        assert a[k] == b[k - lost];
      }
    }
  }

  lemma EvolvesTrans(p: Pool, q: Pool, r: Pool)
    requires Evolves(p, q) && Evolves(q, r)
    ensures Evolves(p, r)
  {
    forall j | 0 <= j < |p.slots| ensures SlotEvolves(p, r, j) { SlotEvolvesTrans(p, q, r, j); }
  }

  /** A popped entry that the following free settles counts as properly lost. */
  lemma SlotAfterPop(a: Slot, m: Slot, b: Slot, q: Pool)
    requires a.Pending() != [] && m == a.(children := Queued(a.children.q[1..]))
    requires Kept(m, b) && LostSettled(m, b, q) && SettledIn(q, a.Pending()[0])
    ensures Kept(a, b) && LostSettled(a, b, q)
  {
    forall k | 0 <= k < |a.Pending()| - |b.Pending()| ensures SettledIn(q, a.Pending()[k]) {
      if 0 < k { assert a.Pending()[k] == m.Pending()[k - 1]; }
    }
  }

  lemma EvolvesAfterPop(p: Pool, i: nat, q: Pool)
    requires HasChild(p, i) && Evolves(Popped(p, i), q) && SettledIn(q, FirstChild(p, i))
    ensures Evolves(p, q)
  {
    var m := Popped(p, i);
    forall j | 0 <= j < |p.slots| ensures SlotEvolves(p, q, j) {
      assert SlotEvolves(m, q, j);
      if j == i { SlotAfterPop(p.slots[i], m.slots[i], q.slots[i], q); }
    }
  }

  /** Only slot i changed, and in keeping. */
  lemma EvolvesAt(p: Pool, q: Pool, i: nat)
    requires i < |p.slots| == |q.slots| && q.slots == p.slots[i := q.slots[i]]
    requires Kept(p.slots[i], q.slots[i]) && LostSettled(p.slots[i], q.slots[i], q)
    ensures Evolves(p, q)
  {
    forall j | 0 <= j < |p.slots| ensures SlotEvolves(p, q, j) {
      assert j != i ==> q.slots[j] == p.slots[j];
    }
  }

  lemma {:induction false} FreeSettles(p: Pool, i: nat)
    requires p.Valid() && p.Ready() && i < |p.slots|
    ensures var (q, rc) := Free(p, i);
            rc == LSP_ERR_NONE && q.Ready() && Evolves(p, q) && q.slots[i].Settled()
    decreases Total(p.slots), 1
  {
    var p0 := p.(calls := p.calls + [i]);
    var p1 := Close(p0, i).0;
    CloseValid(p0, i);
    CloseEvolves(p, i);
    if p1.slots[i].Server() {
      DrainSettles(p1, i);
      var p2 := Drain(p1, i);
      assert SlotEvolves(p1, p2, i);
      FinishEvolves(p2, i);
      EvolvesTrans(p, p1, p2);
      EvolvesTrans(p, p2, Finish(p2, i));
      assert Free(p, i) == (Finish(p2, i), LSP_ERR_NONE);
    } else {
      FinishEvolves(p1, i);
      EvolvesTrans(p, p1, Finish(p1, i));
      assert Free(p, i) == (Finish(p1, i), LSP_ERR_NONE);
    }
  }

  lemma CloseEvolves(p: Pool, i: nat)
    requires p.Ready() && i < |p.slots|
    ensures var (q, rc) := Close(p.(calls := p.calls + [i]), i);
            rc == LSP_ERR_NONE && q.Ready() && Evolves(p, q) && q.slots[i].state <= CONN_CLOSED
  {
    var q := Close(p.(calls := p.calls + [i]), i).0;
    assert q.slots == p.slots[i := q.slots[i]];
    EvolvesAt(p, q, i);
  }

  lemma FinishEvolves(p: Pool, i: nat)
    requires p.Ready() && i < |p.slots| && p.slots[i].state <= CONN_CLOSED
    requires p.slots[i].Server() ==> p.slots[i].Pending() == []
    ensures Finish(p, i).Ready() && Evolves(p, Finish(p, i)) && Finish(p, i).slots[i].Settled()
  {
    EvolvesAt(p, Finish(p, i), i);
  }

  lemma {:induction false} DrainSettles(p: Pool, i: nat)
    requires p.Valid() && p.Ready() && i < |p.slots| && p.slots[i].Server()
    ensures Drain(p, i).Ready() && Evolves(p, Drain(p, i))
    decreases Total(p.slots), 0
  {
    if HasChild(p, i) {
      PoppedValid(p, i);
      FreeSettles(Popped(p, i), FirstChild(p, i));
      var m := AfterChild(p, i);
      EvolvesAfterPop(p, i, m);
      DrainSettles(m, i);
      EvolvesTrans(p, m, Drain(m, i));
    }
  }

  /** The pool after one turn of the loop. */
  function AfterChild(p: Pool, i: nat): Pool
    requires p.Valid() && HasChild(p, i)
  {
    PoppedValid(p, i);
    Free(Popped(p, i), FirstChild(p, i)).0
  }

  /** What an inductive proof needs to know about one turn of the loop. */
  lemma OneTurn(p: Pool, i: nat)
    requires p.Valid() && HasChild(p, i)
    ensures var m := AfterChild(p, i);
            && m.Valid() && |m.slots| == |p.slots| && m.slots[i].Server() && Total(m.slots) < Total(p.slots)
            && Drain(p, i) == Drain(m, i)
            && (p.Ready() ==> m.Ready() && Evolves(Popped(p, i), m))
            && Popped(p, i).Valid() && FirstChild(p, i) < |p.slots| && Total(Popped(p, i).slots) < Total(p.slots)
            && (p.Ready() ==> Popped(p, i).Ready())
  {
    PoppedValid(p, i);
    if p.Ready() { FreeSettles(Popped(p, i), FirstChild(p, i)); }
  }
}
