/** The pool of connections in place: the array of slots that lsp_conn_alloc,
    lsp_conn_close and lsp_conn_free work on (src/lsp_conn.c). */
module ConnTable {
  import opened LspTypes
  import opened ConnPool

  // ---------------------------------------------------------------- the search for a free slot

  datatype Scan = Found(i: nat) | Nowhere | OutOfBounds

  /** The search loop of lsp_conn_alloc from slot k on. */
  function ScanFrom(slots: seq<Slot>, bound: nat, k: nat): Scan
    decreases bound - k
  {
    if k >= bound then Nowhere
    else if k >= |slots| then OutOfBounds
    else if slots[k].state == CONN_FREE then Found(k)
    else ScanFrom(slots, bound, k + 1)
  }

  /** Finds the first free slot, and nothing only if nothing is free. */
  ghost predicate ScanRight(slots: seq<Slot>, r: Scan) {
    match r
    case Found(i) => i < |slots| && slots[i].state == CONN_FREE && forall j | 0 <= j < i :: slots[j].state != CONN_FREE
    case Nowhere => forall j | 0 <= j < |slots| :: slots[j].state != CONN_FREE
    case OutOfBounds => false
  }

  lemma {:induction false} ScanFromRight(slots: seq<Slot>, k: nat)
    requires k <= |slots| && forall j | 0 <= j < k :: slots[j].state != CONN_FREE
    ensures ScanRight(slots, ScanFrom(slots, |slots|, k))
    decreases |slots| - k
  {
    if k < |slots| && slots[k].state != CONN_FREE { ScanFromRight(slots, k + 1); }
  }

  lemma {:induction false} ScanBusy(slots: seq<Slot>, bound: nat, k: nat)
    requires k <= bound && forall j | k <= j < bound && j < |slots| :: slots[j].state != CONN_FREE
    ensures ScanFrom(slots, bound, k) == if bound <= |slots| || bound == k then Nowhere else OutOfBounds
    decreases bound - k
  {
    if k < bound && k < |slots| { ScanBusy(slots, bound, k + 1); }
  }

  /** The search is right for every state of a pool of n slots iff its bound is n.
      The source always scans 32 (LSP_DEFAULT_MAX_CONNECTIONS), whatever conn_max is. */
  lemma ScanRightIff(n: nat, bound: nat)
    ensures (forall slots: seq<Slot> | |slots| == n :: ScanRight(slots, ScanFrom(slots, bound, 0))) <==> bound == n
  {
    if bound == n {
      forall slots: seq<Slot> | |slots| == n ensures ScanRight(slots, ScanFrom(slots, bound, 0)) {
        ScanFromRight(slots, 0);
      }
    } else {
      var busy := Slot(0, CONN_CLOSED, None, NoQueue);
      var slots := seq(n, (i: nat) => if i == bound then busy.(state := CONN_FREE) else busy);
      ScanBusy(slots, bound, 0);
      if bound < n { assert slots[bound].state == CONN_FREE; }
      assert |slots| == n && !ScanRight(slots, ScanFrom(slots, bound, 0));
    }
  }

  function FreeSlots(slots: seq<Slot>): nat {
    if slots == [] then 0
    else FreeSlots(slots[..|slots| - 1]) + (if slots[|slots| - 1].state == CONN_FREE then 1 else 0)
  }

  lemma {:induction false} FreeSlotsUpdate(slots: seq<Slot>, i: nat, s: Slot)
    requires i < |slots|
    ensures FreeSlots(slots[i := s]) ==
              FreeSlots(slots) - (if slots[i].state == CONN_FREE then 1 else 0) + (if s.state == CONN_FREE then 1 else 0)
  {
    var n := |slots| - 1;
    if i == n {
      assert slots[i := s][..n] == slots[..n];
    } else {
      FreeSlotsUpdate(slots[..n], i, s);
      assert slots[i := s][..n] == slots[..n][i := s];
    }
  }

  lemma {:induction false} NoFreeSlots(slots: seq<Slot>)
    ensures FreeSlots(slots) == 0 <==> forall j | 0 <= j < |slots| :: slots[j].state != CONN_FREE
  {
    if slots != [] {
      var n := |slots| - 1;
      NoFreeSlots(slots[..n]);
      assert forall j | 0 <= j < n :: slots[..n][j] == slots[j];
    }
  }

  /** What lsp_conn_alloc makes of the slot it found: `parent` and `children` share
      their storage, and the type is left as it was. */
  function Allocated(p: Pool, i: nat): Pool
    requires i < |p.slots|
  {
    var s := p.slots[i];
    p.With(i, s.(state := CONN_CLOSED, rx := if s.rx.None? then Some([]) else s.rx, children := NoQueue))
  }

  /** An allocation leaves a pool that can be freed from iff the slot did not
      belong to a server before: a stale server type has no queue to drain. */
  lemma AllocKeepsValidIff(p: Pool, i: nat)
    requires p.Valid() && p.Ready() && i < |p.slots|
    ensures Allocated(p, i).Ready()
    ensures Allocated(p, i).Valid() <==> !p.slots[i].Server()
  {
    var s := Allocated(p, i).slots[i];
    if !s.Server() { UpdateValid(p, i, s); } else { assert !s.Valid(|p.slots|); }
  }

  /** Allocating a slot that was not a server's and freeing it again gives the slot
      back: what remains is an empty receive queue if there was none, and whatever
      was in it if there was one, because a closed connection is not flushed. */
  lemma AllocThenFree(p: Pool, i: nat)
    requires p.Valid() && i < |p.slots| && p.slots[i].state == CONN_FREE && !p.slots[i].Server()
    ensures Allocated(p, i).Valid()
    ensures var (q, rc) := ConnPool.Free(Allocated(p, i), i);
            var s := p.slots[i];
            && rc == LSP_ERR_NONE && q.freed == p.freed && q.fault == p.fault
            && q.slots == p.slots[i := s.(rx := if s.rx.None? then Some([]) else s.rx, children := NoQueue)]
  {
  }

  // ---------------------------------------------------------------- in place

  class Connections {
    const slots: array<Slot>
    var freed: seq<nat>
    ghost var calls: seq<nat>
    ghost var unlinked: seq<nat>
    ghost var fault: bool

    ghost function Snapshot(): Pool
      reads this, slots
    {
      Pool(slots[..], freed, calls, unlinked, fault)
    }

    /** lsp_conn_init: all bytes zero, so every slot is free and has no queue. */
    constructor (connMax: nat)
      ensures fresh(slots) && slots.Length == connMax && Snapshot().Valid() && Snapshot().Ready()
      ensures forall i | 0 <= i < slots.Length :: slots[i].state == CONN_FREE
    {
      slots := new Slot[connMax](_ => Slot(0, CONN_FREE, None, NoQueue));
      freed, calls, unlinked, fault := [], [], [], false;
    }

    /** lsp_conn_alloc, for one thread, with the bound of its scan as a parameter;
        `outside` if the scan leaves the array. It claims the first free slot, which is
        then no longer free and has a receive queue, and touches no other. */
    method Alloc(bound: nat) returns (handle: Option<nat>, outside: bool)
      modifies slots
      ensures match ScanFrom(old(slots[..]), bound, 0)
              case Found(i) =>
                handle == Some(i) && !outside && i < slots.Length && Snapshot() == Allocated(old(Snapshot()), i)
              case Nowhere => handle == None && !outside && Snapshot() == old(Snapshot())
              case OutOfBounds => handle == None && outside && Snapshot() == old(Snapshot())
      ensures handle.Some? ==>
                && handle.value < bound && handle.value < slots.Length
                && old(slots[..])[handle.value].state == CONN_FREE
                && slots[handle.value].state == CONN_CLOSED && slots[handle.value].rx.Some?
                && FreeSlots(slots[..]) == FreeSlots(old(slots[..])) - 1
      ensures handle.None? ==> forall j | 0 <= j < bound && j < slots.Length :: slots[j].state != CONN_FREE
      ensures forall j | 0 <= j < slots.Length && handle != Some(j) :: slots[j] == old(slots[j])
    {
      var i := 0;
      while i < bound && i < slots.Length && slots[i].state != CONN_FREE
        invariant i <= bound && i <= slots.Length
        invariant ScanFrom(slots[..], bound, 0) == ScanFrom(slots[..], bound, i)
        invariant forall j | 0 <= j < i :: slots[j].state != CONN_FREE
      {
        i := i + 1;
      }
      if i == bound { return None, false; }
      if i == slots.Length { return None, true; }
      Take(i);
      handle, outside := Some(i), false;
    }

    /** The slot's own fields. */
    method Take(i: nat)
      requires i < slots.Length
      modifies slots
      ensures Snapshot() == Allocated(old(Snapshot()), i)
      ensures slots[i].state == CONN_CLOSED && slots[i].rx.Some?
      ensures forall j | 0 <= j < slots.Length && j != i :: slots[j] == old(slots[j])
      ensures FreeSlots(slots[..]) == FreeSlots(old(slots[..])) - if old(slots[i]).state == CONN_FREE then 1 else 0
    {
      var s := slots[i];
      FreeSlotsUpdate(slots[..], i, Allocated(Snapshot(), i).slots[i]);
      slots[i] := s.(state := CONN_CLOSED, rx := if s.rx.None? then Some([]) else s.rx, children := NoQueue);
      assert slots[..] == old(slots[..])[i := slots[i]];
    }

    /** Any number of allocations without a free: they succeed exactly as often as
        there are free slots, give different handles, and touch nothing else. */
    method AllocMany(count: nat) returns (handles: seq<nat>)
      modifies slots
      ensures |handles| == if count <= FreeSlots(old(slots[..])) then count else FreeSlots(old(slots[..]))
      ensures forall a, b | 0 <= a < b < |handles| :: handles[a] != handles[b]
      ensures forall h | h in handles ::
                && h < slots.Length && old(slots[..])[h].state == CONN_FREE
                && slots[h].state == CONN_CLOSED && slots[h].rx.Some?
      ensures forall j | 0 <= j < slots.Length && j !in handles :: slots[j] == old(slots[j])
    {
      handles := [];
      for n := 0 to count
        invariant |handles| <= n && FreeSlots(slots[..]) == FreeSlots(old(slots[..])) - |handles|
        invariant |handles| < n ==> FreeSlots(slots[..]) == 0
        invariant forall a, b | 0 <= a < b < |handles| :: handles[a] != handles[b]
        invariant forall h | h in handles ::
                    && h < slots.Length && old(slots[..])[h].state == CONN_FREE
                    && slots[h].state == CONN_CLOSED && slots[h].rx.Some?
        invariant forall j | 0 <= j < slots.Length && j !in handles :: slots[j] == old(slots[j])
      {
        NoFreeSlots(slots[..]);
        var handle, outside := Alloc(slots.Length);
        if handle.Some? { handles := handles + [handle.value]; }
        NoFreeSlots(slots[..]);
      }
    }

    /** lsp_conn_rxq_flush with its condition put right. */
    method Flush(i: nat) returns (rc: int)
      requires i < slots.Length
      modifies this`freed, slots
      ensures slots[..] == old(slots[..])[i := slots[i]]
      ensures if old(slots[i].rx.None?) then rc == LSP_ERR_INVALID && slots[i] == old(slots[i]) && freed == old(freed)
              else
                && rc == LSP_ERR_NONE && slots[i] == old(slots[i]).(rx := Some([]))
                && freed == old(freed) + old(slots[i].rx.value)
    {
      if slots[i].rx.None? { return LSP_ERR_INVALID; }
      while slots[i].rx.value != []
        invariant slots[i].rx.Some? && slots[i] == old(slots[i]).(rx := slots[i].rx)
        invariant slots[..] == old(slots[..])[i := slots[i]]
        invariant freed + slots[i].rx.value == old(freed) + old(slots[i].rx.value)
        decreases |slots[i].rx.value|
      {
        var b := slots[i].rx.value[0];
        slots[i] := slots[i].(rx := Some(slots[i].rx.value[1..]));
        freed := freed + [b];
      }
      rc := LSP_ERR_NONE;
    }

    method Close(i: nat) returns (rc: int)
      requires i < slots.Length
      modifies this`freed, this`unlinked, slots
      ensures (Snapshot(), rc) == ConnPool.Close(old(Snapshot()), i)
    {
      if slots[i].state <= CONN_CLOSED { return LSP_ERR_NONE; }
      unlinked := unlinked + [i];
      slots[i] := slots[i].(state := CONN_CLOSED);
      rc := Flush(i);
      assert slots[..] == old(slots[..])[i := slots[i]];
    }

    /** The last lines of lsp_conn_free. */
    method Release(i: nat)
      requires i < slots.Length
      modifies slots
      ensures Snapshot() == Finish(old(Snapshot()), i)
    {
      if slots[i].connType == CONN_SERVER {
        slots[i] := slots[i].(children := Destroyed);
      }
      slots[i] := slots[i].(state := CONN_FREE);
      assert slots[..] == old(slots[..])[i := slots[i]];
    }

    /** lsp_conn_free: the recursion of the source, through the queues in the array. */
    method Free(i: nat) returns (rc: int)
      requires i < slots.Length && Snapshot().Valid()
      modifies this, slots
      ensures Snapshot().Valid() && (Snapshot(), rc) == ConnPool.Free(old(Snapshot()), i)
      decreases Total(slots[..]), 2
    {
      calls := calls + [i];
      ghost var p0 := Snapshot();
      CloseValid(p0, i);
      rc := LSP_ERR_NONE;
      if slots[i].state != CONN_CLOSED { rc := Close(i); }
      assert (Snapshot(), rc) == ConnPool.Close(p0, i);
      if rc != LSP_ERR_NONE { return; }
      if slots[i].connType == CONN_SERVER { DrainChildren(i); }
      FinishValid(Snapshot(), i);
      Release(i);
    }

    /** One turn of its loop. */
    method FreeFirstChild(i: nat)
      requires i < slots.Length && Snapshot().Valid() && HasChild(Snapshot(), i)
      modifies this, slots
      ensures Snapshot().Valid() && Snapshot() == AfterChild(old(Snapshot()), i)
      decreases Total(slots[..]), 0
    {
      ghost var p := Snapshot();
      PoppedValid(p, i);
      var child := slots[i].children.q[0];
      slots[i] := slots[i].(children := Queued(slots[i].children.q[1..]));
      assert Snapshot() == Popped(p, i);
      var rc := Free(child);
    }

    method DrainChildren(i: nat)
      requires i < slots.Length && Snapshot().Valid() && slots[i].Server()
      modifies this, slots
      ensures Snapshot().Valid() && Snapshot() == Drain(old(Snapshot()), i)
      decreases Total(slots[..]), 1
    {
      if slots[i].children.Destroyed? { fault := true; return; }
      while !slots[i].children.Destroyed? && slots[i].children.q != []
        invariant Snapshot().Valid() && slots[i].Server()
        invariant Total(slots[..]) <= old(Total(slots[..]))
        invariant Drain(Snapshot(), i) == Drain(old(Snapshot()), i)
        decreases Total(slots[..])
      {
        OneTurn(Snapshot(), i);
        FreeFirstChild(i);
      }
      fault := fault || slots[i].children.Destroyed?;
    }
  }
}
