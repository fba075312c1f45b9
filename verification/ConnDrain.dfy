/** What one lsp_conn_free leaves behind, for any shape of child queues, cycles
    included (src/lsp_conn.c). A queue used after its destruction reads as empty and
    raises `fault`; SafeIff says which shapes never come to that. */
module ConnDrain {
  import opened LspTypes
  import opened ConnPool

  // ---------------------------------------------------------------- reachable connections

  /** A walk along child queues of servers. */
  ghost predicate Path(p: Pool, path: seq<nat>) {
    && path != []
    && (forall k | 0 <= k < |path| :: path[k] < |p.slots|)
    && forall k | 0 < k < |path| :: path[k] in p.slots[path[k - 1]].Pending()
  }

  ghost predicate Reaches(p: Pool, i: nat, j: nat) {
    exists path :: Path(p, path) && path[0] == i && path[|path| - 1] == j
  }

  ghost function ReachSet(p: Pool, i: nat): set<nat> {
    set j | 0 <= j < |p.slots| && Reaches(p, i, j)
  }

  ghost predicate Closed(p: Pool, c: set<nat>) {
    forall a, b | a in c && a < |p.slots| && b in p.slots[a].Pending() :: b in c
  }

  lemma ReachSetClosed(p: Pool, i: nat)
    requires p.Valid() && i < |p.slots|
    ensures i in ReachSet(p, i) && Closed(p, ReachSet(p, i))
  {
    assert Path(p, [i]) && [i][0] == i;
    assert Reaches(p, i, i);
    forall a, b | a in ReachSet(p, i) && b in p.slots[a].Pending() ensures b in ReachSet(p, i) {
      var path :| Path(p, path) && path[0] == i && path[|path| - 1] == a;
      var longer := path + [b];
      assert p.slots[a].Valid(|p.slots|);
      assert Path(p, longer) && longer[0] == i && longer[|longer| - 1] == b;
    }
  }

  lemma {:induction false} PathSettled(p: Pool, q: Pool, path: seq<nat>)
    requires Evolves(p, q) && Path(p, path) && q.slots[path[0]].Settled()
    ensures q.slots[path[|path| - 1]].Settled()
  {
    var n := |path| - 1;
    if 0 < n {
      assert Path(p, path[..n]) by {
        assert forall k | 0 <= k < n :: path[..n][k] == path[k];
      }
      PathSettled(p, q, path[..n]);
      assert SlotEvolves(p, q, path[n - 1]);
    }
  }

  /** Everything the queues lead to ends up free, with its own queue drained, and
      its receive queue empty if it was open. */
  lemma EveryReachedIsFree(p: Pool, i: nat, j: nat)
    requires p.Valid() && p.Ready() && i < |p.slots| && j in ReachSet(p, i)
    ensures var (q, rc) := Free(p, i);
            && rc == LSP_ERR_NONE && q.slots[j].Settled()
            && q.slots[j].rx == if p.slots[j].state > CONN_CLOSED then Some([]) else p.slots[j].rx
  {
    FreeSettles(p, i);
    var q := Free(p, i).0;
    var path :| Path(p, path) && path[0] == i && path[|path| - 1] == j;
    PathSettled(p, q, path);
    assert SlotEvolves(p, q, j);
  }

  lemma EvolvesClosed(p: Pool, q: Pool, c: set<nat>)
    requires Evolves(p, q) && Closed(p, c)
    ensures Closed(q, c)
  {
    forall a, b | a in c && a < |q.slots| && b in q.slots[a].Pending() ensures b in c {
      assert SlotEvolves(p, q, a);
      assert b in p.slots[a].Pending();
    }
  }

  ghost predicate SameOutside(p: Pool, q: Pool, c: set<nat>) {
    |q.slots| == |p.slots| && forall j | 0 <= j < |p.slots| && j !in c :: q.slots[j] == p.slots[j]
  }

  lemma {:induction false} FreeStaysInside(p: Pool, i: nat, c: set<nat>)
    requires p.Valid() && p.Ready() && i < |p.slots| && i in c && Closed(p, c)
    ensures SameOutside(p, Free(p, i).0, c)
    decreases Total(p.slots), 2
  {
    var p0 := p.(calls := p.calls + [i]);
    var p1 := Close(p0, i).0;
    CloseValid(p0, i);
    CloseEvolves(p, i);
    if p1.slots[i].Server() {
      EvolvesClosed(p, p1, c);
      DrainStaysInside(p1, i, c);
      assert Free(p, i).0 == Finish(Drain(p1, i), i);
    } else {
      assert Free(p, i).0 == Finish(p1, i);
    }
  }

  lemma PoppedClosed(p: Pool, i: nat, c: set<nat>)
    requires HasChild(p, i) && i in c && Closed(p, c)
    ensures Closed(Popped(p, i), c) && FirstChild(p, i) in c
  {
  }

  lemma {:induction false} TurnStaysInside(p: Pool, i: nat, c: set<nat>)
    requires p.Valid() && p.Ready() && HasChild(p, i) && i in c && Closed(p, c)
    ensures SameOutside(p, AfterChild(p, i), c) && Closed(AfterChild(p, i), c)
    decreases Total(p.slots), 0
  {
    OneTurn(p, i);
    PoppedClosed(p, i, c);
    FreeStaysInside(Popped(p, i), FirstChild(p, i), c);
    EvolvesClosed(Popped(p, i), AfterChild(p, i), c);
    PoppedStaysInside(p, i, AfterChild(p, i), c);
  }

  lemma PoppedStaysInside(p: Pool, i: nat, q: Pool, c: set<nat>)
    requires HasChild(p, i) && i in c && SameOutside(Popped(p, i), q, c)
    ensures SameOutside(p, q, c)
  {
  }

  lemma {:induction false} DrainStaysInside(p: Pool, i: nat, c: set<nat>)
    requires p.Valid() && p.Ready() && i < |p.slots| && p.slots[i].Server() && i in c && Closed(p, c)
    ensures SameOutside(p, Drain(p, i), c)
    decreases Total(p.slots), 1
  {
    if HasChild(p, i) {
      OneTurn(p, i);
      TurnStaysInside(p, i, c);
      DrainStaysInside(AfterChild(p, i), i, c);
      SameOutsideTrans(p, AfterChild(p, i), Drain(p, i), c);
    }
  }

  lemma SameOutsideTrans(p: Pool, q: Pool, r: Pool, c: set<nat>)
    requires SameOutside(p, q, c) && SameOutside(q, r, c)
    ensures SameOutside(p, r, c)
  {
  }

  /** And nothing else changes. */
  lemma OnlyReachedChange(p: Pool, i: nat, j: nat)
    requires p.Valid() && p.Ready() && i < |p.slots| && j < |p.slots| && j !in ReachSet(p, i)
    ensures Free(p, i).0.slots[j] == p.slots[j]
  {
    ReachSetClosed(p, i);
    FreeStaysInside(p, i, ReachSet(p, i));
  }

  // ---------------------------------------------------------------- counting buffers and entries

  function Occurs(xs: seq<nat>, v: nat): nat {
    multiset(xs)[v]
  }

  function Buffers(s: Slot): seq<nat> {
    if s.rx.Some? then s.rx.value else []
  }

  function Entries(s: Slot): seq<nat> {
    s.Pending()
  }

  lemma OccursConcat(xs: seq<nat>, ys: seq<nat>, v: nat)
    ensures Occurs(xs + ys, v) == Occurs(xs, v) + Occurs(ys, v)
  {
  }

  /** How often v occurs in what the slots in c hold. */
  function Tally(slots: seq<Slot>, c: set<nat>, held: Slot -> seq<nat>, v: nat): nat {
    if slots == [] then 0
    else
      Tally(slots[..|slots| - 1], c, held, v)
      + (if |slots| - 1 in c then Occurs(held(slots[|slots| - 1]), v) else 0)
  }

  ghost function Below(n: nat): (c: set<nat>)
    ensures forall j: nat :: j in c <==> j < n
  {
    if n == 0 then {} else Below(n - 1) + {n - 1}
  }

  lemma {:induction false} TallyUpdate(slots: seq<Slot>, c: set<nat>, held: Slot -> seq<nat>, v: nat, i: nat, s: Slot)
    requires i < |slots| && i in c
    ensures Tally(slots[i := s], c, held, v) == Tally(slots, c, held, v) - Occurs(held(slots[i]), v) + Occurs(held(s), v)
  {
    var n := |slots| - 1;
    if i == n {
      assert slots[i := s][..n] == slots[..n];
    } else {
      TallyUpdate(slots[..n], c, held, v, i, s);
      assert slots[i := s][..n] == slots[..n][i := s];
    }
  }

  /** A pool's account of v: buffers queued and freed, entries queued and called. */
  function BufferCount(p: Pool, c: set<nat>, v: nat): nat {
    Occurs(p.freed, v) + Tally(p.slots, c, Buffers, v)
  }

  function EntryCount(p: Pool, c: set<nat>, v: nat): nat {
    Occurs(p.calls, v) + Tally(p.slots, c, Entries, v)
  }

  lemma CloseConserves(p: Pool, i: nat, c: set<nat>, v: nat)
    requires i < |p.slots| && i in c
    ensures BufferCount(Close(p, i).0, c, v) == BufferCount(p, c, v)
    ensures EntryCount(Close(p, i).0, c, v) == EntryCount(p, c, v)
  {
    var q := Close(p, i).0;
    TallyUpdate(p.slots, c, Buffers, v, i, q.slots[i]);
    TallyUpdate(p.slots, c, Entries, v, i, q.slots[i]);
    OccursConcat(p.freed, Buffers(p.slots[i]), v);
    assert p.slots[i := p.slots[i]] == p.slots;
  }

  lemma FinishConserves(p: Pool, i: nat, c: set<nat>, v: nat)
    requires i < |p.slots| && i in c && (p.slots[i].Server() ==> p.slots[i].Pending() == [])
    ensures BufferCount(Finish(p, i), c, v) == BufferCount(p, c, v)
    ensures EntryCount(Finish(p, i), c, v) == EntryCount(p, c, v)
  {
    TallyUpdate(p.slots, c, Buffers, v, i, Finish(p, i).slots[i]);
    TallyUpdate(p.slots, c, Entries, v, i, Finish(p, i).slots[i]);
  }

  lemma PopTakesOne(p: Pool, i: nat, c: set<nat>, v: nat)
    requires HasChild(p, i) && i in c
    ensures BufferCount(Popped(p, i), c, v) == BufferCount(p, c, v)
    ensures EntryCount(Popped(p, i), c, v) == EntryCount(p, c, v) - (if v == FirstChild(p, i) then 1 else 0)
  {
    var s := Popped(p, i).slots[i];
    TallyUpdate(p.slots, c, Buffers, v, i, s);
    TallyUpdate(p.slots, c, Entries, v, i, s);
    assert Entries(p.slots[i]) == [FirstChild(p, i)] + Entries(s);
    OccursConcat([FirstChild(p, i)], Entries(s), v);
  }

  /** Free moves buffers from receive queues to lsp_buffer_free and entries from
      child queues to calls of lsp_conn_free, and loses none. */
  lemma {:induction false} FreeConserves(p: Pool, i: nat, c: set<nat>, v: nat)
    requires p.Valid() && i < |p.slots| && c == Below(|p.slots|)
    ensures BufferCount(Free(p, i).0, c, v) == BufferCount(p, c, v)
    ensures EntryCount(Free(p, i).0, c, v) == EntryCount(p, c, v) + (if v == i then 1 else 0)
    decreases Total(p.slots), 1
  {
    var p0 := p.(calls := p.calls + [i]);
    OccursConcat(p.calls, [i], v);
    var (p1, rc) := Close(p0, i);
    CloseValid(p0, i);
    CloseConserves(p0, i, c, v);
    if rc != LSP_ERR_NONE {
      assert Free(p, i).0 == p1;
    } else if p1.slots[i].Server() {
      DrainConserves(p1, i, c, v);
      FinishConserves(Drain(p1, i), i, c, v);
      assert Free(p, i).0 == Finish(Drain(p1, i), i);
    } else {
      FinishConserves(p1, i, c, v);
      assert Free(p, i).0 == Finish(p1, i);
    }
  }

  lemma {:induction false} DrainConserves(p: Pool, i: nat, c: set<nat>, v: nat)
    requires p.Valid() && i < |p.slots| && p.slots[i].Server() && c == Below(|p.slots|)
    ensures BufferCount(Drain(p, i), c, v) == BufferCount(p, c, v)
    ensures EntryCount(Drain(p, i), c, v) == EntryCount(p, c, v)
    decreases Total(p.slots), 0
  {
    if HasChild(p, i) {
      OneTurn(p, i);
      PopTakesOne(p, i, c, v);
      FreeConserves(Popped(p, i), FirstChild(p, i), c, v);
      DrainConserves(AfterChild(p, i), i, c, v);
    }
  }

  /** If the slots in r lose all they hold and the others keep it, the tally drops by r's part. */
  lemma {:induction false} TallySplits(a: seq<Slot>, b: seq<Slot>, c: set<nat>, r: set<nat>, held: Slot -> seq<nat>,
                                        v: nat)
    requires |a| == |b| && forall j | 0 <= j < |a| :: j in c
    requires forall j | 0 <= j < |a| :: held(b[j]) == if j in r then [] else held(a[j])
    ensures Tally(a, c, held, v) == Tally(b, c, held, v) + Tally(a, r, held, v)
  {
    if a != [] {
      TallySplits(a[..|a| - 1], b[..|b| - 1], c, r, held, v);
    }
  }

  ghost function OpenReached(p: Pool, i: nat): set<nat> {
    set j | 0 <= j < |p.slots| && j in ReachSet(p, i) && p.slots[j].state > CONN_CLOSED
  }

  lemma ReachedBuffers(p: Pool, i: nat, j: nat)
    requires p.Valid() && p.Ready() && i < |p.slots| && j < |p.slots|
    ensures Buffers(Free(p, i).0.slots[j]) == if j in OpenReached(p, i) then [] else Buffers(p.slots[j])
    ensures Entries(Free(p, i).0.slots[j]) == if j in ReachSet(p, i) then [] else Entries(p.slots[j])
  {
    if j in ReachSet(p, i) { EveryReachedIsFree(p, i, j); } else { OnlyReachedChange(p, i, j); }
  }

  /** Every buffer v is freed exactly as often as it sits in the receive queues of
      the open connections reached: once, if it is queued once. */
  lemma BuffersFreedOnce(p: Pool, i: nat, v: nat)
    requires p.Valid() && p.Ready() && i < |p.slots|
    ensures Occurs(Free(p, i).0.freed, v) == Occurs(p.freed, v) + Tally(p.slots, OpenReached(p, i), Buffers, v)
  {
    var q := Free(p, i).0;
    FreeConserves(p, i, Below(|p.slots|), v);
    forall j | 0 <= j < |p.slots|
      ensures Buffers(q.slots[j]) == if j in OpenReached(p, i) then [] else Buffers(p.slots[j])
    {
      ReachedBuffers(p, i, j);
    }
    TallySplits(p.slots, q.slots, Below(|p.slots|), OpenReached(p, i), Buffers, v);
  }

  /** lsp_conn_free is called on the root once, and once for every entry of every
      queue reached: that is the whole recursion. */
  lemma CallsAreEntries(p: Pool, i: nat, v: nat)
    requires p.Valid() && p.Ready() && i < |p.slots|
    ensures Occurs(Free(p, i).0.calls, v) ==
              Occurs(p.calls, v) + (if v == i then 1 else 0) + Tally(p.slots, ReachSet(p, i), Entries, v)
  {
    var q := Free(p, i).0;
    FreeConserves(p, i, Below(|p.slots|), v);
    forall j | 0 <= j < |p.slots|
      ensures Entries(q.slots[j]) == if j in ReachSet(p, i) then [] else Entries(p.slots[j])
    {
      ReachedBuffers(p, i, j);
    }
    TallySplits(p.slots, q.slots, Below(|p.slots|), ReachSet(p, i), Entries, v);
  }

  // ---------------------------------------------------------------- queues used after they are gone

  predicate Gone(p: Pool, j: nat)
    requires j < |p.slots|
  {
    p.slots[j].Server() && p.slots[j].children.Destroyed?
  }

  /** n calls trip over server j: its queue was gone to begin with, or the first of
      two calls destroys it under the other. */
  predicate Trips(p: Pool, j: nat, n: int)
    requires j < |p.slots|
  {
    p.slots[j].Server() && (n >= 2 || (Gone(p, j) && n >= 1))
  }

  /** The calls on j between p and q. */
  function Calls(p: Pool, q: Pool, j: nat): int {
    Occurs(q.calls, j) - Occurs(p.calls, j)
  }

  function Is(i: int, j: nat): int {
    if i == j then 1 else 0
  }

  /** From p to q the fault flag rose iff some server was tripped over, counting the
      call on `active` (if it is a slot) that was already under way; and exactly the
      servers called upon lost their queues. */
  ghost predicate FaultsLike(p: Pool, q: Pool, active: int) {
    && |q.slots| == |p.slots|
    && (forall j | 0 <= j < |p.slots| :: SlotFaults(p, q, j))
    && (q.fault <==> p.fault || exists j :: 0 <= j < |p.slots| && Trips(p, j, Calls(p, q, j) + Is(active, j)))
  }

  ghost predicate SlotFaults(p: Pool, q: Pool, j: nat)
    requires |q.slots| == |p.slots| && j < |p.slots|
  {
    && q.slots[j].Server() == p.slots[j].Server() && Calls(p, q, j) >= 0
    && (Gone(q, j) <==> Gone(p, j) || (p.slots[j].Server() && Calls(p, q, j) >= 1))
  }

  /** Two stretches in a row, with a call under way only in the second. */
  lemma FaultsCompose(p: Pool, m: Pool, q: Pool, active: int)
    requires FaultsLike(p, m, -1) && FaultsLike(m, q, active)
    ensures FaultsLike(p, q, active)
  {
    forall j | 0 <= j < |p.slots|
      ensures SlotFaults(p, q, j)
      ensures Trips(p, j, Calls(p, q, j) + Is(active, j)) <==>
                Trips(p, j, Calls(p, m, j) + Is(-1, j)) || Trips(m, j, Calls(m, q, j) + Is(active, j))
    {
      assert SlotFaults(p, m, j) && SlotFaults(m, q, j);
    }
  }

  /** The call itself: from under way to over. */
  lemma FaultsFinish(p: Pool, p1: Pool, p2: Pool, i: nat)
    requires i < |p.slots| && p1 == Close(p.(calls := p.calls + [i]), i).0
    requires if p.slots[i].Server() then FaultsLike(p1, p2, i) else p2 == p1
    ensures FaultsLike(p, Finish(p2, i), -1)
  {
    var q := Finish(p2, i);
    forall j | 0 <= j < |p.slots|
      ensures SlotFaults(p, q, j)
      ensures p.slots[i].Server() ==>
                (Trips(p, j, Calls(p, q, j) + Is(-1, j)) <==> Trips(p1, j, Calls(p1, p2, j) + Is(i, j)))
      ensures !p.slots[i].Server() ==> !Trips(p, j, Calls(p, q, j) + Is(-1, j))
    {
      CalledOnce(p, p1, i, j);
      if p.slots[i].Server() { ServerFinish(p, p1, p2, i, j); } else { PlainFinish(p, p1, i, j); }
    }
  }

  lemma CalledOnce(p: Pool, p1: Pool, i: nat, j: nat)
    requires i < |p.slots| && j < |p.slots| && p1 == Close(p.(calls := p.calls + [i]), i).0
    ensures |p1.slots| == |p.slots| && Calls(p, p1, j) == Is(i, j) && Gone(p1, j) == Gone(p, j)
    ensures p1.slots[j].Server() == p.slots[j].Server() && p1.fault == p.fault
  {
    OccursConcat(p.calls, [i], j);
  }

  lemma ServerFinish(p: Pool, p1: Pool, p2: Pool, i: nat, j: nat)
    requires |p1.slots| == |p.slots| == |p2.slots| && i < |p.slots| && j < |p.slots| && p.slots[i].Server()
    requires Calls(p, p1, j) == Is(i, j) && Gone(p1, j) == Gone(p, j) && p1.slots[j].Server() == p.slots[j].Server()
    requires SlotFaults(p1, p2, j)
    ensures SlotFaults(p, Finish(p2, i), j)
    ensures Trips(p, j, Calls(p, Finish(p2, i), j) + Is(-1, j)) <==> Trips(p1, j, Calls(p1, p2, j) + Is(i, j))
  {
  }

  lemma PlainFinish(p: Pool, p1: Pool, i: nat, j: nat)
    requires |p1.slots| == |p.slots| && i < |p.slots| && j < |p.slots| && !p.slots[i].Server() && !p1.slots[i].Server()
    requires Calls(p, p1, j) == Is(i, j) && Gone(p1, j) == Gone(p, j) && p1.slots[j].Server() == p.slots[j].Server()
    ensures SlotFaults(p, Finish(p1, i), j) && !Trips(p, j, Calls(p, Finish(p1, i), j) + Is(-1, j))
  {
  }

  lemma {:induction false} FreeFaults(p: Pool, i: nat)
    requires p.Valid() && p.Ready() && i < |p.slots|
    ensures FaultsLike(p, Free(p, i).0, -1)
    decreases Total(p.slots), 1
  {
    var p0 := p.(calls := p.calls + [i]);
    var p1 := Close(p0, i).0;
    CloseValid(p0, i);
    CloseEvolves(p, i);
    if p1.slots[i].Server() {
      DrainFaults(p1, i);
      FaultsFinish(p, p1, Drain(p1, i), i);
      assert Free(p, i).0 == Finish(Drain(p1, i), i);
    } else {
      FaultsFinish(p, p1, p1, i);
      assert Free(p, i).0 == Finish(p1, i);
    }
  }

  lemma {:induction false} DrainFaults(p: Pool, i: nat)
    requires p.Valid() && p.Ready() && i < |p.slots| && p.slots[i].Server()
    ensures FaultsLike(p, Drain(p, i), i)
    decreases Total(p.slots), 0
  {
    if HasChild(p, i) {
      OneTurn(p, i);
      var m := AfterChild(p, i);
      FreeFaults(Popped(p, i), FirstChild(p, i));
      PoppingTripsNobody(p, i, m);
      DrainFaults(m, i);
      FaultsCompose(p, m, Drain(m, i), i);
    } else {
      LastPop(p, i);
    }
  }

  lemma PoppingTripsNobody(p: Pool, i: nat, m: Pool)
    requires HasChild(p, i) && FaultsLike(Popped(p, i), m, -1)
    ensures FaultsLike(p, m, -1)
  {
    var p1 := Popped(p, i);
    forall j | 0 <= j < |p.slots|
      ensures SlotFaults(p, m, j)
      ensures Trips(p, j, Calls(p, m, j) + Is(-1, j)) <==> Trips(p1, j, Calls(p1, m, j) + Is(-1, j))
    {
      assert SlotFaults(p1, m, j);
    }
  }

  /** The pop that finds the queue empty, or gone. */
  lemma LastPop(p: Pool, i: nat)
    requires p.Valid() && i < |p.slots| && p.slots[i].Server() && !HasChild(p, i)
    ensures FaultsLike(p, Drain(p, i), i)
  {
    assert p.slots[i].Valid(|p.slots|);
    var q := Drain(p, i);
    forall j | 0 <= j < |p.slots|
      ensures SlotFaults(p, q, j)
      ensures Trips(p, j, Calls(p, q, j) + Is(i, j)) <==> j == i && Gone(p, i)
    {
    }
    if Gone(p, i) { assert Trips(p, i, Calls(p, q, i) + Is(i, i)); }
  }

  /** How often lsp_conn_free will be called on j, counted before the call: the root,
      and every entry queued at a connection reached. */
  ghost function Uses(p: Pool, i: nat, j: nat): int {
    Is(i, j) + Tally(p.slots, ReachSet(p, i), Entries, j)
  }

  /** Freeing connection i uses no queue after its destruction iff no server turns
      up twice among the root and the entries reached, and none whose queue is gone
      already turns up at all. */
  lemma SafeIff(p: Pool, i: nat)
    requires p.Valid() && p.Ready() && i < |p.slots| && !p.fault
    ensures !Free(p, i).0.fault <==>
              forall j | 0 <= j < |p.slots| && p.slots[j].Server() :: Uses(p, i, j) + (if Gone(p, j) then 1 else 0) <= 1
  {
    var q := Free(p, i).0;
    FreeFaults(p, i);
    forall j | 0 <= j < |p.slots|
      ensures Trips(p, j, Calls(p, q, j) + Is(-1, j)) <==>
                p.slots[j].Server() && Uses(p, i, j) + (if Gone(p, j) then 1 else 0) >= 2
    {
      CallsAreEntries(p, i, j);
    }
  }
}
