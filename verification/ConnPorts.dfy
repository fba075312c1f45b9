/** What freeing a connection does to the lists of listening sockets: lsp_conn_close
    takes every connection it finds open off its port's list (src/lsp_conn.c). */
module ConnPorts {
  import opened LspTypes
  import opened ConnPool
  import opened ConnDrain
  import opened ListenOrder

  // ---------------------------------------------------------------- who is unlinked

  function IsOpen(p: Pool, v: nat): nat {
    if v < |p.slots| && p.slots[v].state > CONN_CLOSED then 1 else 0
  }

  /** The times v was unlinked, and one more if it is still open: nobody is unlinked
      but on being closed, and nobody is opened. */
  function OpenCount(p: Pool, v: nat): nat {
    Occurs(p.unlinked, v) + IsOpen(p, v)
  }

  lemma CloseUnlinks(p: Pool, i: nat, v: nat)
    requires i < |p.slots|
    ensures OpenCount(ConnPool.Close(p, i).0, v) == OpenCount(p, v) && p.unlinked <= ConnPool.Close(p, i).0.unlinked
    ensures ConnPool.Close(p, i).0.slots[i].state <= CONN_CLOSED
  {
    OccursConcat(p.unlinked, [i], v);
  }

  lemma {:induction false} FreeUnlinks(p: Pool, i: nat, v: nat)
    requires p.Valid() && i < |p.slots|
    ensures OpenCount(Free(p, i).0, v) == OpenCount(p, v) && p.unlinked <= Free(p, i).0.unlinked
    decreases Total(p.slots), 1
  {
    var p0 := p.(calls := p.calls + [i]);
    var (p1, rc) := ConnPool.Close(p0, i);
    CloseValid(p0, i);
    CloseUnlinks(p0, i, v);
    if rc != LSP_ERR_NONE {
      assert Free(p, i).0 == p1;
    } else if p1.slots[i].Server() {
      var p2 := Drain(p1, i);
      DrainUnlinks(p1, i, v);
      DrainUnlinks(p1, i, i);
      StaysClosed(p1, p2, i);
      FinishUnlinks(p2, i, v);
      assert Free(p, i).0 == Finish(p2, i);
    } else {
      FinishUnlinks(p1, i, v);
      assert Free(p, i).0 == Finish(p1, i);
    }
  }

  lemma FinishUnlinks(p: Pool, i: nat, v: nat)
    requires i < |p.slots| && p.slots[i].state <= CONN_CLOSED
    ensures OpenCount(Finish(p, i), v) == OpenCount(p, v) && Finish(p, i).unlinked == p.unlinked
  {
  }

  lemma {:induction false} DrainUnlinks(p: Pool, i: nat, v: nat)
    requires p.Valid() && i < |p.slots| && p.slots[i].Server()
    ensures OpenCount(Drain(p, i), v) == OpenCount(p, v) && p.unlinked <= Drain(p, i).unlinked
    decreases Total(p.slots), 0
  {
    if HasChild(p, i) {
      OneTurn(p, i);
      PopUnlinksNobody(p, i, v);
      FreeUnlinks(Popped(p, i), FirstChild(p, i), v);
      DrainUnlinks(AfterChild(p, i), i, v);
    } else {
      assert p.slots[i].Valid(|p.slots|);
    }
  }

  lemma PopUnlinksNobody(p: Pool, i: nat, v: nat)
    requires HasChild(p, i)
    ensures OpenCount(Popped(p, i), v) == OpenCount(p, v) && Popped(p, i).unlinked == p.unlinked
  {
  }

  /** Nobody is opened. */
  lemma StaysClosed(p: Pool, q: Pool, i: nat)
    requires i < |p.slots| == |q.slots| && p.slots[i].state <= CONN_CLOSED
    requires OpenCount(q, i) == OpenCount(p, i) && p.unlinked <= q.unlinked
    ensures q.slots[i].state <= CONN_CLOSED
  {
    OccursTail(p.unlinked, q.unlinked, i);
  }

  /** The connections that one lsp_conn_free takes off their lists, in order. */
  function Unlinked(p: Pool, i: nat): seq<nat>
    requires p.Valid() && i < |p.slots|
  {
    FreeUnlinks(p, i, 0);
    Free(p, i).0.unlinked[|p.unlinked|..]
  }

  /** Exactly the open connections reached, each of them once. */
  lemma UnlinkedOnce(p: Pool, i: nat, v: nat)
    requires p.Valid() && p.Ready() && i < |p.slots|
    ensures Occurs(Unlinked(p, i), v) == if v in OpenReached(p, i) then 1 else 0
  {
    FreeUnlinks(p, i, v);
    OccursTail(p.unlinked, Free(p, i).0.unlinked, v);
    OpenAfter(p, i, v);
  }

  lemma OccursTail(xs: seq<nat>, ys: seq<nat>, v: nat)
    requires xs <= ys
    ensures Occurs(ys[|xs|..], v) == Occurs(ys, v) - Occurs(xs, v)
  {
    assert ys == xs + ys[|xs|..];
    OccursConcat(xs, ys[|xs|..], v);
  }

  lemma OpenAfter(p: Pool, i: nat, v: nat)
    requires p.Valid() && p.Ready() && i < |p.slots|
    ensures IsOpen(Free(p, i).0, v) == if v in OpenReached(p, i) then 0 else IsOpen(p, v)
  {
    if v < |p.slots| {
      if v in ReachSet(p, i) { EveryReachedIsFree(p, i, v); } else { OnlyReachedChange(p, i, v); }
    }
  }

  // ---------------------------------------------------------------- what that leaves of a port's list

  /** A socket's id is the number of its connection. */
  ghost predicate DifferentIds(xs: seq<Socket>) {
    forall a, b | 0 <= a < b < |xs| :: xs[a].id != xs[b].id
  }

  function Staying(xs: seq<Socket>, gone: set<nat>): seq<Socket> {
    if xs == [] then [] else (if xs[0].id in gone then [] else [xs[0]]) + Staying(xs[1..], gone)
  }

  function OnThisPort(xs: seq<Socket>, id: nat): Option<Socket> {
    if xs == [] then None else if xs[0].id == id then Some(xs[0]) else OnThisPort(xs[1..], id)
  }

  /** The closes that a port's list sees of a sequence of unlinkings. */
  function Closes(xs: seq<Socket>, us: seq<nat>): seq<Event> {
    if us == [] then []
    else
      var x := OnThisPort(xs, us[|us| - 1]);
      Closes(xs, us[..|us| - 1]) + (if x.Some? then [Event.Close(x.value)] else [])
  }

  function Elements(us: seq<nat>): set<nat> { set u | u in us }

  lemma {:induction false} OnThisPortRight(xs: seq<Socket>, id: nat)
    ensures var x := OnThisPort(xs, id);
            if x.Some? then x.value.id == id else forall a | 0 <= a < |xs| :: xs[a].id != id
  {
    if xs != [] { OnThisPortRight(xs[1..], id); }
  }

  /** Taking out one socket more. */
  lemma {:induction false} StayingLess(xs: seq<Socket>, gone: set<nat>, id: nat)
    requires DifferentIds(xs)
    ensures var x := OnThisPort(xs, id);
            Staying(xs, gone + {id}) == if x.Some? then Without(Staying(xs, gone), x.value) else Staying(xs, gone)
  {
    if xs != [] {
      var rest := xs[1..];
      assert forall a | 0 <= a < |rest| :: rest[a] == xs[a + 1];
      if xs[0].id == id {
        StayingSame(rest, gone, id);
        WithoutAbsent(Staying(rest, gone), xs[0]);
        WithoutHead(xs[0], Staying(rest, gone));
      } else {
        StayingLess(rest, gone, id);
        OnThisPortRight(rest, id);
        if OnThisPort(rest, id).Some? { WithoutNotHead(xs[0], Staying(rest, gone), OnThisPort(rest, id).value); }
      }
    }
  }

  lemma WithoutHead(x: Socket, xs: seq<Socket>)
    ensures Without([x] + xs, x) == Without(xs, x) && [] + xs == xs
  {
    assert ([x] + xs)[1..] == xs;
  }

  lemma WithoutNotHead(x: Socket, xs: seq<Socket>, y: Socket)
    requires x != y
    ensures Without([x] + xs, y) == [x] + Without(xs, y) && [] + xs == xs
  {
    assert ([x] + xs)[1..] == xs;
  }

  lemma {:induction false} StayingSame(xs: seq<Socket>, gone: set<nat>, id: nat)
    requires forall a | 0 <= a < |xs| :: xs[a].id != id
    ensures Staying(xs, gone + {id}) == Staying(xs, gone)
    ensures forall y | y in Staying(xs, gone) :: y.id != id
  {
    if xs != [] {
      assert forall a | 0 <= a < |xs[1..]| :: xs[1..][a] == xs[a + 1];
      StayingSame(xs[1..], gone, id);
    }
  }

  lemma {:induction false} StayingAll(xs: seq<Socket>)
    ensures Staying(xs, {}) == xs
  {
    if xs != [] { StayingAll(xs[1..]); }
  }

  lemma OneMoreClose(es: seq<Event>, x: Socket)
    ensures ListAfter(es + [Event.Close(x)]) == Without(ListAfter(es), x)
  {
    assert (es + [Event.Close(x)])[..|es|] == es;
  }

  lemma {:induction false} ClosesTakeOff(es: seq<Event>, xs: seq<Socket>, us: seq<nat>)
    requires xs == ListAfter(es) && DifferentIds(xs)
    ensures ListAfter(es + Closes(xs, us)) == Staying(xs, Elements(us))
  {
    if us == [] {
      assert es + Closes(xs, us) == es;
      assert Elements(us) == {};
      StayingAll(xs);
    } else {
      var before, id := us[..|us| - 1], us[|us| - 1];
      ClosesTakeOff(es, xs, before);
      StayingLess(xs, Elements(before), id);
      assert Elements(us) == Elements(before) + {id} by { assert us == before + [id]; }
      var all, x := es + Closes(xs, before), OnThisPort(xs, id);
      if x.Some? {
        OneMoreClose(all, x.value);
        assert es + Closes(xs, us) == all + [Event.Close(x.value)];
      } else {
        assert es + Closes(xs, us) == all;
      }
    }
  }

  /** A port's list after a history and one lsp_conn_free: the listeners that the free
      did not reach, or that were not open, in the order they had. */
  lemma FreeTakesOffTheReached(p: Pool, i: nat, es: seq<Event>)
    requires p.Valid() && p.Ready() && i < |p.slots| && DifferentIds(ListAfter(es))
    ensures ListAfter(es + Closes(ListAfter(es), Unlinked(p, i))) == Staying(ListAfter(es), OpenReached(p, i))
  {
    ClosesTakeOff(es, ListAfter(es), Unlinked(p, i));
    SameElements(p, i);
  }

  lemma SameElements(p: Pool, i: nat)
    requires p.Valid() && p.Ready() && i < |p.slots|
    ensures Elements(Unlinked(p, i)) == OpenReached(p, i)
  {
    forall v: nat ensures v in Elements(Unlinked(p, i)) <==> v in OpenReached(p, i) { UnlinkedOnce(p, i, v); }
  }

  // ---------------------------------------------------------------- is there a list to be taken off?

  ghost predicate OnSomeList(lists: seq<seq<Socket>>, gone: set<nat>, v: nat) {
    v !in gone && exists q, k :: 0 <= q < |lists| && 0 <= k < |lists[q]| && lists[q][k].id == v
  }

  /** Every unlinking finds its connection on a list, still, when its turn comes. */
  ghost predicate EachMeetsAList(us: seq<nat>, lists: seq<seq<Socket>>) {
    forall k | 0 <= k < |us| :: OnSomeList(lists, Elements(us[..k]), us[k])
  }

  lemma NeverTwice(us: seq<nat>, k: nat)
    requires k < |us| && Occurs(us, us[k]) <= 1
    ensures us[k] !in Elements(us[..k])
  {
    assert us == us[..k] + us[k..];
    assert us[k] in us[k..];
    OccursConcat(us[..k], us[k..], us[k]);
  }

  lemma EachMeetsIff(us: seq<nat>, lists: seq<seq<Socket>>)
    requires forall k | 0 <= k < |us| :: Occurs(us, us[k]) <= 1
    ensures EachMeetsAList(us, lists) <==> forall j | j in Elements(us) :: OnSomeList(lists, {}, j)
  {
    forall k | 0 <= k < |us| ensures OnSomeList(lists, Elements(us[..k]), us[k]) <==> OnSomeList(lists, {}, us[k]) {
      NeverTwice(us, k);
    }
    if EachMeetsAList(us, lists) {
      forall j | j in Elements(us) ensures OnSomeList(lists, {}, j) {
        var k :| 0 <= k < |us| && us[k] == j;
      }
    }
  }

  /** That is so iff every open connection reached listens: the source would follow
      the pointers of any other, which nobody ever set. */
  lemma UnlinksMeetListsIff(p: Pool, i: nat, lists: seq<seq<Socket>>)
    requires p.Valid() && p.Ready() && i < |p.slots|
    ensures EachMeetsAList(Unlinked(p, i), lists) <==> forall j | j in OpenReached(p, i) :: OnSomeList(lists, {}, j)
  {
    var us := Unlinked(p, i);
    SameElements(p, i);
    forall k | 0 <= k < |us| ensures Occurs(us, us[k]) <= 1 { UnlinkedOnce(p, i, us[k]); }
    EachMeetsIff(us, lists);
  }
}
