/** The routing table on the heap: one intrusive list of routes (src/lsp_routing.c). */
module RouteTable {
  import opened LspTypes
  import opened IntrusiveList
  import opened RouteOrder

  class Table {
    const rtable: Node<Route>
    ghost var nodes: seq<Node<Route>>

    ghost predicate Valid()
      reads this, rtable, nodes
    {
      IsList(rtable, nodes)
    }

    ghost function Routes(): seq<Route>
      reads this, nodes
    {
      Payloads(nodes)
    }

    /** LSP_LIST_HEAD_INIT */
    constructor ()
      ensures Valid() && Routes() == [] && fresh(rtable)
    {
      rtable := new Node(Route(0, 0, 0));
      nodes := [];
      new;
      rtable.HeadInit();
    }

    /** The scan that add and find share. */
    method Scan(addr: nat, asWritten: bool) returns (route: Node?<Route>, ghost k: nat)
      requires Valid()
      ensures k == FirstFor(Seen(Routes(), asWritten), addr)
      ensures if k < |Seen(Routes(), asWritten)| then k < |nodes| && route == nodes[k] else route == null
    {
      EmptyAsWrittenIff(rtable, nodes);
      assert Linked(rtable, nodes, -1);
      ghost var seen := Seen(Routes(), asWritten);
      route := if StartsTraversal(rtable, asWritten) then rtable.next else null;
      k := 0;
      while route != null
        invariant k <= |seen| <= |nodes| && seen == Routes()[..|seen|]
        invariant if route == null then k == |seen| else k < |seen| && |seen| == |nodes| && route == At(rtable, nodes, k)
        invariant forall j | 0 <= j < k :: seen[j].addr != addr
        decreases |seen| - k, route != null
      {
        if route.payload.addr == addr { break; }
        assert Linked(rtable, nodes, k);
        route := if route.next != rtable then route.next else null;
        k := k + 1;
      }
      FirstForUnique(seen, addr, k);
    }

    /** lsp_route_add */
    method Add(o: Offer, memOk: bool, asWritten: bool, junk: nat) returns (rc: int)
      requires Valid()
      modifies this`nodes, rtable`next, rtable`prev, nodes
      ensures Valid()
      ensures fresh(set x | x in nodes && x !in old(nodes))
      ensures var missing := FirstFor(Seen(old(Routes()), asWritten), o.addr) == |Seen(old(Routes()), asWritten)|;
              if missing && !memOk then rc == LSP_ERR_NOMEM && Routes() == old(Routes())
              else rc == LSP_ERR_NONE && Routes() == Added(old(Routes()), o, asWritten, junk)
    {
      var route, k := Scan(o.addr, asWritten);
      if route == null {
        if !memOk { return LSP_ERR_NOMEM; }
        var added := new Node(RouteOf(o).(linkspeed := if asWritten then junk else AsU32(o.linkspeed)));
        LinkFront(added);
      } else {
        if AsU32(o.linkspeed) < route.payload.linkspeed {
          route.payload := route.payload.(iface := o.iface, linkspeed := AsU32(o.linkspeed));
          assert forall i | -1 <= i < |nodes| && old(Linked(rtable, nodes, i)) :: Linked(rtable, nodes, i);
          assert Routes() == Added(old(Routes()), o, asWritten, junk);
        }
      }
      rc := LSP_ERR_NONE;
    }

    method LinkFront(n: Node<Route>)
      requires Valid() && n != rtable && n !in nodes
      modifies this`nodes, n`next, n`prev, rtable`next, rtable`prev, nodes`next, nodes`prev
      ensures Valid() && nodes == [n] + old(nodes) && Routes() == [n.payload] + old(Routes())
    {
      AtInRing(rtable, nodes);
      IntrusiveList.Add(n, rtable, nodes);
      nodes := [n] + nodes;
    }

    /** lsp_route_find */
    method Find(addr: nat, asWritten: bool) returns (iface: Option<int>)
      requires Valid()
      ensures iface == Found(Routes(), addr, asWritten)
    {
      var route, k := Scan(addr, asWritten);
      iface := if route != null then Some(route.payload.iface) else None;
    }
  
    /** The table after any sequence of adds to an empty one, with memory to spare. */
    method AddAll(offers: seq<Offer>)
      requires Valid() && Routes() == []
      modifies this`nodes, rtable`next, rtable`prev
      ensures Valid() && Routes() == RoutesAfter(offers)
    {
      assert nodes == [];
      for i := 0 to |offers|
        invariant Valid() && Routes() == RoutesAfter(offers[..i])
        invariant fresh(set x | x in nodes)
      {
        var rc := Add(offers[i], true, false, 0);
        assert offers[..i + 1][..i] == offers[..i];
      }
      assert offers[..|offers|] == offers;
    }

    /** lsp_route_find after any sequence of adds: the interface of the first of the
        best offers for the address, or none if nobody offered a route. */
    method FindAfter(offers: seq<Offer>, addr: nat) returns (iface: Option<int>, ghost best: nat)
      requires Valid() && Routes() == []
      modifies this`nodes, rtable`next, rtable`prev
      ensures if iface.None? then forall j | 0 <= j < |offers| :: offers[j].addr != addr
              else Wins(offers, addr, best) && iface.value == offers[best].iface
    {
      AddAll(offers);
      best := BestOfferWins(offers, addr);
      iface := Find(addr, false);
    }
  }
}
