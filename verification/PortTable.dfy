/** The port table: one intrusive list of listening sockets per port (src/lsp_port.c). */
module PortTable {
  import opened LspTypes
  import opened IntrusiveList
  import opened ListenOrder

  lemma PlacedPayloads(s: seq<Node<Socket>>, at: Option<nat>, sock: Node<Socket>)
    requires at.Some? ==> at.value <= |s|
    ensures Payloads(Placed(s, at, sock)) == Placed(Payloads(s), at, sock.payload)
  {
  }

  lemma PlacedMembers(s: seq<Node<Socket>>, at: nat, sock: Node<Socket>)
    requires at <= |s|
    ensures forall x :: x in Placed(s, Some(at), sock) <==> x in s || x == sock
  {
    assert s == s[..at] + s[at..];
  }

  /** FirstLower is the only place with its two properties. */
  lemma FirstLowerUnique(xs: seq<Socket>, priority: nat, k: nat)
    requires k <= |xs| && forall i | 0 <= i < k :: xs[i].priority >= priority
    requires k < |xs| ==> xs[k].priority < priority
    ensures FirstLower(xs, priority) == k
  {
  }

  /** The search of lsp_listen: the first listener with a strictly lower priority. */
  method FindLower(priority: nat, head: Node<Socket>, ghost s: seq<Node<Socket>>)
    returns (ptr: Node?<Socket>, ghost k: nat)
    requires IsList(head, s) && s != []
    ensures k == FirstLower(Payloads(s), priority)
    ensures if k < |s| then ptr == s[k] else ptr == null
  {
    ghost var xs := Payloads(s);
    assert Linked(head, s, -1);
    ptr, k := head.next, 0;
    while ptr != null
      invariant k <= |s|
      invariant if ptr == null then k == |s| else k < |s| && ptr == s[k]
      invariant forall j | 0 <= j < k :: xs[j].priority >= priority
      decreases |s| - k, ptr != null
    {
      if ptr.payload.priority < priority { break; }
      assert Linked(head, s, k);
      ptr := if ptr.next != head then ptr.next else null;
      k := k + 1;
    }
    FirstLowerUnique(xs, priority, k);
  }

  /** The linking half of lsp_listen, on the list of the socket's port. */
  method LinkByPriority(sock: Node<Socket>, head: Node<Socket>, asWritten: bool, ghost s: seq<Node<Socket>>)
    requires IsList(head, s) && sock !in Ring(head, s)
    modifies sock`next, sock`prev, Ring(head, s)`next, Ring(head, s)`prev
    ensures Payloads(s) == old(Payloads(s))
    ensures IsList(head, Placed(s, Where(old(Payloads(s)), sock.payload, asWritten), sock))
  {
    EmptyAsWrittenIff(head, s);
    AtInRing(head, s);
    if !StartsTraversal(head, asWritten) {
      Add(sock, head, s);
      assert [sock] + s == Placed(s, Some(0), sock);
    } else {
      var ptr, k := FindLower(sock.payload.priority, head, s);
      if ptr != null {
        InsertBefore(sock, ptr, head, s, k);
        assert Inserted(s, k, sock) == Placed(s, Some(k), sock);
      } else if !asWritten {
        AddTail(sock, head, s);
        assert s + [sock] == Placed(s, Some(|s|), sock);
      }
    }
  }

  /** Every node of this ring is booked under port p. */
  ghost predicate Owns(portOf: map<Node<Socket>, nat>, head: Node<Socket>, s: seq<Node<Socket>>, p: nat) {
    && head in portOf && portOf[head] == p
    && forall x | x in s :: x in portOf && portOf[x] == p
  }

  ghost predicate Booked(portOf: map<Node<Socket>, nat>, heads: seq<Node<Socket>>, lists: seq<seq<Node<Socket>>>) {
    |heads| == |lists| && forall p: nat | p < |heads| :: Owns(portOf, heads[p], lists[p], p)
  }

  lemma BookedMore(portOf: map<Node<Socket>, nat>, heads: seq<Node<Socket>>, lists: seq<seq<Node<Socket>>>,
                   sock: Node<Socket>, port: nat, at: Option<nat>)
    requires Booked(portOf, heads, lists) && sock !in portOf && port < |heads|
    requires at.Some? ==> at.value <= |lists[port]|
    ensures Booked(portOf[sock := port], heads, lists[port := Placed(lists[port], at, sock)])
  {
  }

  lemma BookedLess(portOf: map<Node<Socket>, nat>, heads: seq<Node<Socket>>, lists: seq<seq<Node<Socket>>>,
                   sock: Node<Socket>, port: nat, k: nat)
    requires Booked(portOf, heads, lists) && port < |heads| && k < |lists[port]| && lists[port][k] == sock
    requires Distinct(lists[port]) && heads[port] !in lists[port]
    ensures Booked(portOf - {sock}, heads, lists[port := Removed(lists[port], k)])
  {
  }

  /** PORT_CLOSED and PORT_OPEN. */
  datatype PortState = Closed | Open

  class Ports {
    const states: array<PortState>
    const heads: seq<Node<Socket>>
    ghost var lists: seq<seq<Node<Socket>>>

    ghost var portOf: map<Node<Socket>, nat>  // the port whose ring a node is in

    /** One ring per port, no node in two of them. One extra port stands for "any". */
    ghost predicate Valid()
      reads this, portOf.Keys
    {
      && |heads| == states.Length == LSP_PACKET_PORT_MAX + 2
      && Booked(portOf, heads, lists)
      && forall p: nat | p < |heads| :: PortValid(p)
    }

    ghost predicate PortValid(p: nat)
      requires Booked(portOf, heads, lists) && p < |heads|
      reads this, portOf.Keys
    {
      assert Owns(portOf, heads[p], lists[p], p);
      IsList(heads[p], lists[p])
    }

    /** lsp_port_init */
    constructor ()
      ensures Valid() && fresh(states) && fresh(heads)
      ensures forall p | 0 <= p < |lists| :: lists[p] == [] && states[p] == Closed
    {
      var blank := Socket(0, 0, 0, 0, 0, None);
      var hs: seq<Node<Socket>> := [];
      ghost var ports: map<Node<Socket>, nat> := map[];
      var ss := new PortState[LSP_PACKET_PORT_MAX + 2](_ => Closed);
      while |hs| < LSP_PACKET_PORT_MAX + 2
        invariant |hs| <= LSP_PACKET_PORT_MAX + 2 && Distinct(hs)
        invariant forall i | 0 <= i < |hs| :: hs[i] in ports && ports[hs[i]] == i
        invariant forall p | 0 <= p < ss.Length :: ss[p] == Closed
        invariant forall i | 0 <= i < |hs| :: fresh(hs[i]) && hs[i].next == hs[i] && hs[i].prev == hs[i]
      {
        var h := new Node(blank);
        h.HeadInit();
        assert Linked(h, [], -1);
        ports := ports[h := |hs|];
        hs := hs + [h];
      }
      states := ss;
      heads := hs;
      lists := seq(LSP_PACKET_PORT_MAX + 2, _ => []);
      portOf := ports;
      new;
      forall p: nat | p < |heads| ensures Owns(portOf, heads[p], lists[p], p) {}
      forall p: nat | p < |heads| ensures PortValid(p) { assert Linked(heads[p], [], -1); }
    }
  
    lemma RingOwned(p: nat)
      requires Booked(portOf, heads, lists) && p < |heads|
      ensures forall x | x in Ring(heads[p], lists[p]) :: x in portOf && portOf[x] == p
      ensures forall i :: At(heads[p], lists[p], i) in portOf && portOf[At(heads[p], lists[p], i)] == p
    {
    }

    /** The pointer work: the ring of one port grows, the rings of all others stay. */
    method LinkRing(sock: Node<Socket>, port: nat, asWritten: bool, ghost at: Option<nat>)
      requires Valid() && sock !in portOf && port < |heads|
      requires at == Where(Payloads(lists[port]), sock.payload, asWritten)
      modifies sock`next, sock`prev, Ring(heads[port], lists[port])`next, Ring(heads[port], lists[port])`prev
      ensures IsList(heads[port], Placed(lists[port], at, sock)) && Payloads(lists[port]) == old(Payloads(lists[port]))
      ensures forall q: nat | q < |heads| && q != port :: IsList(heads[q], lists[q])
    {
      forall q: nat | q < |heads|
        ensures forall i :: At(heads[q], lists[q], i) in portOf && portOf[At(heads[q], lists[q], i)] == q
      {
        RingOwned(q);
      }
      RingOwned(port);
      assert PortValid(port);
      LinkByPriority(sock, heads[port], asWritten, lists[port]);
      forall q: nat | q < |heads| && q != port ensures IsList(heads[q], lists[q]) {
        assert old(PortValid(q));
        forall i | -1 <= i < |lists[q]| ensures Linked(heads[q], lists[q], i) {
          assert old(Linked(heads[q], lists[q], i));
        }
      }
    }

    method LinkInPort(sock: Node<Socket>, port: nat, asWritten: bool)
      requires Valid() && sock !in portOf && port < |heads|
      modifies this`lists, this`portOf, sock`next, sock`prev
      modifies Ring(heads[port], lists[port])`next, Ring(heads[port], lists[port])`prev
      ensures Valid() && portOf == old(portOf)[sock := port]
      ensures Payloads(lists[port]) == Listened(old(Payloads(lists[port])), sock.payload, asWritten)
      ensures lists == old(lists)[port :=
                Placed(old(lists[port]), Where(old(Payloads(lists[port])), sock.payload, asWritten), sock)]
    {
      ghost var at := Where(Payloads(lists[port]), sock.payload, asWritten);
      LinkRing(sock, port, asWritten, at);
      PlacedPayloads(lists[port], at, sock);
      Book(sock, port, at);
    }

    /** The books follow the pointers. */
    ghost method Book(sock: Node<Socket>, port: nat, at: Option<nat>)
      requires |heads| == states.Length == LSP_PACKET_PORT_MAX + 2 && Booked(portOf, heads, lists)
      requires sock !in portOf && port < |heads| && (at.Some? ==> at.value <= |lists[port]|)
      requires IsList(heads[port], Placed(lists[port], at, sock))
      requires forall q: nat | q < |heads| && q != port :: IsList(heads[q], lists[q])
      modifies this`lists, this`portOf
      ensures Valid() && portOf == old(portOf)[sock := port]
      ensures lists == old(lists)[port := Placed(old(lists[port]), at, sock)]
    {
      BookedMore(portOf, heads, lists, sock, port, at);
      lists, portOf := lists[port := Placed(lists[port], at, sock)], portOf[sock := port];
    }

    /** What lsp_listen makes of the socket's own fields. As written CONN_LISTEN goes
        into the type and the state stays. */
    static function Claimed(x: Socket, backlog: Option<int>, asWritten: bool): Socket {
      if asWritten then x.(connType := CONN_LISTEN, backlog := backlog)
      else x.(connType := CONN_SERVER, connState := CONN_LISTEN, backlog := backlog)
    }

    static method Claim(sock: Node<Socket>, backlog: Option<int>, asWritten: bool)
      modifies sock`payload
      ensures sock.payload == Claimed(old(sock.payload), backlog, asWritten)
    {
      sock.payload := sock.payload.(connType := CONN_SERVER);
      if asWritten {
        sock.payload := sock.payload.(connType := CONN_LISTEN);
      } else {
        sock.payload := sock.payload.(connState := CONN_LISTEN);
      }
      sock.payload := sock.payload.(backlog := backlog);
    }

    /** lsp_listen. As written it also puts CONN_LISTEN into the type instead of the state. */
    method Listen(sock: Node<Socket>, backlog: int, memOk: bool, asWritten: bool) returns (rc: int)
      requires Valid() && sock !in portOf
      modifies this`lists, this`portOf, states, sock`next, sock`prev, sock`payload, portOf.Keys`next, portOf.Keys`prev
      ensures Valid()
      ensures var port := old(sock.payload.lport);
              if port > LSP_PACKET_PORT_MAX then
                rc == LSP_ERR_INVALID && lists == old(lists) && sock.payload == old(sock.payload)
              else if !memOk then
                rc == LSP_ERR_NOMEM && lists == old(lists)
              else
                && rc == LSP_ERR_NONE && states[port] == Open
                && lists == old(lists)[port :=
                     Placed(old(lists[port]), Where(old(Payloads(lists[port])), sock.payload, asWritten), sock)]
                && Payloads(lists[port]) == Listened(old(Payloads(lists[port])), sock.payload, asWritten)
      ensures sock.payload.id == old(sock.payload.id) && sock.payload.priority == old(sock.payload.priority)
      ensures sock.payload.lport == old(sock.payload.lport)
      ensures rc != LSP_ERR_INVALID ==>
                && sock.payload.backlog == (if memOk then Some(backlog) else None)
                && (if asWritten then
                      sock.payload.connType == CONN_LISTEN && sock.payload.connState == old(sock.payload.connState)
                    else sock.payload.connType == CONN_SERVER && sock.payload.connState == CONN_LISTEN)
      ensures portOf == if rc == LSP_ERR_NONE then old(portOf)[sock := old(sock.payload.lport)] else old(portOf)
      ensures forall p | 0 <= p < |heads| && (p != old(sock.payload.lport) || rc != LSP_ERR_NONE) ::
                states[p] == old(states[p])
    {
      var port := sock.payload.lport;
      if port < |heads| { RingOwned(port); }
      if port > LSP_PACKET_PORT_MAX { return LSP_ERR_INVALID; }
      Claim(sock, if memOk then Some(backlog) else None, asWritten);
      if !memOk { return LSP_ERR_NOMEM; }
      LinkInPort(sock, port, asWritten);
      states[port] := Open;
      rc := LSP_ERR_NONE;
    }

    /** The pointer work of closing a listener. */
    method UnlinkRing(sock: Node<Socket>, ghost port: nat, ghost k: nat)
      requires Valid() && port < |heads| && k < |lists[port]| && sock == lists[port][k]
      modifies Ring(heads[port], lists[port])`next, Ring(heads[port], lists[port])`prev
      ensures IsList(heads[port], Removed(lists[port], k))
      ensures forall q: nat | q < |heads| && q != port :: IsList(heads[q], lists[q])
    {
      forall q: nat | q < |heads|
        ensures forall i :: At(heads[q], lists[q], i) in portOf && portOf[At(heads[q], lists[q], i)] == q
      {
        RingOwned(q);
      }
      AtInRing(heads[port], lists[port]);
      assert PortValid(port);
      Delete(sock, heads[port], lists[port], k);
      forall q: nat | q < |heads| && q != port ensures IsList(heads[q], lists[q]) {
        assert old(PortValid(q));
        forall i | -1 <= i < |lists[q]| ensures Linked(heads[q], lists[q], i) {
          assert old(Linked(heads[q], lists[q], i));
        }
      }
    }

    method UnlinkNodes(sock: Node<Socket>, ghost port: nat, ghost k: nat)
      requires Valid() && port < |heads| && k < |lists[port]| && sock == lists[port][k]
      modifies this`lists, this`portOf, Ring(heads[port], lists[port])`next, Ring(heads[port], lists[port])`prev
      ensures Valid() && lists == old(lists)[port := Removed(old(lists[port]), k)] && portOf == old(portOf) - {sock}
    {
      assert PortValid(port);
      BookedLess(portOf, heads, lists, sock, port, k);
      UnlinkRing(sock, port, k);
      lists, portOf := lists[port := Removed(lists[port], k)], portOf - {sock};
    }

    /** lsp_conn_close takes a listener off its port's list: that list loses exactly
        it, and every other port keeps its own. */
    method Unlink(sock: Node<Socket>, ghost port: nat, ghost k: nat)
      requires Valid() && port < |heads| && k < |lists[port]| && sock == lists[port][k]
      modifies this`lists, this`portOf, Ring(heads[port], lists[port])`next, Ring(heads[port], lists[port])`prev
      ensures Valid() && lists == old(lists)[port := Removed(old(lists[port]), k)] && portOf == old(portOf) - {sock}
      ensures Payloads(lists[port]) == Removed(old(Payloads(lists[port])), k)
      ensures forall q: nat | q < |heads| && q != port :: Payloads(lists[q]) == old(Payloads(lists[q]))
    {
      UnlinkNodes(sock, port, k);
      forall q: nat | q < |heads| && q != port ensures Payloads(lists[q]) == old(Payloads(lists[q])) {}
    }

    /** A listen that succeeds, as far as the lists are concerned. */
    method ListenOne(sock: Node<Socket>, port: nat, backlog: int)
      requires Valid() && sock !in portOf && sock.payload.lport == port <= LSP_PACKET_PORT_MAX
      modifies this`lists, this`portOf, states, sock`next, sock`prev, sock`payload, portOf.Keys`next, portOf.Keys`prev
      ensures Valid() && portOf == old(portOf)[sock := port]
      ensures sock.payload == Claimed(old(sock.payload), Some(backlog), false)
      ensures lists == old(lists)[port :=
                Placed(old(lists[port]), Some(FirstLower(old(Payloads(lists[port])), sock.payload.priority)), sock)]
      ensures forall x :: x in lists[port] <==> x in old(lists[port]) || x == sock
      ensures Payloads(lists[port]) == Listened(old(Payloads(lists[port])), sock.payload, false)
      ensures forall q: nat | q < |heads| && q != port :: Payloads(lists[q]) == old(Payloads(lists[q]))
    {
      forall q: nat | q < |heads| ensures sock !in lists[q] { RingOwned(q); }
      PlacedMembers(lists[port], FirstLower(Payloads(lists[port]), sock.payload.priority), sock);
      var rc := Listen(sock, backlog, true, false);
      forall q: nat | q < |heads| && q != port ensures Payloads(lists[q]) == old(Payloads(lists[q])) {}
    }

    // ---------------------------------------------------------------- histories on the heap

    /** Where socket and books stand when the socket listens with this backlog, or not at all. */
    ghost predicate SockMatches(sock: Node<Socket>, was: Socket, now: Option<int>)
      reads this, sock
    {
      && Claimed(sock.payload, None, false) == Claimed(was, None, false)
      && (sock in portOf <==> now.Some?)
      && (now.Some? ==> sock.payload == Claimed(was, now, false) && was.lport < |lists| && sock in lists[was.lport])
    }

    ghost predicate PortMatches(socks: seq<Node<Socket>>, were: seq<Socket>, acts: seq<Action>, p: nat)
      requires Booked(portOf, heads, lists) && p < |heads|
      reads this, portOf.Keys
    {
      assert Owns(portOf, heads[p], lists[p], p);
      && (forall x | x in lists[p] :: x in socks)
      && InOrder(lists[p], socks, were, acts)
      && Payloads(lists[p]) == ListAfter(HistoryOf(acts, were, p))
    }

    ghost predicate Matches(socks: seq<Node<Socket>>, were: seq<Socket>, acts: seq<Action>)
      reads this, portOf.Keys, socks
    {
      && Valid() && |were| == |socks|
      && (forall j | 0 <= j < |socks| :: SockMatches(socks[j], were[j], ListensWith(acts, j)))
      && forall p: nat | p < |heads| && Used(were, p) :: PortMatches(socks, were, acts, p)
    }

    /** The sockets on a list still have the priorities they came with. */
    lemma StandingPriorities(socks: seq<Node<Socket>>, were: seq<Socket>, acts: seq<Action>, p: nat)
      requires Matches(socks, were, acts) && p < |heads| && Used(were, p)
      ensures forall a, i | 0 <= a < |lists[p]| && 0 <= i < |socks| && lists[p][a] == socks[i] ::
                Payloads(lists[p])[a].priority == were[i].priority
    {
      forall a, i | 0 <= a < |lists[p]| && 0 <= i < |socks| && lists[p][a] == socks[i]
        ensures Payloads(lists[p])[a].priority == were[i].priority
      {
        assert SockMatches(socks[i], were[i], ListensWith(acts, i));
      }
    }

    /** The lists as a listen of socket k will leave them. */
    ghost function ListsAfterBegin(sock: Node<Socket>, port: nat): seq<seq<Node<Socket>>>
      requires Valid() && port < |heads|
      reads this, portOf.Keys, sock
    {
      assert Owns(portOf, heads[port], lists[port], port);
      lists[port := Placed(lists[port], Some(FirstLower(Payloads(lists[port]), sock.payload.priority)), sock)]
    }

    lemma OwnOrderAfterBegin(socks: seq<Node<Socket>>, were: seq<Socket>, before: seq<Action>, k: nat, backlog: int)
      requires Matches(socks, were, before) && Roster(socks, were) && k < |socks| && were[k].lport < |heads|
      requires socks[k] !in lists[were[k].lport] && socks[k].payload.priority == were[k].priority
      ensures var port := were[k].lport;
              InOrder(ListsAfterBegin(socks[k], port)[port], socks, were, before + [Begin(k, backlog)])
    {
      var port := were[k].lport;
      var at := FirstLower(Payloads(lists[port]), socks[k].payload.priority);
      assert Used(were, port);
      assert PortMatches(socks, were, before, port);
      StandingPriorities(socks, were, before, port);
      BeginInOrder(lists[port], at, socks[k], k, socks, were, before, backlog);
    }

    lemma OrderAfterBegin(socks: seq<Node<Socket>>, were: seq<Socket>, before: seq<Action>, k: nat, backlog: int)
      requires Matches(socks, were, before) && Roster(socks, were) && k < |socks| && ListensWith(before, k).None?
      ensures were[k].lport < |heads|
      ensures forall p: nat | p < |heads| && Used(were, p) ::
                InOrder(ListsAfterBegin(socks[k], were[k].lport)[p], socks, were, before + [Begin(k, backlog)])
    {
      var sock, port := socks[k], were[k].lport;
      assert SockMatches(sock, were[k], None);
      forall p: nat | p < |heads| && Used(were, p)
        ensures InOrder(ListsAfterBegin(sock, port)[p], socks, were, before + [Begin(k, backlog)])
      {
        assert PortMatches(socks, were, before, p);
        assert sock !in lists[p] by { RingOwned(p); }
        if p == port {
          OwnOrderAfterBegin(socks, were, before, k, backlog);
        } else {
          StillInOrder(lists[p], socks, were, before, Begin(k, backlog));
        }
      }
    }

    method BeginOne(sock: Node<Socket>, backlog: int, ghost socks: seq<Node<Socket>>, ghost were: seq<Socket>,
                    ghost before: seq<Action>, ghost k: nat)
      requires Matches(socks, were, before) && Roster(socks, were) && k < |socks| && sock == socks[k]
      requires ListensWith(before, k).None?
      modifies this`lists, this`portOf, states, sock`next, sock`prev, sock`payload
      modifies portOf.Keys`next, portOf.Keys`prev
      ensures Matches(socks, were, before + [Begin(k, backlog)]) && portOf.Keys == old(portOf.Keys) + {sock}
    {
      ghost var port := were[k].lport;
      assert SockMatches(sock, were[k], None);
      assert PortMatches(socks, were, before, port);
      OrderAfterBegin(socks, were, before, k, backlog);
      ListenOne(sock, sock.payload.lport, backlog);
      forall j | 0 <= j < |socks| ensures SockMatches(socks[j], were[j], ListensWith(before + [Begin(k, backlog)], j)) {
        ListensMore(before, Begin(k, backlog), j);
        assert old(SockMatches(socks[j], were[j], ListensWith(before, j)));
      }
      forall p: nat | p < |heads| && Used(were, p) ensures PortMatches(socks, were, before + [Begin(k, backlog)], p) {
        HistoryMore(before, Begin(k, backlog), were, p);
        assert old(PortMatches(socks, were, before, p));
      }
    }

    /** Within a port, a socket is known by what it carries. */
    lemma OnlyOnce(socks: seq<Node<Socket>>, were: seq<Socket>, acts: seq<Action>, p: nat, k: nat)
      requires Matches(socks, were, acts) && Roster(socks, were) && p < |heads| && Used(were, p) && k < |lists[p]|
      ensures forall i | 0 <= i < |lists[p]| && i != k :: lists[p][i].payload != lists[p][k].payload
    {
      assert PortMatches(socks, were, acts, p);
      assert PortValid(p);
      forall i | 0 <= i < |lists[p]| && i != k ensures lists[p][i].payload != lists[p][k].payload {
        assert lists[p][i] in socks && lists[p][k] in socks;
        var a :| 0 <= a < |socks| && socks[a] == lists[p][i];
        var b :| 0 <= b < |socks| && socks[b] == lists[p][k];
        assert SockMatches(socks[a], were[a], ListensWith(acts, a));
        assert SockMatches(socks[b], were[b], ListensWith(acts, b));
      }
    }

    /** Where a listening socket stands, and what taking it out there means. */
    lemma Standing(socks: seq<Node<Socket>>, were: seq<Socket>, acts: seq<Action>, k: nat) returns (at: nat)
      requires Matches(socks, were, acts) && Roster(socks, were) && k < |socks| && ListensWith(acts, k).Some?
      ensures were[k].lport < |heads| && at < |lists[were[k].lport]| && lists[were[k].lport][at] == socks[k]
      ensures var xs := Payloads(lists[were[k].lport]);
              Removed(xs, at) == Without(xs, Claimed(were[k], ListensWith(acts, k), false))
    {
      var port := were[k].lport;
      assert SockMatches(socks[k], were[k], ListensWith(acts, k));
      assert Used(were, port);
      at :| 0 <= at < |lists[port]| && lists[port][at] == socks[k];
      OnlyOnce(socks, were, acts, port, at);
      RemovedIsWithout(Payloads(lists[port]), at);
    }

    lemma OrderAfterEnd(socks: seq<Node<Socket>>, were: seq<Socket>, before: seq<Action>, k: nat, at: nat)
      requires Matches(socks, were, before) && Roster(socks, were) && k < |socks| && were[k].lport < |heads|
      requires at < |lists[were[k].lport]| && lists[were[k].lport][at] == socks[k]
      ensures var after := lists[were[k].lport := Removed(lists[were[k].lport], at)];
              forall p: nat | p < |heads| && Used(were, p) :: InOrder(after[p], socks, were, before + [End(k)])
    {
      var port := were[k].lport;
      assert PortValid(port);
      forall p: nat | p < |heads| && Used(were, p)
        ensures InOrder(lists[port := Removed(lists[port], at)][p], socks, were, before + [End(k)])
      {
        assert PortMatches(socks, were, before, p);
        RingOwned(port);
        RingOwned(p);
        if p == port {
          EndInOrder(lists[p], at, k, socks, were, before);
        } else {
          StillInOrder(lists[p], socks, were, before, End(k));
        }
      }
    }

    method EndOne(sock: Node<Socket>, ghost socks: seq<Node<Socket>>, ghost were: seq<Socket>,
                  ghost before: seq<Action>, ghost k: nat)
      requires Matches(socks, were, before) && Roster(socks, were) && k < |socks| && sock == socks[k]
      requires ListensWith(before, k).Some?
      modifies this`lists, this`portOf, portOf.Keys`next, portOf.Keys`prev
      ensures Matches(socks, were, before + [End(k)]) && portOf.Keys == old(portOf.Keys) - {sock}
    {
      ghost var port := were[k].lport;
      ghost var at := Standing(socks, were, before, k);
      OrderAfterEnd(socks, were, before, k, at);
      RingOwned(port);
      Unlink(sock, port, at);
      forall j | 0 <= j < |socks| ensures SockMatches(socks[j], were[j], ListensWith(before + [End(k)], j)) {
        ListensMore(before, End(k), j);
        assert old(SockMatches(socks[j], were[j], ListensWith(before, j)));
      }
      forall p: nat | p < |heads| && Used(were, p) ensures PortMatches(socks, were, before + [End(k)], p) {
        HistoryMore(before, End(k), were, p);
        assert old(PortMatches(socks, were, before, p));
      }
    }

    /** Socket i stands where it should at port p. */
    ghost predicate StandsRight(sock: Node<Socket>, was: Socket, now: Option<int>, p: nat)
      requires p < |lists|
      reads this, sock
    {
      && (sock in lists[p] <==> was.lport == p && now.Some?)
      && sock.payload.id == was.id && sock.payload.priority == was.priority && sock.payload.lport == was.lport
      && (now.Some? ==>
            && sock.payload.connType == CONN_SERVER && sock.payload.connState == CONN_LISTEN
            && sock.payload.backlog == now)
    }

    /** And so do all of them, and nobody else, in the order that ListenOrder speaks of. */
    ghost predicate AllStandRight(socks: seq<Node<Socket>>, were: seq<Socket>, acts: seq<Action>, p: nat)
      requires p < |lists| && |were| == |socks|
      reads this, socks, if p < |lists| then lists[p] else []
    {
      && (forall x | x in lists[p] :: x in socks)
      && (forall i | 0 <= i < |socks| :: StandsRight(socks[i], were[i], ListensWith(acts, i), p))
      && InOrder(lists[p], socks, were, acts)
      && Payloads(lists[p]) == ListAfter(HistoryOf(acts, were, p))
    }

    lemma MatchesMeans(socks: seq<Node<Socket>>, were: seq<Socket>, acts: seq<Action>, p: nat)
      requires Matches(socks, were, acts) && p < |heads| && Used(were, p)
      ensures AllStandRight(socks, were, acts, p)
    {
      assert PortMatches(socks, were, acts, p);
      forall i | 0 <= i < |socks| ensures StandsRight(socks[i], were[i], ListensWith(acts, i), p) {
        assert SockMatches(socks[i], were[i], ListensWith(acts, i));
        RingOwned(p);
        if were[i].lport < |heads| { RingOwned(were[i].lport); }
      }
    }

    method ActOne(socks: seq<Node<Socket>>, act: Action, ghost were: seq<Socket>, ghost before: seq<Action>)
      requires Matches(socks, were, before) && Roster(socks, were) && LegalNext(before, act, |socks|)
      modifies this`lists, this`portOf, states, socks, portOf.Keys`next, portOf.Keys`prev
      ensures Matches(socks, were, before + [act])
      ensures forall x | x in portOf :: x in old(portOf) || x in socks
    {
      match act {
        case Begin(k, backlog) => BeginOne(socks[k], backlog, socks, were, before, k);
        case End(k) => EndOne(socks[k], socks, were, before, k);
      }
    }

    method ActAll(socks: seq<Node<Socket>>, acts: seq<Action>)
      requires Valid() && Roster(socks, Payloads(socks)) && Legal(acts, |socks|)
      requires forall x | x in socks :: x !in portOf && x.payload.lport < |lists| && lists[x.payload.lport] == []
      modifies this`lists, this`portOf, states, socks, portOf.Keys`next, portOf.Keys`prev
      ensures Matches(socks, old(Payloads(socks)), acts)
    {
      ghost var were := Payloads(socks);
      forall p: nat | p < |heads| && Used(were, p) ensures PortMatches(socks, were, [], p) {}
      for i := 0 to |acts|
        invariant Matches(socks, were, acts[..i])
        invariant forall x | x in portOf :: x in old(portOf) || x in socks
      {
        assert LegalNext(acts[..i], acts[i], |socks|);
        assert acts[..i + 1] == acts[..i] + [acts[i]];
        ActOne(socks, acts[i], were, acts[..i]);
      }
      assert acts[..|acts|] == acts;
    }

    /** Whatever a program does with its sockets, listening and closing and listening
        again, on each port exactly those stand that listen, by the priorities they
        came with and within a priority by arrival; and the list is the one that
        ListenOrder speaks of. */
    method Replay(socks: seq<Node<Socket>>, acts: seq<Action>)
      requires Valid() && Roster(socks, Payloads(socks)) && Legal(acts, |socks|)
      requires forall x | x in socks :: x !in portOf && x.payload.lport < |lists| && lists[x.payload.lport] == []
      modifies this`lists, this`portOf, states, socks, portOf.Keys`next, portOf.Keys`prev
      ensures Valid()
      ensures forall p: nat | p < |heads| && Used(old(Payloads(socks)), p) ::
                AllStandRight(socks, old(Payloads(socks)), acts, p)
    {
      ghost var were := Payloads(socks);
      ActAll(socks, acts);
      forall p: nat | p < |heads| && Used(were, p) ensures AllStandRight(socks, were, acts, p) {
        MatchesMeans(socks, were, acts, p);
      }
    }
  }

  // ---------------------------------------------------------------- what a program does with its sockets

  /** One call about the k-th of its sockets. */
  datatype Action = Begin(k: nat, backlog: int) | End(k: nat)

  /** The backlog socket k listens with after these actions, if it listens. */
  function ListensWith(acts: seq<Action>, k: nat): Option<int> {
    if acts == [] then None
    else
      var last := acts[|acts| - 1];
      if last.k != k then ListensWith(acts[..|acts| - 1], k)
      else if last.Begin? then Some(last.backlog) else None
  }

  /** When socket k was last spoken of, counted from 1; 0 if never. */
  function LastAbout(acts: seq<Action>, k: nat): nat {
    if acts == [] then 0
    else if acts[|acts| - 1].k == k then |acts| else LastAbout(acts[..|acts| - 1], k)
  }

  /** Socket i goes before socket j: a higher priority, or the same and longer there. */
  predicate Precedes(acts: seq<Action>, were: seq<Socket>, i: nat, j: nat)
    requires i < |were| && j < |were|
  {
    || were[i].priority > were[j].priority
    || (were[i].priority == were[j].priority && LastAbout(acts, i) < LastAbout(acts, j))
  }

  ghost predicate InOrder(s: seq<Node<Socket>>, socks: seq<Node<Socket>>, were: seq<Socket>, acts: seq<Action>) {
    |were| == |socks| &&
    forall a, b, i: nat, j: nat |
      0 <= a < b < |s| && i < |socks| && j < |socks| && s[a] == socks[i] && s[b] == socks[j] ::
      Precedes(acts, were, i, j)
  }

  lemma LastAboutMore(before: seq<Action>, act: Action, k: nat)
    ensures LastAbout(before + [act], k) == if k == act.k then |before| + 1 else LastAbout(before, k)
    ensures LastAbout(before, k) <= |before|
  {
    assert (before + [act])[..|before|] == before;
    LastAboutBound(before, k);
  }

  lemma {:induction false} LastAboutBound(acts: seq<Action>, k: nat)
    ensures LastAbout(acts, k) <= |acts|
  {
    if acts != [] { LastAboutBound(acts[..|acts| - 1], k); }
  }

  /** An action about another socket leaves an order alone. */
  lemma StillInOrder(s: seq<Node<Socket>>, socks: seq<Node<Socket>>, were: seq<Socket>, before: seq<Action>,
                     act: Action)
    requires InOrder(s, socks, were, before) && act.k < |socks| && socks[act.k] !in s
    ensures InOrder(s, socks, were, before + [act])
  {
    forall a, b, i: nat, j: nat |
      0 <= a < b < |s| && i < |socks| && j < |socks| && s[a] == socks[i] && s[b] == socks[j]
      ensures Precedes(before + [act], were, i, j)
    {
      LastAboutMore(before, act, i);
      LastAboutMore(before, act, j);
      assert Precedes(before, were, i, j);
    }
  }

  /** Linking behind everybody of the same priority or a higher one. */
  lemma BeginInOrder(s: seq<Node<Socket>>, at: nat, sock: Node<Socket>, k: nat, socks: seq<Node<Socket>>,
                     were: seq<Socket>, before: seq<Action>, backlog: int)
    requires InOrder(s, socks, were, before) && at <= |s| && k < |socks| && sock == socks[k] && sock !in s
    requires Distinct(socks) && forall x | x in s :: x in socks
    requires forall a, i | 0 <= a < at && 0 <= i < |socks| && s[a] == socks[i] :: were[i].priority >= were[k].priority
    requires forall i | 0 <= i < |socks| && at < |s| && s[at] == socks[i] :: were[i].priority < were[k].priority
    ensures InOrder(Placed(s, Some(at), sock), socks, were, before + [Begin(k, backlog)])
  {
    var r, act := Placed(s, Some(at), sock), Begin(k, backlog);
    StillInOrder(s, socks, were, before, act);
    forall a, b, i: nat, j: nat |
      0 <= a < b < |r| && i < |socks| && j < |socks| && r[a] == socks[i] && r[b] == socks[j]
      ensures Precedes(before + [act], were, i, j)
    {
      LastAboutMore(before, act, i);
      LastAboutMore(before, act, j);
      if b == at {
        assert r[a] == s[a];
      } else if a == at {
        assert r[b] == s[b - 1];
        if at < b - 1 {
          assert s[at] in socks;
          var m :| 0 <= m < |socks| && socks[m] == s[at];
          assert Precedes(before, were, m, j);
        }
      } else {
        var a', b' := if a < at then a else a - 1, if b < at then b else b - 1;
        assert r[a] == s[a'] && r[b] == s[b'];
      }
    }
  }

  lemma EndInOrder(s: seq<Node<Socket>>, at: nat, k: nat, socks: seq<Node<Socket>>, were: seq<Socket>,
                   before: seq<Action>)
    requires InOrder(s, socks, were, before) && at < |s| && k < |socks| && s[at] == socks[k] && Distinct(s)
    ensures InOrder(Removed(s, at), socks, were, before + [End(k)])
  {
    var r := Removed(s, at);
    forall a, b, i: nat, j: nat |
      0 <= a < b < |r| && i < |socks| && j < |socks| && r[a] == socks[i] && r[b] == socks[j]
      ensures Precedes(before, were, i, j)
    {
      var a', b' := if a < at then a else a + 1, if b < at then b else b + 1;
      assert r[a] == s[a'] && r[b] == s[b'];
    }
    StillInOrder(r, socks, were, before, End(k));
  }

  predicate LegalNext(before: seq<Action>, act: Action, n: nat) {
    act.k < n && (act.Begin? <==> ListensWith(before, act.k).None?)
  }

  /** A socket begins when it does not listen and ends when it does. */
  ghost predicate Legal(acts: seq<Action>, n: nat) {
    forall i | 0 <= i < |acts| :: LegalNext(acts[..i], acts[i], n)
  }

  /** Sockets that carried `were` at first: different ones, with valid ports. */
  ghost predicate Roster(socks: seq<Node<Socket>>, were: seq<Socket>) {
    && |were| == |socks| && Distinct(socks)
    && (forall j | 0 <= j < |were| :: were[j].lport <= LSP_PACKET_PORT_MAX)
    && forall i, j | 0 <= i < j < |were| :: were[i].id != were[j].id
  }

  ghost predicate Used(were: seq<Socket>, p: nat) {
    exists j :: 0 <= j < |were| && were[j].lport == p
  }

  function EventOf(before: seq<Action>, act: Action, were: seq<Socket>): Event
    requires act.k < |were|
  {
    match act
    case Begin(k, backlog) => Event.Listen(Ports.Claimed(were[k], Some(backlog), false))
    case End(k) => Event.Close(Ports.Claimed(were[k], ListensWith(before, k), false))
  }

  /** What ListenOrder sees of it at port p. */
  function HistoryOf(acts: seq<Action>, were: seq<Socket>, p: nat): seq<Event> {
    if acts == [] then []
    else
      var before, act := acts[..|acts| - 1], acts[|acts| - 1];
      HistoryOf(before, were, p)
      + (if act.k < |were| && were[act.k].lport == p then [EventOf(before, act, were)] else [])
  }

  lemma ListensMore(before: seq<Action>, act: Action, k: nat)
    ensures ListensWith(before + [act], k) ==
              if k != act.k then ListensWith(before, k) else if act.Begin? then Some(act.backlog) else None
  {
    assert (before + [act])[..|before|] == before;
  }

  lemma HistoryMore(before: seq<Action>, act: Action, were: seq<Socket>, p: nat)
    requires act.k < |were|
    ensures ListAfter(HistoryOf(before + [act], were, p)) ==
              var xs := ListAfter(HistoryOf(before, were, p));
              if were[act.k].lport != p then xs
              else if act.Begin? then Listened(xs, EventOf(before, act, were).x, false)
              else Without(xs, EventOf(before, act, were).x)
  {
    assert (before + [act])[..|before|] == before;
    var es := HistoryOf(before, were, p);
    var e := EventOf(before, act, were);
    assert (es + [e])[..|es|] == es;
    assert es + [] == es;
  }
}
