/** What the routing table means (src/lsp_routing.c): per address, the best offer so far. */
module RouteOrder {
  import opened LspTypes

  /** lsp_route_t without its link and its timestamp; `linkspeed` is a uint32_t. */
  datatype Route = Route(iface: int, addr: nat, linkspeed: nat)

  /** The arguments of one lsp_route_add call; `linkspeed` is a signed int. */
  datatype Offer = Offer(iface: int, addr: nat, linkspeed: int)

  /** The conversion of int to uint32_t that both the store and the comparison make. */
  function AsU32(x: int): nat {
    x % 0x1_0000_0000
  }

  function RouteOf(o: Offer): Route {
    Route(o.iface, o.addr, AsU32(o.linkspeed))
  }

  /** A speed that is not negative keeps its value; the others come behind all of
      those, in their own order. */
  lemma UnsignedOrder(x: int, y: int)
    requires -0x8000_0000 <= x < 0x8000_0000 && -0x8000_0000 <= y < 0x8000_0000
    ensures 0 <= x ==> AsU32(x) == x
    ensures AsU32(x) < AsU32(y) <==> if 0 <= x <==> 0 <= y then x < y else 0 <= x
  {
  }

  /** -1 means unknown, and ranks behind every other speed an int can hold. */
  lemma UnknownRanksLast(linkspeed: int)
    requires -0x8000_0000 <= linkspeed < 0x8000_0000 && linkspeed != -1
    ensures AsU32(linkspeed) < AsU32(-1)
  {
  }

  /** Position of the first route for the address, or the length. */
  function FirstFor(rs: seq<Route>, addr: nat): (k: nat)
    ensures k <= |rs| && (forall i | 0 <= i < k :: rs[i].addr != addr) && (k < |rs| ==> rs[k].addr == addr)
  {
    if rs == [] || rs[0].addr == addr then 0 else 1 + FirstFor(rs[1..], addr)
  }

  lemma FirstForUnique(rs: seq<Route>, addr: nat, k: nat)
    requires k <= |rs| && (forall i | 0 <= i < k :: rs[i].addr != addr) && (k < |rs| ==> rs[k].addr == addr)
    ensures FirstFor(rs, addr) == k
  {
  }

  function Lookup(rs: seq<Route>, addr: nat): Option<Route> {
    var k := FirstFor(rs, addr);
    if k < |rs| then Some(rs[k]) else None
  }

  /** What the traversal macro shows: as written, nothing of a table of one. */
  function Seen(rs: seq<Route>, asWritten: bool): seq<Route> {
    if asWritten && |rs| == 1 then [] else rs
  }

  /** lsp_route_add. As written the new route's linkspeed is never stored: it is
      whatever `junk` the allocator left there. */
  function Added(rs: seq<Route>, o: Offer, asWritten: bool, junk: nat): seq<Route> {
    var k := FirstFor(Seen(rs, asWritten), o.addr);
    if k == |Seen(rs, asWritten)| then
      [RouteOf(o).(linkspeed := if asWritten then junk else AsU32(o.linkspeed))] + rs
    else if AsU32(o.linkspeed) < rs[k].linkspeed then
      rs[k := rs[k].(iface := o.iface, linkspeed := AsU32(o.linkspeed))]
    else rs
  }

  ghost predicate OnePerAddress(rs: seq<Route>) {
    forall i, j :: 0 <= i < j < |rs| ==> rs[i].addr != rs[j].addr
  }

  /** The better of what is known and what is offered; a tie keeps the old. */
  function Better(known: Option<Route>, o: Offer): Option<Route> {
    if known.None? || AsU32(o.linkspeed) < known.value.linkspeed then Some(RouteOf(o)) else known
  }

  /** The repaired add is a map update: one address gets the better route, every
      other address keeps its own, and no address gets two entries. */
  lemma AddUpdatesMap(rs: seq<Route>, o: Offer, junk: nat, addr: nat)
    requires OnePerAddress(rs)
    ensures OnePerAddress(Added(rs, o, false, junk))
    ensures Lookup(Added(rs, o, false, junk), addr) ==
              if addr == o.addr then Better(Lookup(rs, addr), o) else Lookup(rs, addr)
  {
    var k := FirstFor(rs, o.addr);
    var after := Added(rs, o, false, junk);
    if k == |rs| {
      FirstForUnique(after, addr, if addr == o.addr then 0 else 1 + FirstFor(rs, addr));
    } else {
      FirstForUnique(after, addr, FirstFor(rs, addr));
    }
  }

  // ---------------------------------------------------------------- histories

  function RoutesAfter(os: seq<Offer>): seq<Route> {
    if os == [] then [] else Added(RoutesAfter(os[..|os| - 1]), os[|os| - 1], false, 0)
  }

  /** The i-th offer is the one that counts for the address: nobody ever offered
      less, and nobody offered as little before. */
  ghost predicate Wins(os: seq<Offer>, addr: nat, i: nat) {
    && i < |os| && os[i].addr == addr
    && forall j | 0 <= j < |os| && os[j].addr == addr ::
         if j < i then AsU32(os[i].linkspeed) < AsU32(os[j].linkspeed)
         else AsU32(os[i].linkspeed) <= AsU32(os[j].linkspeed)
  }

  /** Who wins when one more offer comes in; i wins so far, if anybody does. */
  lemma WinsMore(before: seq<Offer>, o: Offer, addr: nat, i: nat)
    requires Wins(before, addr, i) || forall j | 0 <= j < |before| :: before[j].addr != addr
    ensures var os := before + [o];
            if o.addr == addr && (!Wins(before, addr, i) || AsU32(o.linkspeed) < AsU32(before[i].linkspeed))
            then Wins(os, addr, |before|)
            else if Wins(before, addr, i) then Wins(os, addr, i) && os[i] == before[i]
            else forall j | 0 <= j < |os| :: os[j].addr != addr
  {
  }

  /** After any sequence of adds the table has at most one entry per address, and
      finds for each address the first of its best offers; an address nobody
      offered is not found. */
  lemma {:induction false} BestOfferWins(os: seq<Offer>, addr: nat) returns (i: nat)
    ensures OnePerAddress(RoutesAfter(os))
    ensures var found := Lookup(RoutesAfter(os), addr);
            if found.None? then forall j | 0 <= j < |os| :: os[j].addr != addr
            else Wins(os, addr, i) && found.value == RouteOf(os[i])
  {
    i := 0;
    if os != [] {
      var n := |os| - 1;
      var before := os[..n];
      i := BestOfferWins(before, addr);
      AddUpdatesMap(RoutesAfter(before), os[n], 0, addr);
      WinsMore(before, os[n], addr, i);
      assert os == before + [os[n]];
      var known := Lookup(RoutesAfter(before), addr);
      if os[n].addr == addr && (known.None? || AsU32(os[n].linkspeed) < known.value.linkspeed) { i := n; }
    }
  }

  /** So among known speeds the least one is found, and an unknown one only if no other
      was offered. */
  lemma LeastSpeedFound(os: seq<Offer>, addr: nat, j: nat)
    requires j < |os| && os[j].addr == addr && 0 <= os[j].linkspeed < 0x8000_0000
    requires forall k | 0 <= k < |os| :: -1 <= os[k].linkspeed < 0x8000_0000
    ensures var found := Lookup(RoutesAfter(os), addr);
            && found.Some? && found.value.linkspeed <= os[j].linkspeed
            && exists k :: 0 <= k < |os| && os[k].addr == addr
                 && found.value.linkspeed == os[k].linkspeed && found.value.iface == os[k].iface
  {
    var i := BestOfferWins(os, addr);
    UnsignedOrder(os[i].linkspeed, os[j].linkspeed);
    UnsignedOrder(os[j].linkspeed, os[i].linkspeed);
  }

  // ---------------------------------------------------------------- as written

  /** lsp_route_find on the routes that the traversal shows. */
  function Found(rs: seq<Route>, addr: nat, asWritten: bool): Option<int> {
    var r := Lookup(Seen(rs, asWritten), addr);
    if r.Some? then Some(r.value.iface) else None
  }

  /** As written, a lookup is right iff the route asked for is not the only one. */
  lemma FindRightIff(rs: seq<Route>, addr: nat)
    ensures Found(rs, addr, true) == Found(rs, addr, false) <==> !(|rs| == 1 && rs[0].addr == addr)
  {
  }

  /** As written, an add keeps one entry per address iff it does not repeat the
      address of a lone route. */
  lemma AddKeepsOnePerAddressIff(rs: seq<Route>, o: Offer, junk: nat)
    requires OnePerAddress(rs)
    ensures OnePerAddress(Added(rs, o, true, junk)) <==> !(|rs| == 1 && rs[0].addr == o.addr)
  {
    var after := Added(rs, o, true, junk);
    if |rs| == 1 {
      assert after[0].addr == o.addr && after[1] == rs[0];
    } else {
      AddUpdatesMap(rs, o, junk, o.addr);
      var repaired := Added(rs, o, false, junk);
      assert |after| == |repaired| && forall i | 0 <= i < |after| :: after[i].addr == repaired[i].addr;
    }
  }

  /** As written, an add does what it should iff it updates a route it can see, or
      the address is new and the allocator happened to leave the right speed behind. */
  lemma AddRightIff(rs: seq<Route>, o: Offer, junk: nat)
    ensures Added(rs, o, true, junk) == Added(rs, o, false, junk) <==>
              if FirstFor(rs, o.addr) < |rs| then |rs| != 1 else junk == AsU32(o.linkspeed)
  {
    var w, r := Added(rs, o, true, junk), Added(rs, o, false, junk);
    if FirstFor(rs, o.addr) == |rs| {
      assert w[0].linkspeed == junk && r[0].linkspeed == AsU32(o.linkspeed) && w[1..] == r[1..];
    } else if |rs| == 1 {
      assert |w| == 2 && |r| == 1;
    }
  }

  /** The table after any adds as written; junk(k) is what the allocator leaves in
      the speed of the route that the k-th add makes. */
  function RoutesAsWritten(os: seq<Offer>, junk: nat -> nat): seq<Route> {
    if os == [] then []
    else Added(RoutesAsWritten(os[..|os| - 1], junk), os[|os| - 1], true, junk(|os| - 1))
  }

  lemma AddSize(rs: seq<Route>, o: Offer, junk: nat)
    ensures var after := Added(rs, o, true, junk);
            |rs| <= |after| <= |rs| + 1 && (|rs| <= 1 ==> |after| == |rs| + 1)
  {
  }

  /** The second add always makes a second route. */
  lemma {:induction false} AsWrittenGrows(os: seq<Offer>, junk: nat -> nat)
    ensures if |os| < 2 then |RoutesAsWritten(os, junk)| == |os| else 2 <= |RoutesAsWritten(os, junk)|
  {
    if os != [] {
      var n := |os| - 1;
      AsWrittenGrows(os[..n], junk);
      AddSize(RoutesAsWritten(os[..n], junk), os[n], junk(n));
    }
  }

  /** Addresses never leave the table. */
  lemma {:induction false} AsWrittenHolds(os: seq<Offer>, junk: nat -> nat, j: nat)
    requires j < |os|
    ensures FirstFor(RoutesAsWritten(os, junk), os[j].addr) < |RoutesAsWritten(os, junk)|
  {
    var n := |os| - 1;
    if j < n {
      AsWrittenHolds(os[..n], junk, j);
      assert os[..n][j] == os[j];
    }
    AddKeepsAddress(RoutesAsWritten(os[..n], junk), os[n], junk(n), os[j].addr);
  }

  lemma AddKeepsAddress(rs: seq<Route>, o: Offer, junk: nat, addr: nat)
    requires FirstFor(rs, addr) < |rs| || addr == o.addr
    ensures FirstFor(Added(rs, o, true, junk), addr) < |Added(rs, o, true, junk)|
  {
    var after := Added(rs, o, true, junk);
    if FirstFor(rs, addr) < |rs| {
      var i := FirstFor(rs, addr);
      assert after[if |after| == |rs| then i else i + 1].addr == addr;
    }
  }

  lemma DoubleStays(rs: seq<Route>, o: Offer, junk: nat)
    requires !OnePerAddress(rs)
    ensures !OnePerAddress(Added(rs, o, true, junk))
  {
    var i, j :| 0 <= i < j < |rs| && rs[i].addr == rs[j].addr;
    var after := Added(rs, o, true, junk);
    var shift := |after| - |rs|;
    assert after[i + shift].addr == after[j + shift].addr;
  }

  /** After any adds as written the table has one entry per address iff the first two
      are for different addresses: the first add is invisible to the second, and to
      no other. */
  lemma {:induction false} AsWrittenOnePerAddressIff(os: seq<Offer>, junk: nat -> nat)
    ensures OnePerAddress(RoutesAsWritten(os, junk)) <==> |os| < 2 || os[0].addr != os[1].addr
  {
    AsWrittenGrows(os, junk);
    if |os| >= 2 {
      var n := |os| - 1;
      var rs := RoutesAsWritten(os[..n], junk);
      AsWrittenOnePerAddressIff(os[..n], junk);
      AsWrittenGrows(os[..n], junk);
      if n == 1 { assert RoutesAsWritten(os[..n][..0], junk) == [] && rs[0].addr == os[0].addr; }
      if OnePerAddress(rs) { AddKeepsOnePerAddressIff(rs, os[n], junk(n)); } else { DoubleStays(rs, os[n], junk(n)); }
    }
  }

  /** And a lookup as written finds every address offered iff there was not exactly one add. */
  lemma AsWrittenFindsAllIff(os: seq<Offer>, junk: nat -> nat)
    ensures (forall j | 0 <= j < |os| :: Found(RoutesAsWritten(os, junk), os[j].addr, true).Some?) <==> |os| != 1
  {
    var rs := RoutesAsWritten(os, junk);
    AsWrittenGrows(os, junk);
    forall j | 0 <= j < |os| ensures Found(rs, os[j].addr, true).Some? <==> |os| != 1 {
      FindRightIff(rs, os[j].addr);
      AsWrittenHolds(os, junk, j);
    }
    if |os| == 1 { assert !Found(rs, os[0].addr, true).Some?; }
  }
}
