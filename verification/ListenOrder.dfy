/** The order of the sockets that listen on one port (src/lsp_port.c), on plain
    sequences: where a new socket goes, and what a whole history of listens and
    closes leaves behind. */
module ListenOrder {
  import opened LspTypes

  /** The fields of lsp_conn_t that listening reads or writes. `backlog` is the
      capacity of the queue of children, if there is one. */
  datatype Socket = Socket(id: nat, priority: nat, lport: nat, connType: int, connState: int, backlog: Option<int>)

  /** The first place whose socket has a strictly lower priority. */
  function FirstLower(xs: seq<Socket>, priority: nat): (k: nat)
    ensures k <= |xs| && forall i | 0 <= i < k :: xs[i].priority >= priority
    ensures k < |xs| ==> xs[k].priority < priority
  {
    if xs == [] || xs[0].priority < priority then 0 else 1 + FirstLower(xs[1..], priority)
  }

  /** Where lsp_listen links a new socket, if it does. As written, the emptiness
      test takes a list of one for an empty one, and nothing is linked at the end. */
  function Where(xs: seq<Socket>, x: Socket, asWritten: bool): (at: Option<nat>)
    ensures at.Some? ==> at.value <= |xs|
  {
    var k := FirstLower(xs, x.priority);
    if !asWritten then Some(k)
    else if |xs| <= 1 then Some(0)
    else if k < |xs| then Some(k)
    else None
  }

  function Placed<T>(xs: seq<T>, at: Option<nat>, x: T): seq<T>
    requires at.Some? ==> at.value <= |xs|
  {
    if at.None? then xs else xs[..at.value] + [x] + xs[at.value..]
  }

  function Listened(xs: seq<Socket>, x: Socket, asWritten: bool): seq<Socket> {
    Placed(xs, Where(xs, x, asWritten), x)
  }

  ghost predicate Sorted(xs: seq<Socket>) {
    forall i, j :: 0 <= i < j < |xs| ==> xs[i].priority >= xs[j].priority
  }

  /** The sockets of one priority, in list order. */
  function OfPriority(xs: seq<Socket>, p: nat): seq<Socket> {
    if xs == [] then []
    else (if xs[0].priority == p then [xs[0]] else []) + OfPriority(xs[1..], p)
  }

  function Without(xs: seq<Socket>, x: Socket): seq<Socket> {
    if xs == [] then [] else (if xs[0] == x then [] else [xs[0]]) + Without(xs[1..], x)
  }

  /** Taking out the one place where x stands is taking out x. */
  lemma {:induction false} RemovedIsWithout(xs: seq<Socket>, k: nat)
    requires k < |xs| && forall i | 0 <= i < |xs| && i != k :: xs[i] != xs[k]
    ensures xs[..k] + xs[k + 1..] == Without(xs, xs[k])
  {
    if k == 0 {
      WithoutAbsent(xs[1..], xs[0]);
    } else {
      assert xs[1..][k - 1] == xs[k];
      RemovedIsWithout(xs[1..], k - 1);
      assert xs[..k] + xs[k + 1..] == [xs[0]] + (xs[1..][..k - 1] + xs[1..][k..]);
    }
  }

  lemma {:induction false} WithoutAbsent(xs: seq<Socket>, x: Socket)
    requires x !in xs
    ensures Without(xs, x) == xs
  {
    if xs != [] { WithoutAbsent(xs[1..], x); }
  }

  // ---------------------------------------------------------------- histories

  datatype Event = Listen(x: Socket) | Close(x: Socket)

  /** The port's list after a history of listens and closes. */
  function ListAfter(es: seq<Event>): seq<Socket> {
    if es == [] then []
    else
      var before := ListAfter(es[..|es| - 1]);
      match es[|es| - 1]
      case Listen(x) => Listened(before, x, false)
      case Close(x) => Without(before, x)
  }

  /** The sockets still listening, in order of arrival. */
  function Arrived(es: seq<Event>): seq<Socket> {
    if es == [] then []
    else
      var before := Arrived(es[..|es| - 1]);
      match es[|es| - 1]
      case Listen(x) => before + [x]
      case Close(x) => Without(before, x)
  }

  lemma {:induction false} OfPriorityConcat(xs: seq<Socket>, ys: seq<Socket>, p: nat)
    ensures OfPriority(xs + ys, p) == OfPriority(xs, p) + OfPriority(ys, p)
  {
    if xs == [] {
      assert xs + ys == ys;
    } else {
      assert (xs + ys)[0] == xs[0] && (xs + ys)[1..] == xs[1..] + ys;
      OfPriorityConcat(xs[1..], ys, p);
      var h := if xs[0].priority == p then [xs[0]] else [];
      assert OfPriority(xs + ys, p) == h + OfPriority(xs[1..] + ys, p);
      assert OfPriority(xs, p) == h + OfPriority(xs[1..], p);
    }
  }

  lemma {:induction false} OfPriorityNone(xs: seq<Socket>, p: nat)
    ensures OfPriority(xs, p) == [] <==> forall i | 0 <= i < |xs| :: xs[i].priority != p
  {
    if xs != [] {
      OfPriorityNone(xs[1..], p);
      if forall i | 0 <= i < |xs| :: xs[i].priority != p {
        forall i | 0 <= i < |xs[1..]| ensures xs[1..][i].priority != p { assert xs[1..][i] == xs[i + 1]; }
      } else if xs[0].priority != p {
        var i :| 0 <= i < |xs| && xs[i].priority == p;
        assert xs[1..][i - 1] == xs[i];
      }
    }
  }

  lemma {:induction false} WithoutOfPriority(xs: seq<Socket>, x: Socket, p: nat)
    ensures OfPriority(Without(xs, x), p) == Without(OfPriority(xs, p), x)
  {
    if xs != [] {
      WithoutOfPriority(xs[1..], x, p);
      OfPriorityConcat(if xs[0] == x then [] else [xs[0]], Without(xs[1..], x), p);
      if xs[0].priority == p {
        assert OfPriority(xs, p)[1..] == OfPriority(xs[1..], p);
      } else {
        assert OfPriority(xs, p) == OfPriority(xs[1..], p);
      }
      assert xs[0] != x ==> OfPriority([xs[0]], p) == if xs[0].priority == p then [xs[0]] else [];
    }
  }

  lemma {:induction false} WithoutSorted(xs: seq<Socket>, x: Socket, bound: nat)
    requires Sorted(xs) && forall i | 0 <= i < |xs| :: xs[i].priority <= bound
    ensures Sorted(Without(xs, x)) && forall i | 0 <= i < |Without(xs, x)| :: Without(xs, x)[i].priority <= bound
  {
    if xs != [] {
      WithoutSorted(xs[1..], x, xs[0].priority);
    }
  }

  lemma ListenedSorted(xs: seq<Socket>, x: Socket)
    requires Sorted(xs)
    ensures Sorted(Listened(xs, x, false))
  {
  }

  lemma SpliceOfPriority(a: seq<Socket>, x: Socket, b: seq<Socket>, p: nat)
    requires x.priority == p ==> OfPriority(b, p) == []
    ensures OfPriority(a + [x] + b, p) == OfPriority(a + b, p) + (if x.priority == p then [x] else [])
  {
    OfPriorityConcat(a + [x], b, p);
    OfPriorityConcat(a, [x], p);
    OfPriorityConcat(a, b, p);
    OfPriorityOne(x, p);
  }

  /** The new socket comes last among its equals. */
  lemma ListenedOfPriority(xs: seq<Socket>, x: Socket, p: nat)
    requires Sorted(xs)
    ensures OfPriority(Listened(xs, x, false), p) == OfPriority(xs, p) + (if x.priority == p then [x] else [])
  {
    var k := FirstLower(xs, x.priority);
    LowerBehind(xs, x.priority);
    SpliceOfPriority(xs[..k], x, xs[k..], p);
    assert xs[..k] + xs[k..] == xs;
  }

  lemma LowerBehind(xs: seq<Socket>, p: nat)
    requires Sorted(xs)
    ensures OfPriority(xs[FirstLower(xs, p)..], p) == []
  {
  }

  lemma OfPriorityOne(x: Socket, p: nat)
    ensures OfPriority([x], p) == if x.priority == p then [x] else []
  {
  }

  /** Over every history of listens and closes the list is sorted by non-increasing
      priority, and within each priority it is exactly the live sockets in order of
      arrival. */
  lemma {:induction false} StableByPriority(es: seq<Event>, p: nat)
    ensures Sorted(ListAfter(es)) && OfPriority(ListAfter(es), p) == OfPriority(Arrived(es), p)
  {
    if es != [] {
      var before := es[..|es| - 1];
      StableByPriority(before, p);
      match es[|es| - 1]
      case Listen(x) =>
        ListenedSorted(ListAfter(before), x);
        ListenedOfPriority(ListAfter(before), x, p);
        OfPriorityConcat(Arrived(before), [x], p);
      case Close(x) =>
        var xs := ListAfter(before);
        WithoutSorted(xs, x, if xs == [] then 0 else xs[0].priority);
        WithoutOfPriority(xs, x, p);
        WithoutOfPriority(Arrived(before), x, p);
    }
  }

  lemma {:induction false} WithoutMultiset(xs: seq<Socket>, x: Socket)
    ensures multiset(Without(xs, x)) == multiset(xs)[x := 0]
  {
    if xs != [] {
      WithoutMultiset(xs[1..], x);
      assert xs == [xs[0]] + xs[1..];
    }
  }

  /** Every listener is linked exactly as often as it is live, so once. */
  lemma {:induction false} LinkedExactlyOnce(es: seq<Event>)
    ensures multiset(ListAfter(es)) == multiset(Arrived(es))
  {
    if es != [] {
      var before := es[..|es| - 1];
      LinkedExactlyOnce(before);
      match es[|es| - 1]
      case Listen(x) =>
        var xs := ListAfter(before);
        assert xs == xs[..FirstLower(xs, x.priority)] + xs[FirstLower(xs, x.priority)..];
      case Close(x) =>
        WithoutMultiset(ListAfter(before), x);
        WithoutMultiset(Arrived(before), x);
    }
  }

  /** Order by priority with ties in order of arrival leaves no freedom: two lists
      that have both are equal. */
  lemma {:induction false} StableOrderUnique(xs: seq<Socket>, ys: seq<Socket>)
    requires Sorted(xs) && Sorted(ys) && forall p: nat :: OfPriority(xs, p) == OfPriority(ys, p)
    ensures xs == ys
  {
    if xs == [] || ys == [] {
      if xs != [] { HeadHasItsPriority(xs); }
      if ys != [] { HeadHasItsPriority(ys); }
    } else {
      SameHead(xs, ys);
      forall p: nat ensures OfPriority(xs[1..], p) == OfPriority(ys[1..], p) {
        var h := if xs[0].priority == p then [xs[0]] else [];
        assert OfPriority(xs, p) == h + OfPriority(xs[1..], p) && OfPriority(ys, p) == h + OfPriority(ys[1..], p);
        assert OfPriority(xs, p)[|h|..] == OfPriority(xs[1..], p);
        assert OfPriority(ys, p)[|h|..] == OfPriority(ys[1..], p);
      }
      StableOrderUnique(xs[1..], ys[1..]);
      assert xs == [xs[0]] + xs[1..] && ys == [ys[0]] + ys[1..];
    }
  }

  lemma HeadHasItsPriority(xs: seq<Socket>)
    requires xs != []
    ensures OfPriority(xs, xs[0].priority) != [] && OfPriority([], xs[0].priority) == []
  {
  }

  lemma SameHead(xs: seq<Socket>, ys: seq<Socket>)
    requires Sorted(xs) && Sorted(ys) && xs != [] && ys != []
    requires forall p: nat :: OfPriority(xs, p) == OfPriority(ys, p)
    ensures xs[0] == ys[0]
  {
    var a, b := xs[0].priority, ys[0].priority;
    OfPriorityNone(xs, b);
    OfPriorityNone(ys, a);
    assert OfPriority(xs, a)[0] == xs[0] && OfPriority(ys, b)[0] == ys[0];
    assert OfPriority(ys, a) != [] && OfPriority(xs, b) != [];
  }

  // ---------------------------------------------------------------- as written

  predicate SomeLower(xs: seq<Socket>, priority: nat) {
    exists i :: 0 <= i < |xs| && xs[i].priority < priority
  }

  /** Whatever the list, the code as written puts the socket in the right place iff
      the list is empty or somebody on it has a lower priority; it links it at all iff
      that holds or the list has at most one element. */
  lemma AsWrittenRightIff(xs: seq<Socket>, x: Socket)
    requires x !in xs
    ensures Listened(xs, x, true) == Listened(xs, x, false) <==> xs == [] || SomeLower(xs, x.priority)
    ensures x in Listened(xs, x, true) <==> |xs| <= 1 || SomeLower(xs, x.priority)
  {
    var k := FirstLower(xs, x.priority);
    assert SomeLower(xs, x.priority) <==> k < |xs|;
    if |xs| == 1 {
      assert Listened(xs, x, true)[0] == x;
    }
    if k == |xs| {
      assert |Listened(xs, x, false)| == |xs| + 1;
    }
  }
}
