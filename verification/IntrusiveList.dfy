/** The intrusive circular doubly linked list (src/include/lsp_list.h). */
module IntrusiveList {

  /** A C object that has a list link inside it: the two pointers of the link, and
      `payload` for the rest of the object, so container_of is the identity. */
  class Node<T> {
    var next: Node?<T>
    var prev: Node?<T>
    var payload: T

    constructor (payload: T)
      ensures this.payload == payload && next == null && prev == null
    {
      this.payload, next, prev := payload, null, null;
    }

    /** lsp_list_head_init */
    method HeadInit()
      modifies this`next, this`prev
      ensures IsList(this, [])
    {
      next, prev := this, this;
    }
  }

  /** The i-th node of the ring; the head stands before the first and after the last. */
  ghost function At<T>(head: Node<T>, s: seq<Node<T>>, i: int): Node<T> {
    if 0 <= i < |s| then s[i] else head
  }

  ghost predicate Distinct<T>(s: seq<T>) {
    forall i, j :: 0 <= i < j < |s| ==> s[i] != s[j]
  }

  /** The i-th node and its successor point at each other. */
  ghost predicate Linked<T>(head: Node<T>, s: seq<Node<T>>, i: int)
    reads head, s
  {
    At(head, s, i).next == At(head, s, i + 1) && At(head, s, i + 1).prev == At(head, s, i)
  }

  /** `head` is the sentinel of a well-formed ring whose nodes are `s`, in order. */
  ghost predicate IsList<T>(head: Node<T>, s: seq<Node<T>>)
    reads head, s
  {
    head !in s && Distinct(s) && forall i :: -1 <= i < |s| ==> Linked(head, s, i)
  }

  /** What the nodes of a list carry, in list order. */
  ghost function Payloads<T>(s: seq<Node<T>>): (xs: seq<T>)
    reads s
    ensures |xs| == |s|
  {
    seq(|s|, i requires 0 <= i < |s| reads s => s[i].payload)
  }

  ghost function Inserted<T>(s: seq<T>, k: nat, n: T): seq<T>
    requires k <= |s|
  {
    s[..k] + [n] + s[k..]
  }

  ghost function Removed<T>(s: seq<T>, k: nat): seq<T>
    requires k < |s|
  {
    s[..k] + s[k + 1..]
  }

  ghost function Reversed<T>(s: seq<T>): seq<T> {
    seq(|s|, i requires 0 <= i < |s| => s[|s| - 1 - i])
  }

  /** The forward pointers alone spell the list: what a reader without the lock follows. */
  ghost predicate Spells<T>(head: Node<T>, s: seq<Node<T>>)
    reads head, s
  {
    head !in s && Distinct(s) && forall i :: -1 <= i < |s| ==> At(head, s, i).next == At(head, s, i + 1)
  }

  lemma ListSpells<T>(head: Node<T>, s: seq<Node<T>>)
    requires IsList(head, s)
    ensures Spells(head, s)
  {
    forall i | -1 <= i < |s| ensures At(head, s, i).next == At(head, s, i + 1) { assert Linked(head, s, i); }
  }

  /** _lsp_list_add stopped after some of its four pointer writes between neighbours
      k-1 and k of the ring. Up to the last write the forward pointers spell the old
      list, from then on the new one; and the emptiness test of the source sees
      something in an empty list from the first write to the last, and nothing after it. */
  method LinkUpTo<T>(n: Node<T>, prev: Node<T>, next: Node<T>, writes: nat,
                     ghost head: Node<T>, ghost s: seq<Node<T>>, ghost k: nat)
    requires IsList(head, s) && n != head && n !in s && k <= |s| && writes <= 4
    requires prev == At(head, s, k - 1) && next == At(head, s, k)
    modifies n`next, n`prev, prev`next, next`prev
    ensures if writes < 4 then Spells(head, s) else IsList(head, Inserted(s, k, n))
    ensures s == [] ==> (EmptyAsWritten(head) <==> writes == 0 || writes == 4)
  {
    ListSpells(head, s);
    assert Linked(head, s, -1);
    if writes > 0 { next.prev := n; }
    if writes > 1 { n.next := next; }
    if writes > 2 { n.prev := prev; }
    if writes > 3 {
      prev.next := n;
      ghost var r := Inserted(s, k, n);
      forall i | -1 <= i < |r| ensures Linked(head, r, i) {
        if i < k - 1 {
          assert old(Linked(head, s, i));
          assert At(head, r, i) == At(head, s, i) && At(head, r, i + 1) == At(head, s, i + 1);
        } else if k < i {
          assert old(Linked(head, s, i - 1));
          assert At(head, r, i) == At(head, s, i - 1) && At(head, r, i + 1) == At(head, s, i);
        }
      }
    }
  }

  /** All four of them. */
  method Link<T>(n: Node<T>, prev: Node<T>, next: Node<T>, ghost head: Node<T>, ghost s: seq<Node<T>>, ghost k: nat)
    requires IsList(head, s) && n != head && n !in s && k <= |s|
    requires prev == At(head, s, k - 1) && next == At(head, s, k)
    modifies n`next, n`prev, prev`next, next`prev
    ensures IsList(head, Inserted(s, k, n))
  {
    LinkUpTo(n, prev, next, 4, head, s, k);
  }

  /** lsp_list_insert_after, where `node` is the head or the (k-1)-th node. */
  method InsertAfter<T>(n: Node<T>, node: Node<T>, ghost head: Node<T>, ghost s: seq<Node<T>>, ghost k: nat)
    requires IsList(head, s) && n != head && n !in s && k <= |s| && node == At(head, s, k - 1)
    modifies n`next, n`prev, node`next, At(head, s, k)`prev
    ensures IsList(head, Inserted(s, k, n))
  {
    assert Linked(head, s, k - 1);
    Link(n, node, node.next, head, s, k);
  }

  /** lsp_list_insert_before, where `node` is the head or the k-th node. */
  method InsertBefore<T>(n: Node<T>, node: Node<T>, ghost head: Node<T>, ghost s: seq<Node<T>>, ghost k: nat)
    requires IsList(head, s) && n != head && n !in s && k <= |s| && node == At(head, s, k)
    modifies n`next, n`prev, At(head, s, k - 1)`next, node`prev
    ensures IsList(head, Inserted(s, k, n))
  {
    assert Linked(head, s, k - 1);
    Link(n, node.prev, node, head, s, k);
  }

  /** lsp_list_add: to the front. */
  method Add<T>(n: Node<T>, head: Node<T>, ghost s: seq<Node<T>>)
    requires IsList(head, s) && n != head && n !in s
    modifies n`next, n`prev, head`next, At(head, s, 0)`prev
    ensures IsList(head, [n] + s)
  {
    InsertAfter(n, head, head, s, 0);
    assert Inserted(s, 0, n) == [n] + s;
  }

  /** lsp_list_add_tail: to the back. */
  method AddTail<T>(n: Node<T>, head: Node<T>, ghost s: seq<Node<T>>)
    requires IsList(head, s) && n != head && n !in s
    modifies n`next, n`prev, At(head, s, |s| - 1)`next, head`prev
    ensures IsList(head, s + [n])
  {
    InsertBefore(n, head, head, s, |s|);
    assert Inserted(s, |s|, n) == s + [n];
  }

  /** lsp_list_del: the neighbours close the gap, the node keeps its own pointers. */
  method Delete<T>(n: Node<T>, ghost head: Node<T>, ghost s: seq<Node<T>>, ghost k: nat)
    requires IsList(head, s) && k < |s| && n == s[k]
    modifies At(head, s, k + 1)`prev, At(head, s, k - 1)`next
    ensures IsList(head, Removed(s, k))
    ensures n.next == old(n.next) && n.prev == old(n.prev)
  {
    assert Linked(head, s, k) && Linked(head, s, k - 1);
    n.next.prev := n.prev;
    n.prev.next := n.next;
    ghost var r := Removed(s, k);
    forall i | -1 <= i < |r| ensures Linked(head, r, i) {
      if i < k - 1 {
        assert old(Linked(head, s, i));
        assert At(head, r, i) == At(head, s, i) && At(head, r, i + 1) == At(head, s, i + 1);
      } else if k - 1 < i {
        assert old(Linked(head, s, i + 1));
        assert At(head, r, i) == At(head, s, i + 1) && At(head, r, i + 1) == At(head, s, i + 2);
      }
    }
  }

  /** Inserting a node anywhere and deleting it again restores every pointer of the list. */
  method InsertThenDelete<T>(n: Node<T>, node: Node<T>, ghost head: Node<T>, ghost s: seq<Node<T>>, ghost k: nat)
    requires IsList(head, s) && n != head && n !in s && k <= |s| && node == At(head, s, k - 1)
    modifies n`next, n`prev, node`next, At(head, s, k)`prev
    ensures IsList(head, s)
    ensures forall i | -1 <= i < |s| ::
              At(head, s, i).next == old(At(head, s, i).next) && At(head, s, i).prev == old(At(head, s, i).prev)
  {
    InsertAfter(n, node, head, s, k);
    ghost var s1 := Inserted(s, k, n);
    assert At(head, s1, k - 1) == node && At(head, s1, k + 1) == At(head, s, k);
    Delete(n, head, s1, k);
    assert Removed(s1, k) == s;
    forall i | -1 <= i < |s|
      ensures At(head, s, i).next == old(At(head, s, i).next) && At(head, s, i).prev == old(At(head, s, i).prev)
    {
      ghost var before := if i == -1 then |s| - 1 else i - 1;
      assert old(Linked(head, s, i)) && Linked(head, s, i);
      assert old(Linked(head, s, before)) && Linked(head, s, before);
    }
  }

  ghost function Ring<T>(head: Node<T>, s: seq<Node<T>>): set<Node<T>> {
    {head} + set x | x in s
  }

  lemma AtInRing<T>(head: Node<T>, s: seq<Node<T>>)
    ensures forall i :: At(head, s, i) in Ring(head, s)
  {
  }

  /** A node moves from one list to the front of another; a third list, disjoint
      from both, stays exactly as it was. */
  method Move<T>(n: Node<T>, to: Node<T>, ghost from: Node<T>, ghost s: seq<Node<T>>, ghost k: nat,
                 ghost t: seq<Node<T>>, ghost other: Node<T>, ghost u: seq<Node<T>>)
    requires IsList(from, s) && IsList(to, t) && IsList(other, u) && k < |s| && n == s[k]
    requires Ring(from, s) !! Ring(to, t) !! Ring(other, u)
    modifies Ring(from, s), Ring(to, t)
    ensures IsList(from, Removed(s, k)) && IsList(to, [n] + t) && IsList(other, u)
    ensures forall x | x in Ring(other, u) :: x.next == old(x.next) && x.prev == old(x.prev)
  {
    AtInRing(from, s);
    AtInRing(to, t);
    AtInRing(other, u);
    assert n in Ring(from, s);
    Delete(n, from, s, k);
    assert IsList(to, t) by {
      forall i | -1 <= i < |t| ensures Linked(to, t, i) { assert old(Linked(to, t, i)); }
    }
    ghost var rest := Removed(s, k);
    assert n !in rest;
    assert forall x | x in rest :: x in Ring(from, s);
    label deleted:
    Add(n, to, t);
    forall i | -1 <= i < |rest| ensures Linked(from, rest, i) { assert old@deleted(Linked(from, rest, i)); }
    forall i | -1 <= i < |u| ensures Linked(other, u, i) { assert old(Linked(other, u, i)); }
  }

  // ---------------------------------------------------------------- the empty test and traversal

  /** The pointers determine the contents: one ring, one sequence. */
  lemma {:induction false} ContentsUnique<T>(head: Node<T>, s: seq<Node<T>>, t: seq<Node<T>>, k: nat)
    requires IsList(head, s) && IsList(head, t) && k <= |s|
    ensures k <= |t| && s[..k] == t[..k] && (k == |s| ==> s == t)
  {
    if k > 0 {
      ContentsUnique(head, s, t, k - 1);
      assert Linked(head, s, k - 2) && Linked(head, t, k - 2);
      assert At(head, s, k - 2) == At(head, t, k - 2);
    }
    if k == |s| {
      assert Linked(head, s, k - 1) && Linked(head, t, k - 1);
      assert At(head, s, k - 1) == At(head, t, k - 1);
    }
  }

  /** lsp_list_is_empty as written: head->next == head->prev. */
  predicate EmptyAsWritten<T>(head: Node<T>)
    reads head
  {
    head.next == head.prev
  }

  /** The test says "empty" for every list of at most one element. */
  lemma EmptyAsWrittenIff<T>(head: Node<T>, s: seq<Node<T>>)
    requires IsList(head, s)
    ensures EmptyAsWritten(head) <==> |s| <= 1
    ensures head.next == head <==> s == []
  {
    assert Linked(head, s, -1) && Linked(head, s, |s| - 1);
  }

  /** Is there anything to visit? The source asks whether the head's two pointers
      differ; the repaired test asks whether the head points away from itself. */
  predicate StartsTraversal<T>(head: Node<T>, asWritten: bool)
    reads head
  {
    if asWritten then !EmptyAsWritten(head) else head.next != head
  }

  /** lsp_list_for as a reader without the lock runs it, needing the forward pointers
      only. If the test sees something in an empty list, it takes the head for an element. */
  method Walk<T>(head: Node<T>, asWritten: bool, ghost s: seq<Node<T>>) returns (visited: seq<Node<T>>)
    requires Spells(head, s)
    ensures visited == if asWritten && EmptyAsWritten(head) then [] else if asWritten && s == [] then [head] else s
  {
    visited := [];
    var ptr: Node?<T> := if StartsTraversal(head, asWritten) then head.next else null;
    assert At(head, s, -1).next == At(head, s, 0);
    while ptr != null
      invariant |visited| <= |s| + 1
      invariant if ptr == null then
                  visited ==
                    if asWritten && EmptyAsWritten(head) then [] else if asWritten && s == [] then [head] else s
                else
                  && StartsTraversal(head, asWritten) && |visited| <= |s| && visited == s[..|visited|]
                  && ptr == At(head, s, |visited|) && (|visited| < |s| || (s == [] && asWritten))
      decreases |s| + 1 - |visited|, ptr != null
    {
      ghost var i := |visited|;
      assert i < |s| ==> At(head, s, i).next == At(head, s, i + 1);
      visited := visited + [ptr];
      ptr := if ptr.next != head then ptr.next else null;
    }
  }

  /** A reader that looks while an insertion is under way visits the old list or the
      new one; but as written, in the middle of the first insertion of all, it takes
      the head for an element. */
  method WalkDuringInsert<T>(n: Node<T>, prev: Node<T>, next: Node<T>, writes: nat, asWritten: bool,
                             head: Node<T>, ghost s: seq<Node<T>>, ghost k: nat) returns (visited: seq<Node<T>>)
    requires IsList(head, s) && n != head && n !in s && k <= |s| && writes <= 4
    requires prev == At(head, s, k - 1) && next == At(head, s, k)
    modifies n`next, n`prev, prev`next, next`prev
    ensures !asWritten ==> visited == if writes < 4 then s else Inserted(s, k, n)
    ensures asWritten && s == [] ==> visited == if 0 < writes < 4 then [head] else []
  {
    LinkUpTo(n, prev, next, writes, head, s, k);
    ghost var now := if writes < 4 then s else Inserted(s, k, n);
    if writes == 4 { ListSpells(head, now); }
    visited := Walk(head, asWritten, now);
  }

  /** lsp_list_for: repaired it visits the contents, as written it misses a lone element. */
  method ForEach<T>(head: Node<T>, asWritten: bool, ghost s: seq<Node<T>>) returns (visited: seq<Node<T>>)
    requires IsList(head, s)
    ensures visited == if asWritten && |s| == 1 then [] else s
  {
    EmptyAsWrittenIff(head, s);
    ListSpells(head, s);
    visited := Walk(head, asWritten, s);
  }

  /** lsp_list_for_back: the same in reverse. */
  method ForEachBack<T>(head: Node<T>, asWritten: bool, ghost s: seq<Node<T>>) returns (visited: seq<Node<T>>)
    requires IsList(head, s)
    ensures visited == if asWritten && |s| == 1 then [] else Reversed(s)
  {
    EmptyAsWrittenIff(head, s);
    assert Linked(head, s, |s| - 1);
    visited := [];
    var ptr: Node?<T> := if StartsTraversal(head, asWritten) then head.prev else null;
    while ptr != null
      invariant |visited| <= |s| && visited == Reversed(s)[..|visited|]
      invariant if ptr == null then visited == (if asWritten && |s| == 1 then [] else Reversed(s))
                else |visited| < |s| && ptr == At(head, s, |s| - 1 - |visited|)
      decreases |s| - |visited|, ptr != null
    {
      ghost var i := |s| - 1 - |visited|;
      assert Linked(head, s, i - 1);
      visited := visited + [ptr];
      ptr := if ptr.prev != head then ptr.prev else null;
    }
  }
}
