/** The queue's storage as the source lays it out: one block of bytes holding the
    control block and then `queue_size` slots of `itemsize` bytes, a stride apart
    (src/arch/posix/lsp_queue.c). */
module ByteLayout {
  import opened LspTypes

  /** LSP_QUEUE_ALIGNMEM off and on. */
  datatype Layout = Packed | Aligned

  function Stride(layout: Layout, itemsize: nat): (stride: nat)
    ensures itemsize <= stride
  {
    if layout.Packed? then itemsize else AlignedSize(itemsize)
  }

  /** No layout wastes a byte: packed slots touch, aligned slots are the least whole
      number of words apart that holds an item. */
  lemma StrideIsLeast(layout: Layout, itemsize: nat, other: nat)
    ensures layout.Packed? ==> Stride(layout, itemsize) == itemsize
    ensures layout.Aligned? ==> Stride(layout, itemsize) % POINTER_SIZE == 0
    ensures layout.Aligned? && itemsize <= other && other % POINTER_SIZE == 0 ==> Stride(layout, itemsize) <= other
  {
    AlignedSizeIsLeastMultiple(itemsize, other);
  }

  /** ENTRY_FIND, as an offset into the block. */
  function SlotAt(base: nat, stride: nat, i: nat): nat {
    base + i * stride
  }

  /** Every slot lies inside the block. */
  lemma SlotInBlock(base: nat, stride: nat, itemsize: nat, n: nat, i: nat)
    requires itemsize <= stride && i < n
    ensures base <= SlotAt(base, stride, i) <= SlotAt(base, stride, i) + itemsize <= base + n * stride
  {
    assert (i + 1) * stride <= n * stride;
  }

  /** Distinct slots do not overlap. */
  lemma SlotsDisjoint(base: nat, stride: nat, itemsize: nat, i: nat, j: nat)
    requires itemsize <= stride && i < j
    ensures SlotAt(base, stride, i) + itemsize <= SlotAt(base, stride, j)
  {
    assert (i + 1) * stride <= j * stride;
  }

  /** The records a block holds, slot by slot. */
  ghost function Cut(block: seq<byte>, base: nat, stride: nat, itemsize: nat, n: nat): (slots: seq<Record>)
    requires itemsize <= stride && base + n * stride <= |block|
    ensures |slots| == n
  {
    seq(n, i requires 0 <= i < n =>
      SlotInBlock(base, stride, itemsize, n, i);
      block[SlotAt(base, stride, i)..SlotAt(base, stride, i) + itemsize])
  }

  /** Writing a record over slot k replaces record k and no byte of any other record. */
  lemma WriteOneSlot(before: seq<byte>, after: seq<byte>, base: nat, stride: nat, itemsize: nat, n: nat, k: nat,
                     x: Record)
    requires itemsize <= stride && base + n * stride <= |before| && |after| == |before| && k < n && |x| == itemsize
    requires SlotAt(base, stride, k) + itemsize <= |before|
    requires after == before[..SlotAt(base, stride, k)] + x + before[SlotAt(base, stride, k) + itemsize..]
    ensures Cut(after, base, stride, itemsize, n) == Cut(before, base, stride, itemsize, n)[k := x]
  {
    var at := SlotAt(base, stride, k);
    forall i | 0 <= i < n
      ensures Cut(after, base, stride, itemsize, n)[i] == Cut(before, base, stride, itemsize, n)[k := x][i]
    {
      SlotInBlock(base, stride, itemsize, n, i);
      var o := SlotAt(base, stride, i);
      if i < k {
        SlotsDisjoint(base, stride, itemsize, i, k);
        assert after[o..o + itemsize] == before[o..o + itemsize];
      } else if k < i {
        SlotsDisjoint(base, stride, itemsize, k, i);
        forall b | o <= b < o + itemsize ensures after[b] == before[b] {
          assert after[b] == before[at + itemsize..][b - (at + itemsize)];
        }
        assert after[o..o + itemsize] == before[o..o + itemsize];
      } else {
        assert after[at..at + itemsize] == x;
      }
    }
  }
}

module ByteQueue {
  import opened LspTypes
  import opened Ring
  import opened ByteLayout

  /** What the surroundings decide about one uncontended call: whether the mutex
      could be locked, the timeout, and how a wait that nobody signals ends. */
  datatype Env = Env(lockOk: bool, timeout: nat, timedOut: bool)

  /** memcpy */
  method CopyBytes(block: array<byte>, at: nat, x: seq<byte>)
    requires at + |x| <= block.Length
    modifies block
    ensures block[..] == old(block[..at]) + x + old(block[at + |x|..])
  {
    ghost var before := block[..];
    for k := 0 to |x|
      invariant block[..] == before[..at] + x[..k] + before[at + k..]
    {
      block[at + k] := x[k];
    }
    assert x[..|x|] == x;
  }

  class Queue {
    const layout: Layout
    const base: nat        // ALIGNED_SIZEOF the control block
    const queueSize: nat
    const itemsize: nat
    const block: array<byte>
    var head: nat
    var tail: nat
    var length: int
    var waitingFull: int
    var waitingEmpty: int

    ghost predicate Valid()
      reads this
    {
      && block.Length == base + queueSize * Stride(layout, itemsize)
      && (if queueSize == 0 then head == 0 && tail == 0 && length == 0
          else head < queueSize && 0 <= length <= queueSize && tail == (head + length) % queueSize)
    }

    /** The ring of records that the bytes stand for. */
    ghost function Abstract(): (r: Ring<Record>)
      requires Valid()
      reads this, block
      ensures r.Valid() && |r.slots| == queueSize
    {
      Ring(Cut(block[..], base, Stride(layout, itemsize), itemsize, queueSize), head, tail, length)
    }

    ghost function Contents(): seq<Record>
      requires Valid()
      reads this, block
    {
      Abstract().Contents()
    }

    /** lsp_queue_create: `controlSize` is the size of the control block. */
    constructor (layout: Layout, controlSize: nat, queueSize: nat, itemsize: nat)
      ensures Valid() && fresh(block) && Contents() == []
      ensures this.layout == layout && this.queueSize == queueSize && this.itemsize == itemsize
      ensures waitingFull == 0 && waitingEmpty == 0
    {
      this.layout, this.base, this.queueSize, this.itemsize := layout, AlignedSize(controlSize), queueSize, itemsize;
      head, tail, length, waitingFull, waitingEmpty := 0, 0, 0, 0, 0;
      block := new byte[AlignedSize(controlSize) + queueSize * Stride(layout, itemsize)](_ => 0);
    }

    /** memcpy into the slot at the tail. */
    method CopyIn(x: Record)
      requires Valid() && tail < queueSize && |x| == itemsize
      modifies block
      ensures Valid()
      ensures Abstract() == old(Abstract()).(slots := old(Abstract()).slots[tail := x])
    {
      SlotInBlock(base, Stride(layout, itemsize), itemsize, queueSize, tail);
      var at := SlotAt(base, Stride(layout, itemsize), tail);
      ghost var before := block[..];
      CopyBytes(block, at, x);
      WriteOneSlot(before, block[..], base, Stride(layout, itemsize), itemsize, queueSize, tail, x);
    }

    /** memcpy out of the slot at the head. */
    method CopyOut() returns (x: Record)
      requires Valid() && head < queueSize
      ensures x == Abstract().slots[head] && |x| == itemsize
    {
      SlotInBlock(base, Stride(layout, itemsize), itemsize, queueSize, head);
      var at := SlotAt(base, Stride(layout, itemsize), head);
      x := block[at..at + itemsize];
    }

    method Push(x: Record, env: Env) returns (rc: int)
      requires Valid() && |x| == itemsize
      modifies this, block
      ensures Valid()
      ensures !env.lockOk <==> rc == LSP_ERR_MUTEX
      ensures env.lockOk && |old(Contents())| < queueSize <==> rc == LSP_ERR_NONE
      ensures env.lockOk && |old(Contents())| == queueSize && env.timeout == 0 <==> rc == LSP_ERR_QUEUE_FULL
      ensures env.lockOk && |old(Contents())| == queueSize && env.timeout > 0 ==>
                rc == if env.timedOut then LSP_ERR_TIMEOUT else LSP_ERR_INVALID
      ensures Contents() == if rc == LSP_ERR_NONE then old(Contents()) + [x] else old(Contents())
      ensures waitingFull == old(waitingFull) && waitingEmpty == old(waitingEmpty)
    {
      if !env.lockOk { return LSP_ERR_MUTEX; }
      if length >= queueSize {
        if env.timeout > 0 {
          waitingFull := waitingFull + 1;
          rc := if env.timedOut then LSP_ERR_TIMEOUT else LSP_ERR_INVALID;
          waitingFull := waitingFull - 1;
        } else {
          rc := LSP_ERR_QUEUE_FULL;
        }
        return;
      }
      PutAppends(Abstract(), x);
      CopyIn(x);
      tail := (tail + 1) % queueSize;
      length := length + 1;
      assert Abstract() == old(Abstract()).Put(x);
      rc := LSP_ERR_NONE;
    }

    method Pop(env: Env) returns (rc: int, x: Record)
      requires Valid()
      modifies this
      ensures Valid()
      ensures !env.lockOk <==> rc == LSP_ERR_MUTEX
      ensures env.lockOk && old(Contents()) != [] <==> rc == LSP_ERR_NONE
      ensures env.lockOk && old(Contents()) == [] && env.timeout == 0 <==> rc == LSP_ERR_QUEUE_EMPTY
      ensures env.lockOk && old(Contents()) == [] && env.timeout > 0 ==>
                rc == if env.timedOut then LSP_ERR_TIMEOUT else LSP_ERR_INVALID
      ensures rc == LSP_ERR_NONE ==> old(Contents()) == [x] + Contents() && |x| == itemsize
      ensures rc != LSP_ERR_NONE ==> x == [] && Contents() == old(Contents())
      ensures waitingFull == old(waitingFull) && waitingEmpty == old(waitingEmpty)
    {
      x := [];
      if !env.lockOk { return LSP_ERR_MUTEX, []; }
      if length <= 0 {
        if env.timeout > 0 {
          waitingEmpty := waitingEmpty + 1;
          rc := if env.timedOut then LSP_ERR_TIMEOUT else LSP_ERR_INVALID;
          waitingEmpty := waitingEmpty - 1;
        } else {
          rc := LSP_ERR_QUEUE_EMPTY;
        }
        return;
      }
      TakeRemovesOldest(Abstract());
      x := CopyOut();
      head := (head + 1) % queueSize;
      length := length - 1;
      assert Abstract() == old(Abstract()).Take();
      rc := LSP_ERR_NONE;
    }

    method Clear() returns (rc: int)
      requires Valid()
      modifies this
      ensures Valid()
      ensures rc == if old(waitingEmpty != 0 || waitingFull != 0) then LSP_ERR_RESOURCE_IN_USE else LSP_ERR_NONE
      ensures Contents() == if rc == LSP_ERR_NONE then [] else old(Contents())
      ensures waitingFull == old(waitingFull) && waitingEmpty == old(waitingEmpty)
    {
      if waitingEmpty != 0 || waitingFull != 0 { return LSP_ERR_RESOURCE_IN_USE; }
      head, tail, length := 0, 0, 0;
      assert Abstract() == old(Abstract()).Reset();
      rc := LSP_ERR_NONE;
    }
  }

  datatype Command = DoPush(x: Record, env: Env) | DoPop(env: Env) | DoClear

  datatype Outcome = Outcome(rc: int, x: Record)

  /** The two layouts cannot be told apart: queues of the same shape that hold the
      same records answer any sequence of calls alike, byte for byte. */
  method RunBoth(p: Queue, q: Queue, commands: seq<Command>) returns (fromP: seq<Outcome>, fromQ: seq<Outcome>)
    requires p != q && p.block != q.block && p.Valid() && q.Valid()
    requires p.queueSize == q.queueSize && p.itemsize == q.itemsize && p.Contents() == q.Contents()
    requires p.waitingFull == q.waitingFull && p.waitingEmpty == q.waitingEmpty
    requires forall c | c in commands :: c.DoPush? ==> |c.x| == p.itemsize
    modifies p, p.block, q, q.block
    ensures p.Valid() && q.Valid() && p.Contents() == q.Contents()
    ensures fromP == fromQ && |fromP| == |commands|
  {
    fromP, fromQ := [], [];
    for i := 0 to |commands|
      invariant p.Valid() && q.Valid() && p.Contents() == q.Contents()
      invariant p.waitingFull == q.waitingFull && p.waitingEmpty == q.waitingEmpty
      invariant fromP == fromQ && |fromP| == i
    {
      var rc1, rc2, x1, x2 := 0, 0, [], [];
      match commands[i] {
        case DoPush(x, env) =>
          assert commands[i] in commands;
          rc1 := p.Push(x, env);
          rc2 := q.Push(x, env);
        case DoPop(env) =>
          rc1, x1 := p.Pop(env);
          rc2, x2 := q.Pop(env);
          assert rc1 == LSP_ERR_NONE ==> x1 == ([x1] + p.Contents())[0] && p.Contents() == ([x1] + p.Contents())[1..];
          assert rc2 == LSP_ERR_NONE ==> x2 == ([x2] + q.Contents())[0] && q.Contents() == ([x2] + q.Contents())[1..];
        case DoClear =>
          rc1 := p.Clear();
          rc2 := q.Clear();
      }
      fromP, fromQ := fromP + [Outcome(rc1, x1)], fromQ + [Outcome(rc2, x2)];
    }
  }
}
