/** The packet buffer: four cursors over one block, and two counters that repeat
    what the cursors say (src/lsp_buffer.c). */
module PacketCursors {
  import opened LspTypes

  const LSP_DEFAULT_BUFFER_HEADER_LEN: nat := 8

  /** The cursors as offsets into the allocated block. */
  datatype Cursors = Cursors(head: int, data: int, tail: int, end: int, headroom: int, tailroom: int)
  {
    /** lsp_buffer_length */
    function Length(): int { tail - data }
  }

  /** lsp_buffer_alloc for `len` payload bytes behind a control block of `structSize`;
      the interface, if there is one, names its header length. */
  function Alloc(structSize: nat, minHeaderLen: Option<nat>, len: nat): Cursors {
    var headroom := if minHeaderLen.Some? then minHeaderLen.value else LSP_DEFAULT_BUFFER_HEADER_LEN;
    var head := AlignedSize(structSize);
    Cursors(head, head + headroom, head + headroom, head + len + headroom, headroom, len)
  }

  /** lsp_buffer_put: the cursors afterwards, and the pointer returned (None for NULL). */
  function Put(c: Cursors, len: nat): (Cursors, Option<int>) {
    if c.tailroom < len then (c, None)
    else (c.(tailroom := c.tailroom - len, tail := c.tail + len), Some(c.tail))
  }

  /** lsp_buffer_push */
  function Push(c: Cursors, len: nat): (Cursors, Option<int>) {
    if c.headroom < len then (c, None)
    else (c.(headroom := c.headroom - len, data := c.data - len), Some(c.data - len))
  }

  function Clip(c: Cursors, len: nat): int {
    if c.tail - c.data < len then c.tail - c.data else len
  }

  /** lsp_buffer_pull, with the branch that adjusts the tail. */
  function Pull(c: Cursors, len: nat): (Cursors, int) {
    var n := Clip(c, len);
    var moved := c.(data := c.data + n, headroom := c.headroom + n);
    if moved.data > moved.tail
    then (moved.(tailroom := moved.tailroom - (moved.data - moved.tail), tail := moved.data), c.data)
    else (moved, c.data)
  }

  ghost predicate Consistent(c: Cursors) {
    c.head <= c.data <= c.tail <= c.end && c.headroom == c.data - c.head && c.tailroom == c.end - c.tail
  }

  datatype Op = DoPut(len: nat) | DoPush(len: nat) | DoPull(len: nat)

  function Apply(c: Cursors, op: Op): Cursors {
    match op
    case DoPut(len) => Put(c, len).0
    case DoPush(len) => Push(c, len).0
    case DoPull(len) => Pull(c, len).0
  }

  function Run(c: Cursors, ops: seq<Op>): Cursors {
    if ops == [] then c else Apply(Run(c, ops[..|ops| - 1]), ops[|ops| - 1])
  }

  /** The bytes that succeeding puts have appended. */
  function PutTotal(c: Cursors, ops: seq<Op>): nat {
    if ops == [] then 0
    else
      var before, op := ops[..|ops| - 1], ops[|ops| - 1];
      PutTotal(c, before) + (if op.DoPut? && Put(Run(c, before), op.len).1.Some? then op.len else 0)
  }

  /** After any sequence of calls the cursors are in order, both counters agree with
      them, the capacity is conserved, and the tail has moved by the puts alone. */
  lemma {:induction false} AlwaysConsistent(structSize: nat, minHeaderLen: Option<nat>, len: nat, ops: seq<Op>)
    ensures var first := Alloc(structSize, minHeaderLen, len);
            var c := Run(first, ops);
            && Consistent(c) && c.head == first.head && c.end == first.end
            && c.headroom + c.Length() + c.tailroom == first.headroom + first.tailroom
            && c.tail == first.tail + PutTotal(first, ops)
  {
    if ops != [] {
      AlwaysConsistent(structSize, minHeaderLen, len, ops[..|ops| - 1]);
    }
  }

  /** The branch of pull that adjusts the tail is never taken, whatever the cursors. */
  lemma TailAdjustUnreachable(c: Cursors, n: nat)
    ensures !(c.data + Clip(c, n) > c.tail) && Pull(c, n).0.tail == c.tail && Pull(c, n).0.tailroom == c.tailroom
  {
  }

  /** A push that succeeds is undone by the pull of as much; a pull within the
      length is undone by the push of as much, which cannot fail. */
  lemma PushPullInverse(c: Cursors, n: nat)
    requires Consistent(c)
    ensures Push(c, n).1.Some? ==> Pull(Push(c, n).0, n).0 == c
    ensures n <= c.Length() ==> Push(Pull(c, n).0, n) == (c, Some(c.data))
  {
  }

  /** Header room, packet and payload room, one after the other from the first word
      boundary behind the control block. */
  lemma AllocLayout(structSize: nat, minHeaderLen: Option<nat>, len: nat)
    ensures var c := Alloc(structSize, minHeaderLen, len);
            && structSize <= c.head < structSize + POINTER_SIZE && c.head % POINTER_SIZE == 0
            && c.headroom == (if minHeaderLen.Some? then minHeaderLen.value else LSP_DEFAULT_BUFFER_HEADER_LEN)
            && c.tailroom == len && c.data == c.tail == c.head + c.headroom && c.end == c.tail + len
  {
    AlignedSizeIsLeastMultiple(structSize, (structSize + POINTER_SIZE - 1) / POINTER_SIZE * POINTER_SIZE);
  }

  /** Pull returns where the bytes are that it takes away: the old data pointer, and
      the new one lies behind them. */
  lemma PullReturnsTheRemoved(c: Cursors, n: nat)
    requires Consistent(c)
    ensures Pull(c, n).1 == c.data
    ensures Pull(c, n).0.data == c.data + if n <= c.tail - c.data then n else c.tail - c.data
  {
  }

  /** Two pulls are one, clipped as one. */
  lemma PullsCompose(c: Cursors, m: nat, n: nat)
    requires Consistent(c)
    ensures Pull(Pull(c, m).0, n).0 == Pull(c, m + n).0
  {
  }
}

module PacketBuffer {
  import opened LspTypes
  import opened PacketCursors

  /** The packet as its users see it: a byte sequence with room on either side. */
  datatype Packet = Packet(content: seq<byte>, front: nat, back: nat)

  datatype Command = Append(bytes: seq<byte>) | Prepend(bytes: seq<byte>) | Drop(n: nat)

  function After(p: Packet, command: Command): Packet {
    match command
    case Append(bs) => if p.back < |bs| then p else Packet(p.content + bs, p.front, p.back - |bs|)
    case Prepend(bs) => if p.front < |bs| then p else Packet(bs + p.content, p.front - |bs|, p.back)
    case Drop(n) =>
      var k := if |p.content| < n then |p.content| else n;
      Packet(p.content[k..], p.front + k, p.back)
  }

  function AfterAll(p: Packet, commands: seq<Command>): Packet {
    if commands == [] then p else After(AfterAll(p, commands[..|commands| - 1]), commands[|commands| - 1])
  }

  lemma SpliceBehind(was: seq<byte>, data: nat, at: nat, bytes: seq<byte>)
    requires data <= at && at + |bytes| <= |was|
    ensures (was[..at] + bytes + was[at + |bytes|..])[data..at + |bytes|] == was[data..at] + bytes
  {
  }

  lemma SpliceBefore(was: seq<byte>, at: nat, tail: nat, bytes: seq<byte>)
    requires at + |bytes| <= tail <= |was|
    ensures (was[..at] + bytes + was[at + |bytes|..])[at..tail] == bytes + was[at + |bytes|..tail]
  {
  }

  class Buffer {
    const block: array<byte>
    const head: int
    const end: int
    var data: int
    var tail: int
    var headroom: int
    var tailroom: int

    ghost function State(): Cursors
      reads this
    {
      Cursors(head, data, tail, end, headroom, tailroom)
    }

    ghost predicate Valid()
      reads this
    {
      Consistent(State()) && 0 <= head && end == block.Length
    }

    ghost function View(): Packet
      requires Valid()
      reads this, block
    {
      Packet(block[data..tail], headroom, tailroom)
    }

    /** lsp_buffer_alloc */
    constructor (structSize: nat, minHeaderLen: Option<nat>, len: nat)
      ensures Valid() && fresh(block) && State() == Alloc(structSize, minHeaderLen, len)
      ensures View() == Packet([], if minHeaderLen.Some? then minHeaderLen.value else LSP_DEFAULT_BUFFER_HEADER_LEN, len)
    {
      var room := if minHeaderLen.Some? then minHeaderLen.value else LSP_DEFAULT_BUFFER_HEADER_LEN;
      block := new byte[AlignedSize(structSize) + len + room](_ => 0);
      head, end := AlignedSize(structSize), AlignedSize(structSize) + len + room;
      data, tail := AlignedSize(structSize) + room, AlignedSize(structSize) + room;
      headroom, tailroom := room, len;
    }

    method Put(len: nat) returns (p: Option<int>)
      requires Valid()
      modifies this
      ensures Valid() && (State(), p) == PacketCursors.Put(old(State()), len)
    {
      if tailroom < len { return None; }
      p := Some(tail);
      tailroom := tailroom - len;
      tail := tail + len;
    }

    method Push(len: nat) returns (p: Option<int>)
      requires Valid()
      modifies this
      ensures Valid() && (State(), p) == PacketCursors.Push(old(State()), len)
    {
      if headroom < len { return None; }
      headroom := headroom - len;
      data := data - len;
      p := Some(data);
    }

    method Pull(len: nat) returns (p: int)
      requires Valid()
      modifies this
      ensures Valid() && (State(), p) == PacketCursors.Pull(old(State()), len)
      ensures View() == After(old(View()), Drop(len))
      ensures p == old(data) && p <= data && old(View()).content == block[p..data] + View().content
    {
      var n: int := len;
      if tail - data < n { n := tail - data; }
      p := data;
      data := data + n;
      headroom := headroom + n;
      tailroom := if data > tail then tailroom - (data - tail) else tailroom;
      tail := if data > tail then data else tail;
      assert block[p..tail] == block[p..data] + block[data..tail];
    }

    /** What a caller does with the region that put or push gave it. */
    method Fill(at: int, bytes: seq<byte>)
      requires Valid() && data <= at && at + |bytes| <= tail
      modifies block
      ensures block[..] == old(block[..at]) + bytes + old(block[at + |bytes|..])
    {
      for i := 0 to |bytes|
        invariant block[..] == old(block[..at]) + bytes[..i] + old(block[at + i..])
      {
        block[at + i] := bytes[i];
      }
      assert bytes[..|bytes|] == bytes;
    }

    method AppendBytes(bytes: seq<byte>)
      requires Valid()
      modifies this, block
      ensures Valid() && View() == After(old(View()), Append(bytes))
    {
      var p := Put(|bytes|);
      if p.Some? {
        Fill(p.value, bytes);
        SpliceBehind(old(block[..]), data, p.value, bytes);
        assert block[data..tail] == block[..][data..tail];
        assert old(block[data..tail]) == old(block[..])[data..p.value];
      }
    }

    method PrependBytes(bytes: seq<byte>)
      requires Valid()
      modifies this, block
      ensures Valid() && View() == After(old(View()), Prepend(bytes))
    {
      var p := Push(|bytes|);
      if p.Some? {
        Fill(p.value, bytes);
        SpliceBefore(old(block[..]), data, tail, bytes);
        assert block[data..tail] == block[..][data..tail];
        assert old(block[data..tail]) == old(block[..])[data + |bytes|..tail];
      }
    }

    method Do(command: Command)
      requires Valid()
      modifies this, block
      ensures Valid() && View() == After(old(View()), command)
    {
      match command
      case Append(bytes) => AppendBytes(bytes);
      case Prepend(bytes) => PrependBytes(bytes);
      case Drop(n) => var p := Pull(n);
    }

    /** Any sequence of appends, prepends and drops leaves in the buffer exactly what
        it leaves in a byte sequence with the same room. */
    method DoAll(commands: seq<Command>)
      requires Valid()
      modifies this, block
      ensures Valid() && View() == AfterAll(old(View()), commands)
    {
      for i := 0 to |commands|
        invariant Valid() && View() == AfterAll(old(View()), commands[..i])
      {
        Do(commands[i]);
        assert commands[..i + 1][..i] == commands[..i];
      }
      assert commands[..|commands|] == commands;
    }
  }

  /** The room is conserved: what one side loses the content or the other side gains. */
  lemma {:induction false} RoomConserved(p: Packet, commands: seq<Command>)
    ensures var q := AfterAll(p, commands);
            q.front + |q.content| + q.back == p.front + |p.content| + p.back
  {
    if commands != [] {
      RoomConserved(p, commands[..|commands| - 1]);
    }
  }
}
