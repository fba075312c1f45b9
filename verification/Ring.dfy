/** The circular buffer that both the byte-level queue and the multi-threaded
    queue work on: head, tail and length over a fixed block of slots
    (src/arch/posix/lsp_queue.c). */
module Ring {

  /** `length` is an int because the source's counter is signed: a pop from an
      empty ring drives it below zero. */
  datatype Ring<T> = Ring(slots: seq<T>, head: nat, tail: nat, length: int)
  {
    ghost predicate Valid() {
      if |slots| == 0 then head == 0 && tail == 0 && length == 0
      else head < |slots| && 0 <= length <= |slots| && tail == (head + length) % |slots|
    }

    predicate CursorsInRange() {
      head < |slots| && tail < |slots|
    }

    /** The queued elements, oldest first. */
    ghost function Contents(): (c: seq<T>)
      requires Valid()
      ensures |c| == length
    {
      seq(length, i requires 0 <= i < length => slots[(head + i) % |slots|])
    }

    /** Copy into the tail slot and advance the tail. */
    function Put(x: T): Ring<T>
      requires CursorsInRange()
    {
      Ring(slots[tail := x], head, (tail + 1) % |slots|, length + 1)
    }

    /** Advance the head past the oldest slot. */
    function Take(): Ring<T>
      requires CursorsInRange()
    {
      Ring(slots, (head + 1) % |slots|, tail, length - 1)
    }

    function Reset(): Ring<T> {
      Ring(slots, 0, 0, 0)
    }
  }

  lemma Wrap(a: nat, n: nat)
    requires 0 < n && a < 2 * n
    ensures a % n == if a < n then a else a - n
  {
  }

  /** Putting appends to the contents and leaves every queued element alone, across the wrap. */
  lemma PutAppends<T>(r: Ring<T>, x: T)
    requires r.Valid() && r.length < |r.slots|
    ensures r.CursorsInRange() && r.Put(x).Valid()
    ensures r.Put(x).Contents() == r.Contents() + [x]
  {
    var n := |r.slots|;
    Wrap(r.head + r.length, n);
    Wrap(r.tail + 1, n);
    Wrap(r.head + r.length + 1, n);
    forall i | 0 <= i <= r.length
      ensures r.Put(x).Contents()[i] == (r.Contents() + [x])[i]
    {
      Wrap(r.head + i, n);
    }
  }

  /** Taking removes exactly the oldest element, which is the one in the head slot. */
  lemma TakeRemovesOldest<T>(r: Ring<T>)
    requires r.Valid() && 0 < r.length
    ensures r.CursorsInRange() && r.Take().Valid()
    ensures r.Contents() == [r.slots[r.head]] + r.Take().Contents()
  {
    var n := |r.slots|;
    Wrap(r.head, n);
    Wrap(r.head + r.length, n);
    Wrap(r.head + 1, n);
    var t := r.Take();
    Wrap(t.head + t.length, n);
    forall i | 0 <= i < r.length
      ensures r.Contents()[i] == ([r.slots[r.head]] + t.Contents())[i]
    {
      Wrap(r.head + i, n);
      if 0 < i { Wrap(t.head + (i - 1), n); }
    }
  }
}
