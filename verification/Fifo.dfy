/** The 16-byte ring buffers of the UART, against plain queues. */
module Fifo {
  import opened Words

  const DEPTH: nat := 16

  /** One clock edge of a bounded queue: a push into a full queue is dropped, even when an entry leaves in
      the same cycle; a pop from an empty queue does nothing. */
  function Next(q: seq<Byte>, push: bool, data: Byte, pop: bool): seq<Byte> {
    (if pop && q != [] then q[1..] else q) + (if push && |q| < DEPTH then [data] else [])
  }

  /** Five-bit pointers; the low four bits address the buffer. */
  type Pointer = p: int | 0 <= p < 32

  function Advance(p: Pointer): Pointer {
    if p == 31 then 0 else p + 1
  }

  function Slot(p: Pointer): (i: nat)
    ensures i < DEPTH
  {
    if p < 16 then p else p - 16
  }

  /** The pointer n entries further. */
  function Ahead(p: Pointer, n: Pointer): Pointer {
    if p + n < 32 then p + n else p + n - 32
  }

  /** The n entries from a pointer on. */
  function Window(mem: seq<Byte>, p: Pointer, n: Pointer): (w: seq<Byte>)
    requires |mem| == DEPTH
    ensures |w| == n
    ensures n > 0 ==> w[0] == mem[Slot(p)]
    decreases n
  {
    if n == 0 then [] else [mem[Slot(p)]] + Window(mem, Advance(p), n - 1)
  }

  /** Writing behind a window that is not full extends it. */
  lemma {:induction false} WindowPush(mem: seq<Byte>, p: Pointer, n: Pointer, data: Byte)
    requires |mem| == DEPTH && n < DEPTH
    ensures Window(mem[Slot(Ahead(p, n)) := data], p, n + 1) == Window(mem, p, n) + [data]
    decreases n
  {
    var at := Slot(Ahead(p, n));
    if n > 0 {
      assert Ahead(Advance(p), n - 1) == Ahead(p, n);
      assert Slot(p) != at;
      WindowPush(mem, Advance(p), n - 1, data);
    } else {
      assert Ahead(p, 0) == p;
      assert Window(mem[at := data], Advance(p), 0) == [];
    }
  }

  lemma WindowPop(mem: seq<Byte>, p: Pointer, n: Pointer)
    requires |mem| == DEPTH && n > 0
    ensures Window(mem, Advance(p), n - 1) == Window(mem, p, n)[1..]
  {
  }

  /** Moving the pointers, and writing behind the window, is one clock edge of the queue. */
  lemma WindowNext(mem: seq<Byte>, p: Pointer, n: Pointer, push: bool, data: Byte, pop: bool)
    requires |mem| == DEPTH && n <= DEPTH
    ensures var pushes, pops := push && n < DEPTH, pop && n > 0;
            Next(Window(mem, p, n), push, data, pop)
            == Window(if pushes then mem[Slot(Ahead(p, n)) := data] else mem,
                      if pops then Advance(p) else p,
                      n + (if pushes then 1 else 0) - (if pops then 1 else 0))
  {
    if push && n < DEPTH {
      WindowPush(mem, p, n, data);
      WindowPop(mem[Slot(Ahead(p, n)) := data], p, n + 1);
    }
    if n > 0 {
      WindowPop(mem, p, n);
    }
  }

  class RingBuffer {
    const mem: array<Byte>
    var wrPtr: Pointer
    var rdPtr: Pointer
    var count: Pointer

    ghost predicate Valid()
      reads this
    {
      mem.Length == DEPTH && count <= DEPTH && wrPtr == Ahead(rdPtr, count)
    }

    /** The queue the buffer stands for. */
    ghost function Contents(): (q: seq<Byte>)
      reads this, mem
      requires Valid()
      ensures |q| == count
    {
      Window(mem[..], rdPtr, count)
    }

    constructor ()
      ensures Valid() && fresh(mem) && Contents() == []
    {
      mem := new Byte[DEPTH];
      wrPtr, rdPtr, count := 0, 0, 0;
    }

    /** The read port; on an empty queue it shows whatever the buffer holds there. */
    function Front(): (b: Byte)
      reads this, mem
      requires Valid()
      ensures Contents() != [] ==> b == Contents()[0]
    {
      mem[Slot(rdPtr)]
    }

    method Clock(push: bool, data: Byte, pop: bool)
      requires Valid()
      modifies this, mem
      ensures Valid() && Contents() == Next(old(Contents()), push, data, pop)
    {
      var pushes, pops := push && count != DEPTH, pop && count != 0;
      WindowNext(mem[..], rdPtr, count, push, data, pop);
      if pushes {
        mem[Slot(wrPtr)] := data;
        wrPtr := Advance(wrPtr);
      }
      if pops {
        rdPtr := Advance(rdPtr);
      }
      if pushes && !pops {
        count := count + 1;
      } else if pops && !pushes {
        count := count - 1;
      }
    }
  }
}
