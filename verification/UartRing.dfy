/** The receive ring of the serial driver. */
module UartRing {
  // Filled by the interrupt handler and emptied by readers, it is a queue of at most 255 bytes.

  import opened Words

  type byte = x: nat | x < 256

  const SIZE: nat := 256

  /** What the hardware's FIFO holds: good characters, and ones received with an error. */
  datatype Item = Good(b: byte) | Bad

  // ------------------------------------------------------------------ the queue

  /** The queue the ring stands for, and the number of characters lost because it was full. */
  datatype Fifo = Fifo(queue: seq<byte>, overflow: nat)

  function Receive(f: Fifo, item: Item): Fifo {
    if item.Bad? then f
    else if |f.queue| == SIZE - 1 then f.(overflow := f.overflow + 1)
    else f.(queue := f.queue + [item.b])
  }

  function ReceiveAll(f: Fifo, items: seq<Item>): Fifo
    decreases items
  {
    if items == [] then f else Receive(ReceiveAll(f, items[..|items| - 1]), items[|items| - 1])
  }

  function GetC(f: Fifo): (Fifo, Option<byte>) {
    if f.queue == [] then (f, None) else (f.(queue := f.queue[1..]), Some(f.queue[0]))
  }

  // ------------------------------------------------------------------ runs

  /** The interrupt handler finds some characters; a reader asks for one; the ring is cleared. */
  datatype Event = Interrupt(items: seq<Item>) | Reader | Clear

  function Handle(f: Fifo, e: Event): Fifo {
    match e
    case Interrupt(items) => ReceiveAll(f, items)
    case Reader => GetC(f).0
    case Clear => f.(queue := [])
  }

  /** The byte an event hands to a reader, if any. */
  function Handed(f: Fifo, e: Event): seq<byte> {
    if e.Reader? && GetC(f).1.Some? then [GetC(f).1.value] else []
  }

  function Run(f: Fifo, events: seq<Event>): Fifo
    decreases |events|
  {
    if events == [] then f else Run(Handle(f, events[0]), events[1..])
  }

  /** Everything readers get, in order. */
  function Delivered(f: Fifo, events: seq<Event>): seq<byte>
    decreases |events|
  {
    if events == [] then [] else Handed(f, events[0]) + Delivered(Handle(f, events[0]), events[1..])
  }

  function GoodBytes(items: seq<Item>): seq<byte>
    decreases items
  {
    if items == [] then []
    else GoodBytes(items[..|items| - 1]) + if items[|items| - 1].Good? then [items[|items| - 1].b] else []
  }

  /** The bytes of some items that find room. */
  function Taken(f: Fifo, items: seq<Item>): seq<byte>
    decreases items
  {
    if items == [] then []
    else
      var (before, last) := (items[..|items| - 1], items[|items| - 1]);
      Taken(f, before) + if last.Good? && |ReceiveAll(f, before).queue| != SIZE - 1 then [last.b] else []
  }

  /** Everything the handler puts into the ring, in order. */
  function Accepted(f: Fifo, events: seq<Event>): seq<byte>
    decreases |events|
  {
    if events == [] then []
    else (if events[0].Interrupt? then Taken(f, events[0].items) else [])
         + Accepted(Handle(f, events[0]), events[1..])
  }

  /** Error-free characters received. */
  function Received(events: seq<Event>): nat
    decreases |events|
  {
    if events == [] then 0
    else (if events[0].Interrupt? then |GoodBytes(events[0].items)| else 0) + Received(events[1..])
  }

  /** Characters thrown away by clearing. */
  function Cleared(f: Fifo, events: seq<Event>): nat
    decreases |events|
  {
    if events == [] then 0
    else (if events[0].Clear? then |f.queue| else 0) + Cleared(Handle(f, events[0]), events[1..])
  }

  /** One interrupt appends what it takes and counts what it loses. */
  lemma {:induction false} InterruptAppends(f: Fifo, items: seq<Item>)
    requires |f.queue| < SIZE
    ensures var g := ReceiveAll(f, items);
            && g.queue == f.queue + Taken(f, items) && |g.queue| < SIZE
            && g.overflow + |Taken(f, items)| == f.overflow + |GoodBytes(items)|
    decreases items
  {
    if items != [] {
      InterruptAppends(f, items[..|items| - 1]);
    }
  }

  /** First in, first out: without clearing, what readers got followed by what is left is what was
      there at first followed by what was put in: nothing lost, repeated or out of order. */
  lemma {:induction false} FirstInFirstOut(f: Fifo, events: seq<Event>)
    requires |f.queue| < SIZE && Clear !in events
    ensures f.queue + Accepted(f, events) == Delivered(f, events) + Run(f, events).queue
    decreases |events|
  {
    if events == [] {
      assert f.queue + [] == [] + f.queue;
    } else {
      var (e, rest) := (events[0], events[1..]);
      assert e in events;
      var g := Handle(f, e);
      if e.Interrupt? {
        InterruptAppends(f, e.items);
      }
      FirstInFirstOut(g, rest);
      hide ReceiveAll, Taken, Run, GoodBytes;
      FirstStep(f, e, Accepted(g, rest), Delivered(g, rest), Run(g, rest).queue);
      RunOne(f, events);
    }
  }

  lemma RunOne(f: Fifo, events: seq<Event>)
    requires events != []
    ensures Run(f, events) == Run(Handle(f, events[0]), events[1..])
    ensures Delivered(f, events) == Handed(f, events[0]) + Delivered(Handle(f, events[0]), events[1..])
    ensures Accepted(f, events)
            == (if events[0].Interrupt? then Taken(f, events[0].items) else [])
               + Accepted(Handle(f, events[0]), events[1..])
  {
  }

  lemma FirstStep(f: Fifo, e: Event, put: seq<byte>, got: seq<byte>, left: seq<byte>)
    requires !e.Clear? && Handle(f, e).queue + put == got + left
    requires e.Interrupt? ==> Handle(f, e).queue == f.queue + Taken(f, e.items)
    ensures f.queue + ((if e.Interrupt? then Taken(f, e.items) else []) + put) == (Handed(f, e) + got) + left
  {
    hide Taken, ReceiveAll;
    if e.Interrupt? {
      assert f.queue + (Taken(f, e.items) + put) == (f.queue + Taken(f, e.items)) + put;
      assert ([] + got) + left == got + left;
    } else if f.queue != [] {
      assert f.queue == [f.queue[0]] + f.queue[1..];
      assert f.queue + ([] + put) == [f.queue[0]] + (f.queue[1..] + put);
      assert ([f.queue[0]] + got) + left == [f.queue[0]] + (got + left);
    } else {
      assert [] + put == put;
    }
  }

  /** Conservation: every error-free character received is delivered, still buffered, counted as
      overflow, or cleared. */
  lemma {:induction false} Conservation(f: Fifo, events: seq<Event>)
    requires |f.queue| < SIZE
    ensures var g := Run(f, events);
            && |f.queue| + f.overflow + Received(events)
               == |Delivered(f, events)| + |g.queue| + g.overflow + Cleared(f, events)
            && |g.queue| < SIZE
    decreases |events|
  {
    if events != [] {
      if events[0].Interrupt? {
        InterruptAppends(f, events[0].items);
      }
      Conservation(Handle(f, events[0]), events[1..]);
    }
  }

  // ------------------------------------------------------------------ the ring

  /** The bytes from the tail up to the head, going round. */
  function Between(data: seq<byte>, head: nat, tail: nat): (q: seq<byte>)
    requires |data| == SIZE && head < SIZE && tail < SIZE
    ensures |q| == (head + SIZE - tail) % SIZE && |q| < SIZE
  {
    seq((head + SIZE - tail) % SIZE, i requires 0 <= i < (head + SIZE - tail) % SIZE => data[(tail + i) % SIZE])
  }

  lemma Stored(data: seq<byte>, head: nat, tail: nat, b: byte)
    requires |data| == SIZE && head < SIZE && tail < SIZE && (head + 1) % SIZE != tail
    ensures Between(data[head := b], (head + 1) % SIZE, tail) == Between(data, head, tail) + [b]
  {
    var (q, r) := (Between(data, head, tail), Between(data[head := b], (head + 1) % SIZE, tail));
    assert |r| == |q| + 1;
    forall i | 0 <= i < |r|
      ensures r[i] == (q + [b])[i]
    {
      if i < |q| {
        assert (tail + i) % SIZE != head;
      } else {
        assert (tail + i) % SIZE == head;
      }
    }
  }

  lemma Full(data: seq<byte>, head: nat, tail: nat)
    requires |data| == SIZE && head < SIZE && tail < SIZE
    ensures (head + 1) % SIZE == tail <==> |Between(data, head, tail)| == SIZE - 1
    ensures head == tail <==> Between(data, head, tail) == []
  {
  }

  lemma Removed(data: seq<byte>, head: nat, tail: nat)
    requires |data| == SIZE && head < SIZE && tail < SIZE && head != tail
    ensures var q := Between(data, head, tail);
            q != [] && q[0] == data[tail] && Between(data, head, (tail + 1) % SIZE) == q[1..]
  {
    var (q, r) := (Between(data, head, tail), Between(data, head, (tail + 1) % SIZE));
    assert |q| == |r| + 1;
    forall i | 0 <= i < |r|
      ensures r[i] == q[1..][i]
    {
      assert ((tail + 1) % SIZE + i) % SIZE == (tail + (i + 1)) % SIZE;
    }
  }

  class UartRx {
    const data: array<byte>
    var head: nat
    var tail: nat
    var overflow: nat
    var fireCount: nat

    ghost predicate Valid()
      reads this
    {
      data.Length == SIZE && head < SIZE && tail < SIZE
    }

    function View(): Fifo
      requires Valid()
      reads this, data
    {
      Fifo(Between(data[..], head, tail), overflow)
    }

    constructor ()
      ensures Valid() && View() == Fifo([], 0) && fresh(data)
    {
      data := new byte[SIZE](_ => 0);
      head, tail, overflow, fireCount := 0, 0, 0, 0;
    }

    /** One good character: stored, or counted as lost when the ring is full. */
    method Store(ch: byte)
      requires Valid()
      modifies this, data
      ensures Valid() && View() == Receive(old(View()), Good(ch)) && tail == old(tail) && fireCount == old(fireCount)
    {
      hide Between;
      Full(data[..], head, tail);
      var nextHead := (head + 1) % SIZE;
      if nextHead == tail {
        overflow := overflow + 1;
        return;
      }
      Stored(data[..], head, tail, ch);
      assert data[..][head := ch] == data[..head] + [ch] + data[head + 1..];
      data[head] := ch;
      head := nextHead;
    }

    /** The handler reads the FIFO until it is empty; characters with errors are dropped. */
    method RxIrqHandler(pending: bool, items: seq<Item>)
      requires Valid()
      modifies this, data
      ensures Valid() && View() == (if pending then ReceiveAll(old(View()), items) else old(View()))
              && tail == old(tail)
    {
      fireCount := fireCount + 1;
      if !pending {
        return;
      }
      hide Between;
      ghost var f := View();
      for i := 0 to |items|
        invariant Valid() && View() == ReceiveAll(f, items[..i]) && tail == old(tail)
      {
        assert items[..i + 1][..i] == items[..i];
        if items[i].Good? {
          Store(items[i].b);
        }
      }
      assert items[..|items|] == items;
    }

    /** Interrupts are masked while the ring is read. */
    method GetChar() returns (c: Option<byte>)
      requires Valid()
      modifies `tail
      ensures Valid() && (View(), c) == GetC(old(View()))
    {
      hide Between;
      Full(data[..], head, tail);
      if head == tail {
        return None;
      }
      Removed(data[..], head, tail);
      c := Some(data[tail]);
      tail := (tail + 1) % SIZE;
    }

    method ClearRing()
      requires Valid()
      modifies `head, `tail
      ensures Valid() && View() == Handle(old(View()), Clear)
    {
      head, tail := 0, 0;
    }

    /** Reads the head, may be interrupted, then reads the tail: what it answers can be read. */
    method RxAvailable(interrupted: bool, items: seq<Item>) returns (n: int)
      requires Valid()
      modifies this, data
      ensures Valid() && View() == (if interrupted then ReceiveAll(old(View()), items) else old(View()))
      ensures n == |old(View()).queue| && n <= |View().queue|
    {
      var h := head;
      ghost var f := View();
      InterruptAppends(f, items);
      if interrupted {
        RxIrqHandler(true, items);
      }
      var t := tail;
      n := if h >= t then h - t else SIZE - t + h;
    }
  }
}
