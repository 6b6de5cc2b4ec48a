/** The ring of messages that both queue programs use, as a value: what each operation
    does to the fields, and what that means for the messages inside. */
module RingBuffer {

  /** `load` messages start at slot `head`; `tail` is the slot the next one goes to. */
  datatype Ring<T> = Ring(buffer: seq<T>, head: int, tail: int, added: int, extracted: int, load: int)

  predicate InShape<T>(q: Ring<T>) {
    && |q.buffer| >= 1
    && 0 <= q.head < |q.buffer|
    && 0 <= q.load <= |q.buffer|
    && q.added - q.extracted == q.load
  }

  /** The state the program relies on. */
  predicate Proper<T>(q: Ring<T>) {
    InShape(q) && q.tail == (q.head + q.load) % |q.buffer|
  }

  /** The state a resize to exactly the current load leaves: `tail` is one slot past the
      end of the buffer, where it stays until something is pushed or the ring resized. */
  predicate Skewed<T>(q: Ring<T>) {
    InShape(q) && q.tail == |q.buffer| && q.head == (|q.buffer| - q.load) % |q.buffer|
  }

  /** The messages waiting, oldest first. */
  function Contents<T>(q: Ring<T>): (messages: seq<T>)
    requires InShape(q)
    ensures |messages| == q.load
  {
    seq(q.load, i requires 0 <= i < q.load => q.buffer[(q.head + i) % |q.buffer|])
  }

  lemma Wrap(x: int, m: int)
    requires 0 <= x < 2 * m
    ensures x % m == if x < m then x else x - m
  {
  }

  function Push<T>(q: Ring<T>, message: T): Ring<T>
    requires 0 <= q.tail < |q.buffer|
  {
    Ring(q.buffer[q.tail := message], q.head, (q.tail + 1) % |q.buffer|, q.added + 1, q.extracted, q.load + 1)
  }

  function Pop<T>(q: Ring<T>): Ring<T>
    requires |q.buffer| > 0
  {
    q.(head := (q.head + 1) % |q.buffer|, extracted := q.extracted + 1, load := q.load - 1)
  }

  /** The live messages go to the front of the new buffer; `rest` is whatever the freshly
      allocated slots behind them hold. */
  function Resize<T>(q: Ring<T>, rest: seq<T>): Ring<T>
    requires InShape(q)
  {
    Ring(Contents(q) + rest, 0, q.load, q.added, q.extracted, q.load)
  }

  /** A push into a ring with room adds at the end and overwrites nothing unread. */
  lemma PushAppends<T>(q: Ring<T>, message: T)
    requires Proper(q) && q.load < |q.buffer|
    ensures Proper(Push(q, message))
    ensures Contents(Push(q, message)) == Contents(q) + [message]
  {
    var q', n := Push(q, message), |q.buffer|;
    Wrap(q.head + q.load, n);
    Wrap(q.tail + 1, n);
    Wrap(q.head + q'.load, n);
    forall i | 0 <= i < q'.load
      ensures q'.buffer[(q.head + i) % n] == (Contents(q) + [message])[i]
    {
      Wrap(q.head + i, n);
    }
  }

  lemma PopKeepsShape<T>(q: Ring<T>)
    requires (Proper(q) || Skewed(q)) && q.load > 0
    ensures if Proper(q) then Proper(Pop(q)) else Skewed(Pop(q))
  {
    var q', n := Pop(q), |q.buffer|;
    Wrap(q.head + 1, n);
    Wrap(q.head + q.load, n);
    Wrap(q'.head + q'.load, n);
    Wrap(n - q.load, n);
    Wrap(n - q'.load, n);
  }

  lemma NextSlot(head: int, i: int, n: int)
    requires 0 <= head < n && 0 <= i < n
    ensures ((head + 1) % n + i) % n == (head + (i + 1)) % n
  {
    Wrap(head + 1, n);
    Wrap((head + 1) % n + i, n);
    Wrap(head + i + 1, n);
  }

  /** A pop from a non-empty ring takes the oldest message, skewed or not. */
  lemma PopTakesOldest<T>(q: Ring<T>)
    requires (Proper(q) || Skewed(q)) && q.load > 0
    ensures q.buffer[q.head] == Contents(q)[0]
    ensures if Proper(q) then Proper(Pop(q)) else Skewed(Pop(q))
    ensures Contents(Pop(q)) == Contents(q)[1..]
  {
    PopKeepsShape(q);
    hide Proper, Skewed;
    var q' := Pop(q);
    Wrap(q.head, |q.buffer|);
    forall i | 0 <= i < q'.load
      ensures Contents(q')[i] == Contents(q)[i + 1]
    {
      NextSlot(q.head, i, |q.buffer|);
    }
  }

  /** A resize keeps the messages. The ring is proper again exactly if there is room left. */
  lemma ResizeKeeps<T>(q: Ring<T>, rest: seq<T>)
    requires InShape(q) && q.load + |rest| >= 1
    ensures InShape(Resize(q, rest)) && Contents(Resize(q, rest)) == Contents(q)
    ensures Proper(Resize(q, rest)) <==> |rest| > 0
    ensures |rest| == 0 ==> Skewed(Resize(q, rest))
  {
    var q', n := Resize(q, rest), q.load + |rest|;
    assert |q'.buffer| == n;
    Wrap(q.load, n);
    forall i | 0 <= i < q.load
      ensures q'.buffer[(0 + i) % n] == Contents(q)[i]
    {
      Wrap(i, n);
    }
    assert Contents(q') == Contents(q);
  }
}
