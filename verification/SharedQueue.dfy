/** The bounded queue with live resize, as the object its threads share. Each method is
    one section under the queue's mutex; what the sections do to the ring is stated with
    the functions of `RingBuffer`. */
module SharedQueue {
  import opened RingBuffer

  datatype PushOutcome = Pushed | PushWaits | PushRefused
  datatype PopOutcome<T> = Popped(message: T) | PopWaits | PopSentinel

  /** Which way one pass through the producer's wait loop goes. */
  function PushDecision<T>(q: Ring<T>, running: bool): PushOutcome {
    if q.load >= |q.buffer| && running then PushWaits
    else if !running then PushRefused
    else Pushed
  }

  /** Which way one pass through the consumer's wait loop goes. A consumer whose wait has
      timed out leaves at once when the program is stopping, even if there are messages. */
  function PopDecision<T>(q: Ring<T>, running: bool, timedOut: bool): PopOutcome<T>
    requires 0 <= q.head < |q.buffer|
  {
    if timedOut && !running then PopSentinel
    else if q.load == 0 && running then PopWaits
    else if !running && q.load == 0 then PopSentinel
    else Popped(q.buffer[q.head])
  }

  const MAX_SIZE := 100

  predicate ResizeAccepted<T>(q: Ring<T>, newSize: int) {
    1 <= newSize <= MAX_SIZE && newSize >= q.load
  }

  /** A producer waits exactly while a running program's queue is full, and is refused
      exactly once the program is stopping. */
  lemma PushDecides<T>(q: Ring<T>, running: bool)
    requires InShape(q)
    ensures PushDecision(q, running) == PushWaits <==> running && q.load == |q.buffer|
    ensures PushDecision(q, running) == PushRefused <==> !running
  {
  }

  /** A consumer waits exactly while a running program's queue is empty. Of a stopping one
      it still takes what there is, unless its wait has timed out. */
  lemma PopDecides<T>(q: Ring<T>, running: bool, timedOut: bool)
    requires InShape(q)
    ensures PopDecision(q, running, timedOut) == PopWaits <==> running && q.load == 0
    ensures PopDecision(q, running, timedOut) == PopSentinel <==> !running && (timedOut || q.load == 0)
    ensures PopDecision(q, running, timedOut).Popped? ==>
              q.load > 0 && PopDecision(q, running, timedOut).message == Contents(q)[0]
  {
    assert (q.head + 0) % |q.buffer| == q.head;
  }

  lemma ResizeAcceptedIff<T>(q: Ring<T>, newSize: int)
    requires InShape(q)
    ensures ResizeAccepted(q, newSize) <==> 0 < newSize <= 100 && newSize >= |Contents(q)|
  {
  }

  class Queue<T(0)> {
    var buffer: array<T>
    var head: int
    var tail: int
    var addedCount: int
    var extractedCount: int
    var currentLoad: int
    var queueSize: int

    /** The fields as a value. */
    ghost function View(): Ring<T>
      reads this, buffer
    {
      Ring(buffer[..], head, tail, addedCount, extractedCount, currentLoad)
    }

    /** The ring is proper, or as a resize to exactly the load has left it. */
    ghost predicate Valid()
      reads this, buffer
    {
      buffer.Length == queueSize && (Proper(View()) || Skewed(View()))
    }

    constructor (size: int)
      requires size >= 1
      ensures Valid() && Proper(View()) && Contents(View()) == [] && queueSize == size
      ensures addedCount == 0 && extractedCount == 0 && fresh(buffer)
    {
      buffer := new T[size];
      head, tail, addedCount, extractedCount, currentLoad := 0, 0, 0, 0, 0;
      queueSize := size;
    }

    /** The body of `queue_push` from one test of the loop condition on. A push that goes
        through in a skewed ring would write past the end of the buffer. */
    method TryPush(message: T, running: bool) returns (outcome: PushOutcome)
      requires Valid() && (Skewed(View()) ==> PushDecision(View(), running) != Pushed)
      modifies this, buffer
      ensures Valid() && Proper(View()) == old(Proper(View()))
      ensures buffer == old(buffer) && queueSize == old(queueSize)
      ensures outcome == PushDecision(old(View()), running)
      ensures outcome.PushWaits? <==> running && old(currentLoad) == queueSize
      ensures outcome.PushRefused? <==> !running
      ensures outcome.Pushed? ==> old(currentLoad) < queueSize && View() == Push(old(View()), message)
      ensures outcome.Pushed? ==> Contents(View()) == old(Contents(View())) + [message]
      ensures !outcome.Pushed? ==> View() == old(View())
    {
      if currentLoad >= queueSize && running {
        return PushWaits;
      }
      if !running {
        return PushRefused;
      }
      PushAppends(View(), message);
      buffer[tail] := message;
      tail := (tail + 1) % queueSize;
      addedCount := addedCount + 1;
      currentLoad := currentLoad + 1;
      assert View() == Push(old(View()), message);
      return Pushed;
    }

    /** The body of `queue_pop` from one test of the loop condition on. */
    method TryPop(running: bool, timedOut: bool) returns (outcome: PopOutcome<T>)
      requires Valid()
      modifies this
      ensures Valid() && Proper(View()) == old(Proper(View()))
      ensures buffer == old(buffer) && queueSize == old(queueSize)
      ensures outcome == PopDecision(old(View()), running, timedOut)
      ensures outcome.PopWaits? <==> running && old(currentLoad) == 0
      ensures outcome.PopSentinel? <==> !running && (timedOut || old(currentLoad) == 0)
      ensures outcome.Popped? ==> old(currentLoad) > 0 && View() == Pop(old(View()))
      ensures outcome.Popped? ==> old(Contents(View())) == [outcome.message] + Contents(View())
      ensures !outcome.Popped? ==> View() == old(View())
    {
      if timedOut && !running {
        return PopSentinel;
      }
      if currentLoad == 0 && running {
        return PopWaits;
      }
      if !running && currentLoad == 0 {
        return PopSentinel;
      }
      PopTakesOldest(View());
      var message := buffer[head];
      head := (head + 1) % queueSize;
      extractedCount := extractedCount + 1;
      currentLoad := currentLoad - 1;
      assert View() == Pop(old(View()));
      return Popped(message);
    }

    /** `queue_resize`. The messages always survive; after a request that is granted the
        ring is proper exactly if there is room left, whatever it was before. */
    method ResizeTo(newSize: int) returns (ok: bool)
      requires Valid()
      modifies this
      ensures ok <==> 1 <= newSize <= 100 && newSize >= old(currentLoad)
      ensures Valid() && (!ok ==> View() == old(View()))
      ensures ok ==> fresh(buffer) && buffer.Length == queueSize == newSize
      ensures ok ==> exists rest :: |rest| == newSize - old(currentLoad) && View() == Resize(old(View()), rest)
      ensures ok ==> Contents(View()) == old(Contents(View()))
      ensures ok ==> (Proper(View()) <==> newSize != old(currentLoad))
    {
      if newSize < 1 || newSize > MAX_SIZE {
        return false;
      }
      if newSize < currentLoad {
        return false;
      }
      ghost var before := View();
      var newBuffer := CopyLive(newSize);
      buffer := newBuffer;
      head := 0;
      tail := currentLoad;
      queueSize := newSize;
      ghost var rest := newBuffer[currentLoad..];
      assert View() == Resize(before, rest);
      ResizeKeeps(before, rest);
      return true;
    }

    /** The copy loop of the resize. */
    method CopyLive(newSize: int) returns (newBuffer: array<T>)
      requires Valid() && newSize >= currentLoad && newSize >= 1
      ensures fresh(newBuffer) && newBuffer.Length == newSize
      ensures newBuffer[..currentLoad] == Contents(View())
    {
      newBuffer := new T[newSize];
      var i := 0;
      while i < currentLoad
        invariant 0 <= i <= currentLoad
        invariant forall k :: 0 <= k < i ==> newBuffer[k] == Contents(View())[k]
      {
        var oldIndex := (head + i) % queueSize;
        newBuffer[i] := buffer[oldIndex];
        i := i + 1;
      }
    }
  }
}
