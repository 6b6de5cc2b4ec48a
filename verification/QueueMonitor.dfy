/** Producers and consumers around the resizable queue, as a transition system: any
    number of threads, timed waits, spurious wakeups, resizing and shutdown at any time.

    A step is one section under the queue's mutex (entering it, and either leaving it or
    falling asleep on a condition variable), or something outside of it. */
module QueueMonitor {
  import opened Counting
  import opened RingBuffer
  import opened MessageHash
  import opened SharedQueue

  datatype Thread =
    | Producer(produced: nat, ppc: ProducerPc)
    | Consumer(consumed: nat, cpc: ConsumerPc)

  datatype ProducerPc =
    | PTop                        // about to read keep_running
    | PLock(message: Message)     // about to take the mutex
    | PAsleep(message: Message)   // waits on cond_not_full, not signalled
    | PAwake(message: Message)    // signalled or timed out, about to recheck
    | PDone

  datatype ConsumerPc =
    | CTop
    | CLock
    | CAsleep                     // waits on cond_not_empty, not signalled
    | CAwake(timedOut: bool)
    | CGot(got: Message)          // queue_pop has returned this
    | CDone

  datatype State = State(
    ring: Ring<Message>,
    running: bool,
    threads: seq<Thread>,
    crashed: bool,                // a message was written past the end of the buffer
    accepted: seq<Message>,       // history: messages pushed, in order
    popped: seq<Message>,         // history: messages popped, in order
    created: nat,                 // history: how many messages producers have made
    refused: nat)                 // history: how many of them were given up

  datatype Step =
    | ReadFlag(thread: nat, created: Message)           // top of either loop; `created` is the new message
    | EnterPush(thread: nat, wake: set<nat>)          // `wake` is whom the signal wakes
    | EnterPop(thread: nat, wake: set<nat>)
    | CheckMessage(thread: nat)
    | WakeUp(thread: nat, timedOut: bool)             // timeout, or spurious
    | ResizeQueue(newSize: int, rest: seq<Message>)
    | StopAll                                         // keep_running = 0
    | Broadcast                                       // wakes everybody, as shutdown does
    | Spawn(spawned: Thread)

  /** What `queue_pop` returns when it gives up. */
  function EmptyMessage(): Message {
    Message(0, 0, 0, seq(DATA_BYTES, i => 0))
  }

  predicate LooksEmpty(m: Message) {
    m.size == 0 && m.kind == 0 && m.hash == 0
  }

  predicate Sleeps(t: Thread, consumer: bool) {
    if consumer then t.Consumer? && t.cpc == CAsleep else t.Producer? && t.ppc.PAsleep?
  }

  function Woken(t: Thread): Thread {
    match t
    case Producer(n, PAsleep(m)) => Producer(n, PAwake(m))
    case Consumer(n, CAsleep) => Consumer(n, CAwake(false))
    case _ => t
  }

  /** Wake the sleeping consumers (or producers) in `wake`. */
  function Wake(threads: seq<Thread>, consumer: bool, wake: set<nat>): (woken: seq<Thread>)
    ensures |woken| == |threads|
  {
    seq(|threads|, i requires 0 <= i < |threads| =>
      if i in wake && Sleeps(threads[i], consumer) then Woken(threads[i]) else threads[i])
  }

  function WakeAll(threads: seq<Thread>): (woken: seq<Thread>)
    ensures |woken| == |threads|
  {
    seq(|threads|, i requires 0 <= i < |threads| => Woken(threads[i]))
  }

  /** A signal wakes at least one sleeper if there is any. */
  predicate Signals(threads: seq<Thread>, consumer: bool, wake: set<nat>) {
    (exists i :: 0 <= i < |threads| && Sleeps(threads[i], consumer))
    ==> exists i :: 0 <= i < |threads| && i in wake && Sleeps(threads[i], consumer)
  }

  predicate AtTop(t: Thread) {
    if t.Producer? then t.ppc == PTop else t.cpc == CTop
  }

  predicate CanStep(s: State, step: Step) {
    && !s.crashed
    && match step
       case ReadFlag(t, created) =>
         t < |s.threads| && Genuine(created) && AtTop(s.threads[t])
       case EnterPush(t, wake) =>
         && t < |s.threads| && s.threads[t].Producer? && (s.threads[t].ppc.PLock? || s.threads[t].ppc.PAwake?)
         && Signals(s.threads, true, wake)
         && 0 <= s.ring.tail
       case EnterPop(t, wake) =>
         && t < |s.threads| && s.threads[t].Consumer? && (s.threads[t].cpc == CLock || s.threads[t].cpc.CAwake?)
         && Signals(s.threads, false, wake)
         && 0 <= s.ring.head < |s.ring.buffer|
       case CheckMessage(t) => t < |s.threads| && s.threads[t].Consumer? && s.threads[t].cpc.CGot?
       case WakeUp(t, _) => t < |s.threads| && (Sleeps(s.threads[t], true) || Sleeps(s.threads[t], false))
       case ResizeQueue(n, rest) => InShape(s.ring) && (ResizeAccepted(s.ring, n) ==> |rest| == n - s.ring.load)
       case StopAll => true
       case Broadcast => true
       case Spawn(t) => t == Producer(0, PTop) || t == Consumer(0, CTop)
  }

  function SetThread(s: State, t: nat, thread: Thread): State
    requires t < |s.threads|
  {
    s.(threads := s.threads[t := thread])
  }

  function ApplyPush(s: State, t: nat, wake: set<nat>): State
    requires CanStep(s, EnterPush(t, wake))
  {
    var me := s.threads[t];
    match PushDecision(s.ring, s.running)
    case PushWaits => SetThread(s, t, Producer(me.produced, PAsleep(me.ppc.message)))
    case PushRefused => SetThread(s.(refused := s.refused + 1), t, Producer(me.produced, PTop))
    case Pushed =>
      if s.ring.tail >= |s.ring.buffer| then s.(crashed := true)
      else
        s.(ring := Push(s.ring, me.ppc.message), accepted := s.accepted + [me.ppc.message],
           threads := Wake(s.threads[t := Producer(me.produced + 1, PTop)], true, wake))
  }

  function ApplyPop(s: State, t: nat, wake: set<nat>): State
    requires CanStep(s, EnterPop(t, wake))
  {
    var me := s.threads[t];
    match PopDecision(s.ring, s.running, me.cpc.CAwake? && me.cpc.timedOut)
    case PopWaits => SetThread(s, t, Consumer(me.consumed, CAsleep))
    case PopSentinel => SetThread(s, t, Consumer(me.consumed, CGot(EmptyMessage())))
    case Popped(m) =>
      s.(ring := Pop(s.ring), popped := s.popped + [m],
         threads := Wake(s.threads[t := Consumer(me.consumed, CGot(m))], false, wake))
  }

  function Apply(s: State, step: Step): State
    requires CanStep(s, step)
  {
    match step
    case ReadFlag(t, created) =>
      var made := if s.running && s.threads[t].Producer? then 1 else 0;
      SetThread(s.(created := s.created + made), t, match s.threads[t]
                      case Producer(n, _) => Producer(n, if s.running then PLock(created) else PDone)
                      case Consumer(n, _) => Consumer(n, if s.running then CLock else CDone))
    case EnterPush(t, wake) => ApplyPush(s, t, wake)
    case EnterPop(t, wake) => ApplyPop(s, t, wake)
    case CheckMessage(t) =>
      var me := s.threads[t];
      if LooksEmpty(me.cpc.got) && !s.running then SetThread(s, t, Consumer(me.consumed, CDone))
      else SetThread(s, t, Consumer(me.consumed + 1, CTop))
    case WakeUp(t, timedOut) =>
      SetThread(s, t, match s.threads[t]
                      case Producer(n, pc) => Woken(Producer(n, pc))
                      case Consumer(n, _) => Consumer(n, CAwake(timedOut)))
    case ResizeQueue(n, rest) =>
      if ResizeAccepted(s.ring, n) then s.(ring := Resize(s.ring, rest), threads := WakeAll(s.threads)) else s
    case StopAll => s.(running := false)
    case Broadcast => s.(threads := WakeAll(s.threads))
    case Spawn(t) => s.(threads := s.threads + [t])
  }

  predicate Feasible(s: State, steps: seq<Step>)
    decreases |steps|
  {
    steps == [] || (CanStep(s, steps[0]) && Feasible(Apply(s, steps[0]), steps[1..]))
  }

  function Execute(s: State, steps: seq<Step>): State
    requires Feasible(s, steps)
    decreases |steps|
  {
    if steps == [] then s else Execute(Apply(s, steps[0]), steps[1..])
  }

  /** A freshly initialised queue and no threads yet. */
  predicate Initial(s: State) {
    && Proper(s.ring) && s.ring.load == 0 && s.ring.added == 0
    && s.running && s.threads == [] && !s.crashed && s.accepted == [] && s.popped == []
    && s.created == 0 && s.refused == 0
  }

  // ----- Invariants -----

  function AwakeConsumer(t: Thread): nat { if t.Consumer? && t.cpc.CAwake? then 1 else 0 }
  function AwakeProducer(t: Thread): nat { if t.Producer? && t.ppc.PAwake? then 1 else 0 }
  function ProducedBy(t: Thread): nat { if t.Producer? then t.produced else 0 }
  function ConsumedBy(t: Thread): nat { if t.Consumer? then t.consumed else 0 }
  function Delivered(t: Thread): nat { if t.Consumer? && t.cpc.CGot? && Genuine(t.cpc.got) then 1 else 0 }

  function Holding(t: Thread): nat {
    if t.Producer? && (t.ppc.PLock? || t.ppc.PAsleep? || t.ppc.PAwake?) then 1 else 0
  }

  predicate SomeoneSleeps(threads: seq<Thread>, consumer: bool) {
    exists i :: 0 <= i < |threads| && Sleeps(threads[i], consumer)
  }

  /** While the program runs, no wakeup is lost: if a consumer sleeps unsignalled, there
      are no more messages than consumers on their way to them; and likewise for
      producers and free slots. */
  predicate NoLostWakeup(s: State) {
    s.running ==>
      && (SomeoneSleeps(s.threads, true) ==> s.ring.load <= Sum(s.threads, AwakeConsumer))
      && (SomeoneSleeps(s.threads, false) ==> |s.ring.buffer| - s.ring.load <= Sum(s.threads, AwakeProducer))
  }

  /** What was accepted is what was popped followed by what is in the ring. */
  predicate Fifo(s: State) {
    && (Proper(s.ring) || Skewed(s.ring))
    && s.accepted == s.popped + Contents(s.ring)
    && s.ring.extracted == |s.popped|
  }

  /** The threads' own counters add up to the queue's, and no message a producer has made
      is lost, nor given up while the program runs. */
  predicate Accounted(s: State) {
    && s.created == |s.accepted| + Sum(s.threads, Holding) + s.refused
    && (s.running ==> s.refused == 0)
    && Sum(s.threads, ProducedBy) == |s.accepted|
    && Sum(s.threads, ConsumedBy) + Sum(s.threads, Delivered) == |s.popped|
  }

  /** Producers hold genuine messages; consumers hold genuine ones, or the empty message
      while the program stops. */
  predicate HoldsRight(t: Thread, running: bool) {
    match t
    case Producer(_, PLock(m)) => Genuine(m)
    case Producer(_, PAsleep(m)) => Genuine(m)
    case Producer(_, PAwake(m)) => Genuine(m)
    case Consumer(_, CGot(m)) => Genuine(m) || (m == EmptyMessage() && !running)
    case _ => true
  }

  predicate Honest(s: State) {
    && (forall i :: 0 <= i < |s.accepted| ==> Genuine(s.accepted[i]))
    && (forall i :: 0 <= i < |s.threads| ==> HoldsRight(s.threads[i], s.running))
  }

  predicate Inv(s: State) {
    NoLostWakeup(s) && Fifo(s) && Accounted(s) && Honest(s)
  }

  // ----- Waking -----

  lemma WakeSums(threads: seq<Thread>, consumer: bool, wake: set<nat>)
    ensures Sum(Wake(threads, consumer, wake), ProducedBy) == Sum(threads, ProducedBy)
    ensures Sum(Wake(threads, consumer, wake), ConsumedBy) == Sum(threads, ConsumedBy)
    ensures Sum(Wake(threads, consumer, wake), Delivered) == Sum(threads, Delivered)
    ensures Sum(Wake(threads, consumer, wake), Holding) == Sum(threads, Holding)
  {
    hide Genuine, Sum;
    SumSame(Wake(threads, consumer, wake), threads, ProducedBy);
    SumSame(Wake(threads, consumer, wake), threads, ConsumedBy);
    SumSame(Wake(threads, consumer, wake), threads, Delivered);
    SumSame(Wake(threads, consumer, wake), threads, Holding);
  }

  lemma WakeAllSums(threads: seq<Thread>)
    ensures Sum(WakeAll(threads), ProducedBy) == Sum(threads, ProducedBy)
    ensures Sum(WakeAll(threads), ConsumedBy) == Sum(threads, ConsumedBy)
    ensures Sum(WakeAll(threads), Delivered) == Sum(threads, Delivered)
    ensures Sum(WakeAll(threads), Holding) == Sum(threads, Holding)
  {
    hide Genuine, Sum;
    SumSame(WakeAll(threads), threads, ProducedBy);
    SumSame(WakeAll(threads), threads, ConsumedBy);
    SumSame(WakeAll(threads), threads, Delivered);
    SumSame(WakeAll(threads), threads, Holding);
  }

  /** A signal to consumers adds one to the woken consumers if any slept, and does not
      concern the producers; and the other way round. */
  lemma SignalCounts(threads: seq<Thread>, wake: set<nat>)
    ensures var woken := Wake(threads, true, wake);
            && Sum(woken, AwakeProducer) == Sum(threads, AwakeProducer)
            && SomeoneSleeps(woken, false) == SomeoneSleeps(threads, false)
            && Sum(woken, AwakeConsumer) >= Sum(threads, AwakeConsumer)
            && (SomeoneSleeps(woken, true) ==> SomeoneSleeps(threads, true))
            && (Signals(threads, true, wake) && SomeoneSleeps(woken, true)
                ==> Sum(woken, AwakeConsumer) > Sum(threads, AwakeConsumer))
    ensures var woken := Wake(threads, false, wake);
            && Sum(woken, AwakeConsumer) == Sum(threads, AwakeConsumer)
            && SomeoneSleeps(woken, true) == SomeoneSleeps(threads, true)
            && Sum(woken, AwakeProducer) >= Sum(threads, AwakeProducer)
            && (SomeoneSleeps(woken, false) ==> SomeoneSleeps(threads, false))
            && (Signals(threads, false, wake) && SomeoneSleeps(woken, false)
                ==> Sum(woken, AwakeProducer) > Sum(threads, AwakeProducer))
  {
    SignalConsumers(threads, wake);
    SignalProducers(threads, wake);
  }

  lemma SignalConsumers(threads: seq<Thread>, wake: set<nat>)
    ensures var woken := Wake(threads, true, wake);
            && Sum(woken, AwakeProducer) == Sum(threads, AwakeProducer)
            && SomeoneSleeps(woken, false) == SomeoneSleeps(threads, false)
            && Sum(woken, AwakeConsumer) >= Sum(threads, AwakeConsumer)
            && (SomeoneSleeps(woken, true) ==> SomeoneSleeps(threads, true))
            && (Signals(threads, true, wake) && SomeoneSleeps(woken, true)
                ==> Sum(woken, AwakeConsumer) > Sum(threads, AwakeConsumer))
  {
    var woken := Wake(threads, true, wake);
    SumSame(woken, threads, AwakeProducer);
    SumMonotone(threads, woken, AwakeConsumer);
    assert forall i :: 0 <= i < |threads| ==> Sleeps(woken[i], false) == Sleeps(threads[i], false);
    assert forall i :: 0 <= i < |threads| && Sleeps(woken[i], true) ==> Sleeps(threads[i], true);
    if i :| 0 <= i < |threads| && i in wake && Sleeps(threads[i], true) {
      assert AwakeConsumer(threads[i]) < AwakeConsumer(woken[i]);
    }
  }

  lemma SignalProducers(threads: seq<Thread>, wake: set<nat>)
    ensures var woken := Wake(threads, false, wake);
            && Sum(woken, AwakeConsumer) == Sum(threads, AwakeConsumer)
            && SomeoneSleeps(woken, true) == SomeoneSleeps(threads, true)
            && Sum(woken, AwakeProducer) >= Sum(threads, AwakeProducer)
            && (SomeoneSleeps(woken, false) ==> SomeoneSleeps(threads, false))
            && (Signals(threads, false, wake) && SomeoneSleeps(woken, false)
                ==> Sum(woken, AwakeProducer) > Sum(threads, AwakeProducer))
  {
    var woken := Wake(threads, false, wake);
    SumSame(woken, threads, AwakeConsumer);
    SumMonotone(threads, woken, AwakeProducer);
    assert forall i :: 0 <= i < |threads| ==> Sleeps(woken[i], true) == Sleeps(threads[i], true);
    assert forall i :: 0 <= i < |threads| && Sleeps(woken[i], false) ==> Sleeps(threads[i], false);
    if i :| 0 <= i < |threads| && i in wake && Sleeps(threads[i], false) {
      assert AwakeProducer(threads[i]) < AwakeProducer(woken[i]);
    }
  }

  lemma NobodySleepsAfterBroadcast(threads: seq<Thread>)
    ensures !SomeoneSleeps(WakeAll(threads), true) && !SomeoneSleeps(WakeAll(threads), false)
  {
  }

  /** Replacing one thread by one that does not sleep. */
  lemma UpdateCounts(threads: seq<Thread>, t: nat, thread: Thread)
    requires t < |threads|
    ensures Sum(threads[t := thread], AwakeConsumer) ==
            Sum(threads, AwakeConsumer) - AwakeConsumer(threads[t]) + AwakeConsumer(thread)
    ensures Sum(threads[t := thread], AwakeProducer) ==
            Sum(threads, AwakeProducer) - AwakeProducer(threads[t]) + AwakeProducer(thread)
    ensures Sum(threads[t := thread], ProducedBy) ==
            Sum(threads, ProducedBy) - ProducedBy(threads[t]) + ProducedBy(thread)
    ensures Sum(threads[t := thread], ConsumedBy) ==
            Sum(threads, ConsumedBy) - ConsumedBy(threads[t]) + ConsumedBy(thread)
    ensures Sum(threads[t := thread], Delivered) == Sum(threads, Delivered) - Delivered(threads[t]) + Delivered(thread)
    ensures Sum(threads[t := thread], Holding) == Sum(threads, Holding) - Holding(threads[t]) + Holding(thread)
    ensures forall c: bool :: !Sleeps(thread, c) && SomeoneSleeps(threads[t := thread], c) ==> SomeoneSleeps(threads, c)
  {
    SumUpdate(threads, t, thread, AwakeConsumer);
    SumUpdate(threads, t, thread, AwakeProducer);
    SumUpdate(threads, t, thread, ProducedBy);
    SumUpdate(threads, t, thread, ConsumedBy);
    SumUpdate(threads, t, thread, Delivered);
    SumUpdate(threads, t, thread, Holding);
    forall c: bool | !Sleeps(thread, c) && SomeoneSleeps(threads[t := thread], c)
      ensures SomeoneSleeps(threads, c)
    {
      var i :| 0 <= i < |threads| && Sleeps(threads[t := thread][i], c);
      assert i != t && Sleeps(threads[i], c);
    }
  }

  lemma EmptyIsNotGenuine()
    ensures !Genuine(EmptyMessage())
  {
    if Genuine(EmptyMessage()) {
      GenuineIsNotSentinel(EmptyMessage());
    }
  }

  // ----- Every step keeps the invariant -----

  lemma PushKeepsInv(s: State, t: nat, wake: set<nat>)
    requires Inv(s) && CanStep(s, EnterPush(t, wake))
    ensures var s' := ApplyPush(s, t, wake);
            s'.crashed || Inv(s')
    ensures ApplyPush(s, t, wake).crashed <==> PushDecision(s.ring, s.running) == Pushed && Skewed(s.ring)
  {
    hide Genuine, Contents, Sum, Wake, SomeoneSleeps, Push;
    var me := s.threads[t];
    assert HoldsRight(me, s.running);
    match PushDecision(s.ring, s.running) {
      case PushWaits =>
        UpdateCounts(s.threads, t, Producer(me.produced, PAsleep(me.ppc.message)));
      case PushRefused =>
        UpdateCounts(s.threads, t, Producer(me.produced, PTop));
      case Pushed =>
        if Proper(s.ring) {
          PushStepKeepsInv(s, t, wake);
        }
    }
  }

  predicate PushGoesThrough(s: State, t: nat, wake: set<nat>) {
    CanStep(s, EnterPush(t, wake)) && PushDecision(s.ring, s.running) == Pushed && Proper(s.ring)
  }

  lemma PushStepWakes(s: State, t: nat, wake: set<nat>)
    requires Inv(s) && PushGoesThrough(s, t, wake)
    ensures NoLostWakeup(ApplyPush(s, t, wake))
  {
    hide Genuine, Contents, Sum, Wake, SomeoneSleeps, Fifo, Honest, Accounted;
    var thread := Producer(s.threads[t].produced + 1, PTop);
    var threads := s.threads[t := thread];
    UpdateCounts(s.threads, t, thread);
    SignalCounts(threads, wake);
    SignalsAfterUpdate(s.threads, t, thread, true, wake);
  }

  lemma PushStepAccounts(s: State, t: nat, wake: set<nat>)
    requires Inv(s) && PushGoesThrough(s, t, wake)
    ensures Accounted(ApplyPush(s, t, wake)) && Honest(ApplyPush(s, t, wake))
  {
    hide Genuine, Contents, Sum, Wake, SomeoneSleeps, NoLostWakeup;
    var me := s.threads[t];
    var thread := Producer(me.produced + 1, PTop);
    var threads := s.threads[t := thread];
    assert HoldsRight(me, s.running);
    UpdateCounts(s.threads, t, thread);
    WakeSums(threads, true, wake);
    WakeHoldsRight(threads, true, wake, s.running);
  }

  lemma PushStepKeepsInv(s: State, t: nat, wake: set<nat>)
    requires Inv(s) && PushGoesThrough(s, t, wake)
    ensures Inv(ApplyPush(s, t, wake))
  {
    hide Genuine, Contents, Sum, Wake, SomeoneSleeps, NoLostWakeup, Honest, Accounted;
    PushStepWakes(s, t, wake);
    PushStepAccounts(s, t, wake);
    PushAppends(s.ring, s.threads[t].ppc.message);
  }

  lemma WakeHoldsRight(threads: seq<Thread>, consumer: bool, wake: set<nat>, running: bool)
    requires forall i :: 0 <= i < |threads| ==> HoldsRight(threads[i], running)
    ensures forall i :: 0 <= i < |threads| ==> HoldsRight(Wake(threads, consumer, wake)[i], running)
    ensures forall i :: 0 <= i < |threads| ==> HoldsRight(WakeAll(threads)[i], running)
  {
    hide Genuine;
  }

  /** The signalling thread itself is awake, so the signal still finds its sleeper. */
  lemma SignalsAfterUpdate(threads: seq<Thread>, t: nat, thread: Thread, consumer: bool, wake: set<nat>)
    requires t < |threads| && Signals(threads, consumer, wake)
    requires !Sleeps(threads[t], consumer) && !Sleeps(thread, consumer)
    ensures Signals(threads[t := thread], consumer, wake)
  {
    var threads' := threads[t := thread];
    if i :| 0 <= i < |threads'| && Sleeps(threads'[i], consumer) {
      assert Sleeps(threads[i], consumer);
      var j :| 0 <= j < |threads| && j in wake && Sleeps(threads[j], consumer);
      assert Sleeps(threads'[j], consumer);
    }
  }

  lemma PopKeepsInv(s: State, t: nat, wake: set<nat>)
    requires Inv(s) && CanStep(s, EnterPop(t, wake))
    ensures Inv(ApplyPop(s, t, wake))
  {
    hide Genuine, Contents, Sum, Wake, SomeoneSleeps, Pop;
    var me := s.threads[t];
    match PopDecision(s.ring, s.running, me.cpc.CAwake? && me.cpc.timedOut) {
      case PopWaits =>
        UpdateCounts(s.threads, t, Consumer(me.consumed, CAsleep));
      case PopSentinel =>
        EmptyIsNotGenuine();
        UpdateCounts(s.threads, t, Consumer(me.consumed, CGot(EmptyMessage())));
      case Popped(m) =>
        PopStepWakes(s, t, wake, m);
        PopStepFifo(s, t, wake, m);
        PopStepAccounts(s, t, wake, m);
    }
  }

  predicate PopGoesThrough(s: State, t: nat, wake: set<nat>, m: Message) {
    && CanStep(s, EnterPop(t, wake))
    && PopDecision(s.ring, s.running, s.threads[t].cpc.CAwake? && s.threads[t].cpc.timedOut) == Popped(m)
  }

  lemma PopStepWakes(s: State, t: nat, wake: set<nat>, m: Message)
    requires Inv(s) && PopGoesThrough(s, t, wake, m)
    ensures NoLostWakeup(ApplyPop(s, t, wake))
  {
    hide Genuine, Contents, Sum, Wake, SomeoneSleeps, Fifo, Honest, Accounted;
    var thread := Consumer(s.threads[t].consumed, CGot(m));
    var threads := s.threads[t := thread];
    UpdateCounts(s.threads, t, thread);
    SignalCounts(threads, wake);
    SignalsAfterUpdate(s.threads, t, thread, false, wake);
  }

  lemma PopStepFifo(s: State, t: nat, wake: set<nat>, m: Message)
    requires Inv(s) && PopGoesThrough(s, t, wake, m)
    ensures Fifo(ApplyPop(s, t, wake)) && Genuine(m)
  {
    hide Genuine, Contents, Sum, Wake, SomeoneSleeps, NoLostWakeup, Accounted;
    PopTakesOldest(s.ring);
    assert Contents(s.ring) == [m] + Contents(Pop(s.ring));
    assert s.accepted == s.popped + [m] + Contents(Pop(s.ring));
    assert s.accepted[|s.popped|] == m;
  }

  lemma PopStepAccounts(s: State, t: nat, wake: set<nat>, m: Message)
    requires Inv(s) && PopGoesThrough(s, t, wake, m) && Genuine(m)
    ensures Accounted(ApplyPop(s, t, wake)) && Honest(ApplyPop(s, t, wake))
  {
    hide Genuine, Contents, Sum, Wake, SomeoneSleeps, NoLostWakeup, Fifo;
    var thread := Consumer(s.threads[t].consumed, CGot(m));
    var threads := s.threads[t := thread];
    UpdateCounts(s.threads, t, thread);
    WakeSums(threads, false, wake);
    WakeHoldsRight(threads, false, wake, s.running);
  }

  lemma ResizeKeepsInv(s: State, n: int, rest: seq<Message>)
    requires Inv(s) && CanStep(s, ResizeQueue(n, rest))
    ensures Inv(Apply(s, ResizeQueue(n, rest)))
    ensures var s' := Apply(s, ResizeQueue(n, rest));
            if 1 <= n <= 100 && n >= s.ring.load
            then !SomeoneSleeps(s'.threads, true) && !SomeoneSleeps(s'.threads, false) && |s'.ring.buffer| == n
            else s' == s
  {
    hide Genuine, Contents, Sum, WakeAll, SomeoneSleeps;
    if ResizeAccepted(s.ring, n) {
      ResizeKeeps(s.ring, rest);
      NobodySleepsAfterBroadcast(s.threads);
      WakeAllSums(s.threads);
      WakeHoldsRight(s.threads, true, {}, s.running);
    }
  }

  lemma OtherKeepsInv(s: State, step: Step)
    requires Inv(s) && CanStep(s, step)
    requires step.ReadFlag? || step.CheckMessage? || step.WakeUp?
    ensures Inv(Apply(s, step))
  {
    hide Genuine, Contents, Sum, SomeoneSleeps, Proper, Skewed;
    var t := step.thread;
    assert HoldsRight(s.threads[t], s.running);
    EmptyIsNotGenuine();
    UpdateCounts(s.threads, t, Apply(s, step).threads[t]);
    if step.CheckMessage? && Genuine(s.threads[t].cpc.got) && LooksEmpty(s.threads[t].cpc.got) {
      GenuineIsNotSentinel(s.threads[t].cpc.got);
    }
  }

  lemma SpawnKeepsInv(s: State, thread: Thread)
    requires Inv(s) && CanStep(s, Spawn(thread))
    ensures Inv(Apply(s, Spawn(thread)))
  {
    hide Genuine, Contents, Sum;
    SumAppend(s.threads, thread, AwakeConsumer);
    SumAppend(s.threads, thread, AwakeProducer);
    SumAppend(s.threads, thread, ProducedBy);
    SumAppend(s.threads, thread, ConsumedBy);
    SumAppend(s.threads, thread, Delivered);
    SumAppend(s.threads, thread, Holding);
    assert forall i :: 0 <= i < |s.threads| ==> (s.threads + [thread])[i] == s.threads[i];
  }

  lemma StopKeepsInv(s: State)
    requires Inv(s) && CanStep(s, StopAll)
    ensures Inv(Apply(s, StopAll)) && !Apply(s, StopAll).crashed
  {
    hide Genuine, Contents, Sum, Proper, Skewed;
  }

  lemma BroadcastKeepsInv(s: State)
    requires Inv(s) && CanStep(s, Broadcast)
    ensures Inv(Apply(s, Broadcast)) && !Apply(s, Broadcast).crashed
    ensures !SomeoneSleeps(Apply(s, Broadcast).threads, true) && !SomeoneSleeps(Apply(s, Broadcast).threads, false)
  {
    hide Genuine, Contents, Sum, Proper, Skewed;
    NobodySleepsAfterBroadcast(s.threads);
    WakeAllSums(s.threads);
    WakeHoldsRight(s.threads, true, {}, s.running);
  }

  lemma StepKeepsInv(s: State, step: Step)
    requires Inv(s) && CanStep(s, step)
    ensures Apply(s, step).crashed || Inv(Apply(s, step))
    ensures Apply(s, step).crashed ==> Skewed(s.ring)
  {
    hide Genuine, Contents, Sum, Proper;
    match step {
      case EnterPush(t, wake) => PushKeepsInv(s, t, wake);
      case EnterPop(t, wake) => PopKeepsInv(s, t, wake);
      case ResizeQueue(n, rest) => ResizeKeepsInv(s, n, rest);
      case Spawn(thread) => SpawnKeepsInv(s, thread);
      case StopAll => StopKeepsInv(s);
      case Broadcast => BroadcastKeepsInv(s);
      case _ => OtherKeepsInv(s, step);
    }
  }

  // ----- Whole runs -----

  lemma {:induction false} RunKeepsInv(s: State, steps: seq<Step>)
    requires Inv(s) && Feasible(s, steps)
    ensures Execute(s, steps).crashed || Inv(Execute(s, steps))
    decreases |steps|
  {
    if steps != [] {
      StepKeepsInv(s, steps[0]);
      var next := Apply(s, steps[0]);
      if next.crashed {
        CrashedStops(next, steps[1..]);
      } else {
        RunKeepsInv(next, steps[1..]);
      }
    }
  }

  lemma InitialInv(s: State)
    requires Initial(s)
    ensures Inv(s)
  {
    hide Contents, Sum, Genuine;
    SumZero(s.threads, ProducedBy);
    SumZero(s.threads, ConsumedBy);
    SumZero(s.threads, Delivered);
    SumZero(s.threads, Holding);
  }

  lemma CrashedStops(s: State, steps: seq<Step>)
    requires s.crashed && Feasible(s, steps)
    ensures steps == [] && Execute(s, steps) == s
  {
  }

  /** In every run, through resizes and shutdown, until a crash: messages come out in the
      order they went in, nothing is lost or made up, no wakeup is lost, and every message
      a consumer gets to check is genuine (so its checksum fits and it is not taken for
      the sentinel) or is the empty message of a stopping program. */
  lemma EveryRun(s: State, steps: seq<Step>)
    requires Initial(s) && Feasible(s, steps)
    ensures var end := Execute(s, steps);
            end.crashed ||
            (Fifo(end) && NoLostWakeup(end) && Accounted(end) &&
             forall i :: 0 <= i < |end.threads| && end.threads[i].Consumer? && end.threads[i].cpc.CGot? ==>
               var m := end.threads[i].cpc.got;
               (Genuine(m) && !LooksEmpty(m)) || (m == EmptyMessage() && !end.running))
  {
    hide Contents, Sum, Genuine;
    InitialInv(s);
    RunKeepsInv(s, steps);
    var end := Execute(s, steps);
    if !end.crashed {
      forall i | 0 <= i < |end.threads| && end.threads[i].Consumer? && end.threads[i].cpc.CGot?
        ensures var m := end.threads[i].cpc.got;
                (Genuine(m) && !LooksEmpty(m)) || (m == EmptyMessage() && !end.running)
      {
        assert HoldsRight(end.threads[i], end.running);
        if Genuine(end.threads[i].cpc.got) && LooksEmpty(end.threads[i].cpc.got) {
          GenuineIsNotSentinel(end.threads[i].cpc.got);
        }
      }
    }
  }

  /** A resize that leaves no room. */
  predicate FillsUp(s: State, step: Step) {
    step.ResizeQueue? && ResizeAccepted(s.ring, step.newSize) && step.newSize == s.ring.load
  }

  /** No resize in the run leaves the queue exactly full. */
  predicate NeverFillsUp(s: State, steps: seq<Step>)
    requires Feasible(s, steps)
    decreases |steps|
  {
    steps == [] || (!FillsUp(s, steps[0]) && NeverFillsUp(Apply(s, steps[0]), steps[1..]))
  }

  lemma StepKeepsProper(s: State, step: Step)
    requires Inv(s) && Proper(s.ring) && CanStep(s, step) && !FillsUp(s, step)
    ensures !Apply(s, step).crashed && Proper(Apply(s, step).ring)
  {
    hide Genuine, Contents, Sum, Wake, WakeAll;
    StepKeepsInv(s, step);
    if step.EnterPush? && PushDecision(s.ring, s.running) == Pushed {
      PushAppends(s.ring, s.threads[step.thread].ppc.message);
    } else if step.EnterPop? && s.ring.load > 0 {
      PopTakesOldest(s.ring);
    } else if step.ResizeQueue? && ResizeAccepted(s.ring, step.newSize) {
      ResizeKeeps(s.ring, step.rest);
    }
  }

  /** Without such a resize no run ever writes outside the buffer. */
  lemma {:induction false} NeverCrashes(s: State, steps: seq<Step>)
    requires Inv(s) && !s.crashed && Proper(s.ring) && Feasible(s, steps) && NeverFillsUp(s, steps)
    ensures !Execute(s, steps).crashed && Inv(Execute(s, steps))
    decreases |steps|
  {
    if steps != [] {
      StepKeepsInv(s, steps[0]);
      StepKeepsProper(s, steps[0]);
      NeverCrashes(Apply(s, steps[0]), steps[1..]);
    }
  }

  /** While there are messages and a consumer sleeps, some consumer is awake and can go on
      without anybody's timeout; likewise for free slots and producers. */
  lemma SomebodyIsComing(s: State, consumer: bool) returns (t: nat)
    requires Inv(s) && s.running && SomeoneSleeps(s.threads, consumer)
    requires if consumer then s.ring.load > 0 else s.ring.load < |s.ring.buffer|
    ensures t < |s.threads|
    ensures if consumer then s.threads[t].Consumer? && s.threads[t].cpc.CAwake?
            else s.threads[t].Producer? && s.threads[t].ppc.PAwake?
  {
    hide Sum;
    if consumer {
      t := SumPositive(s.threads, AwakeConsumer);
    } else {
      t := SumPositive(s.threads, AwakeProducer);
    }
  }

  // ----- The resize that leaves no room -----

  /** From here on, as long as no resize fills the queue up, nothing is ever written
      outside the buffer. */
  ghost predicate Safe(s: State) {
    forall steps: seq<Step> :: Feasible(s, steps) && NeverFillsUp(s, steps) ==> !Execute(s, steps).crashed
  }

  lemma TwoSteps(s: State, a: Step, b: Step)
    requires CanStep(s, a) && CanStep(Apply(s, a), b)
    requires !FillsUp(s, a) && !FillsUp(Apply(s, a), b)
    ensures Feasible(s, [a, b]) && NeverFillsUp(s, [a, b])
    ensures Execute(s, [a, b]) == Apply(Apply(s, a), b)
  {
    hide CanStep, Apply, FillsUp;
    Prepend(Apply(s, a), b, []);
    assert [b] + [] == [b];
    Prepend(s, a, [b]);
    assert [a] + [b] == [a, b];
  }

  lemma {:induction false} Prepend(s: State, a: Step, rest: seq<Step>)
    requires CanStep(s, a) && !FillsUp(s, a)
    requires Feasible(Apply(s, a), rest) && NeverFillsUp(Apply(s, a), rest)
    ensures Feasible(s, [a] + rest) && NeverFillsUp(s, [a] + rest)
    ensures Execute(s, [a] + rest) == Execute(Apply(s, a), rest)
  {
    hide CanStep, Apply, FillsUp;
    assert ([a] + rest)[1..] == rest;
  }

  predicate AboutToPush(t: Thread) {
    t.Producer? && (t.ppc.PLock? || t.ppc.PAwake?)
  }

  predicate AboutToPop(t: Thread) {
    t.Consumer? && (t.cpc == CLock || t.cpc.CAwake?)
  }

  function Everybody(n: nat): (all: set<nat>)
    ensures forall i: nat :: i in all <==> i < n
  {
    if n == 0 then {} else Everybody(n - 1) + {n - 1}
  }

  lemma PushCrashes(s: State, p: nat) returns (push: Step)
    requires !s.crashed && s.running && Skewed(s.ring) && s.ring.load < |s.ring.buffer|
    requires p < |s.threads| && AboutToPush(s.threads[p])
    ensures CanStep(s, push) && Apply(s, push).crashed && !FillsUp(s, push)
  {
    push := EnterPush(p, Everybody(|s.threads|));
  }

  /** A skewed ring, a producer about to push and, if the queue is full, a consumer about to
      pop, whatever the others do: a pop, if need be, and a push write past the end. */
  lemma CrashFromSkewed(s: State, p: nat, c: nat) returns (steps: seq<Step>)
    requires !s.crashed && s.running && Skewed(s.ring)
    requires p < |s.threads| && AboutToPush(s.threads[p])
    requires s.ring.load == |s.ring.buffer| ==> c < |s.threads| && AboutToPop(s.threads[c])
    ensures Feasible(s, steps) && NeverFillsUp(s, steps) && Execute(s, steps).crashed
  {
    hide Feasible, NeverFillsUp, Execute, Contents;
    if s.ring.load < |s.ring.buffer| {
      var push := PushCrashes(s, p);
      EmptyRun(Apply(s, push));
      Prepend(s, push, []);
      steps := [push] + [];
    } else {
      var pop := EnterPop(c, Everybody(|s.threads|));
      var s' := Apply(s, pop);
      PopTakesOldest(s.ring);
      assert s'.threads[p] == s.threads[p];
      var push := PushCrashes(s', p);
      TwoSteps(s, pop, push);
      steps := [pop, push];
    }
  }

  lemma EmptyRun(s: State)
    ensures Feasible(s, []) && NeverFillsUp(s, []) && Execute(s, []) == s
  {
  }

  /** The same with the two threads still to be started. */
  lemma CrashAfterSpawning(s: State, message: Message) returns (steps: seq<Step>)
    requires !s.crashed && s.running && Skewed(s.ring) && Genuine(message)
    ensures Feasible(s, steps) && NeverFillsUp(s, steps) && Execute(s, steps).crashed
  {
    hide Feasible, NeverFillsUp, Execute, Skewed, Genuine;
    var p, c := |s.threads|, |s.threads| + 1;
    var s1 := Apply(s, Spawn(Producer(0, PTop)));
    var s2 := Apply(s1, Spawn(Consumer(0, CTop)));
    var s3 := Apply(s2, ReadFlag(p, message));
    var s4 := Apply(s3, ReadFlag(c, message));
    assert s4.threads == s.threads + [Producer(0, PLock(message)), Consumer(0, CLock)];
    steps := CrashFromSkewed(s4, p, c);
    Prepend(s3, ReadFlag(c, message), steps);
    steps := [ReadFlag(c, message)] + steps;
    Prepend(s2, ReadFlag(p, message), steps);
    steps := [ReadFlag(p, message)] + steps;
    Prepend(s1, Spawn(Consumer(0, CTop)), steps);
    steps := [Spawn(Consumer(0, CTop))] + steps;
    Prepend(s, Spawn(Producer(0, PTop)), steps);
    steps := [Spawn(Producer(0, PTop))] + steps;
  }

  /** Once the program is stopping nothing is pushed any more. */
  lemma {:induction false} StoppingNeverCrashes(s: State, steps: seq<Step>)
    requires !s.running && !s.crashed && Feasible(s, steps)
    ensures !Execute(s, steps).crashed
    decreases |steps|
  {
    if steps != [] {
      StoppingStep(s, steps[0]);
      StoppingNeverCrashes(Apply(s, steps[0]), steps[1..]);
    }
  }

  lemma StoppingStep(s: State, step: Step)
    requires !s.running && CanStep(s, step)
    ensures !Apply(s, step).running && !Apply(s, step).crashed
  {
    hide Wake, WakeAll, Resize, Pop, Push, Genuine;
  }

  lemma SomeGenuineMessage() returns (message: Message)
    ensures Genuine(message)
  {
    var blank := EmptyMessage();
    message := blank.(hash := HashOf(blank));
    assert HashedBytes(message) == HashedBytes(blank);
  }

  /** An accepted resize is safe if and only if it leaves room or the program is stopping. */
  lemma ResizeSafeIff(s: State, n: int, rest: seq<Message>)
    requires Inv(s) && CanStep(s, ResizeQueue(n, rest)) && ResizeAccepted(s.ring, n)
    ensures Safe(Apply(s, ResizeQueue(n, rest))) <==> n != s.ring.load || !s.running
  {
    var s' := Apply(s, ResizeQueue(n, rest));
    StepKeepsInv(s, ResizeQueue(n, rest));
    ResizeKeeps(s.ring, rest);
    hide Inv, Contents, WakeAll, Genuine, Resize, Feasible, Execute;
    if !s.running {
      forall steps: seq<Step> | Feasible(s', steps) && NeverFillsUp(s', steps)
        ensures !Execute(s', steps).crashed
      {
        StoppingNeverCrashes(s', steps);
      }
    } else if n != s.ring.load {
      forall steps: seq<Step> | Feasible(s', steps) && NeverFillsUp(s', steps)
        ensures !Execute(s', steps).crashed
      {
        NeverCrashes(s', steps);
      }
    } else {
      var message := SomeGenuineMessage();
      var steps := CrashAfterSpawning(s', message);
      assert Feasible(s', steps);
    }
  }

  /** From the start of the program: one message, a resize to one slot, and, after that
      resize alone, a write past the end of the buffer. */
  lemma CrashReachable(s: State) returns (steps: seq<Step>)
    requires Initial(s)
    ensures Feasible(s, steps) && Execute(s, steps).crashed
  {
    var message := SomeGenuineMessage();
    hide Genuine, Contents, Wake, WakeAll, Feasible, Execute, NeverFillsUp, ResizeAccepted;
    var s1 := Apply(s, Spawn(Producer(0, PTop)));
    var s2 := Apply(s1, ReadFlag(0, message));
    PushAppends(s2.ring, message);
    var s3 := Apply(s2, EnterPush(0, {}));
    ResizeToOne(s3);
    var s4 := Apply(s3, ResizeQueue(1, []));
    var rest := CrashAfterSpawning(s4, message);
    Before(s3, ResizeQueue(1, []), rest);
    Before(s2, EnterPush(0, {}), [ResizeQueue(1, [])] + rest);
    Before(s1, ReadFlag(0, message), [EnterPush(0, {})] + ([ResizeQueue(1, [])] + rest));
    steps := [ReadFlag(0, message)] + ([EnterPush(0, {})] + ([ResizeQueue(1, [])] + rest));
    Before(s, Spawn(Producer(0, PTop)), steps);
    steps := [Spawn(Producer(0, PTop))] + steps;
  }

  lemma ResizeToOne(s: State)
    requires Proper(s.ring) && s.ring.load == 1 && s.running && !s.crashed
    ensures CanStep(s, ResizeQueue(1, []))
    ensures var s' := Apply(s, ResizeQueue(1, [])); Skewed(s'.ring) && s'.running && !s'.crashed
  {
    ResizeKeeps(s.ring, []);
  }

  lemma Before(s: State, step: Step, rest: seq<Step>)
    requires CanStep(s, step) && Feasible(Apply(s, step), rest)
    ensures Feasible(s, [step] + rest) && Execute(s, [step] + rest) == Execute(Apply(s, step), rest)
  {
    hide CanStep, Apply;
    assert ([step] + rest)[1..] == rest;
  }
}
