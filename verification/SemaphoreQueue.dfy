/** The queue in shared memory whose push and pop check nothing: producers and consumers
    are processes, and all safety comes from three semaphores. Processes are started,
    told to stop by SIGTERM, and leave, at any time. */
module SemaphoreQueue {
  import opened Counting
  import opened RingBuffer
  import opened MessageHash

  const QUEUE_SIZE := 10

  /** The unchecked operations on the shared fields. */
  class UncheckedQueue {
    const buffer: array<Message>
    var head: int
    var tail: int
    var addedCount: int
    var extractedCount: int
    var currentLoad: int

    ghost function View(): Ring<Message>
      reads this, buffer
    {
      Ring(buffer[..], head, tail, addedCount, extractedCount, currentLoad)
    }

    ghost predicate Valid()
      reads this, buffer
    {
      buffer.Length == QUEUE_SIZE && 0 <= head < QUEUE_SIZE && 0 <= tail < QUEUE_SIZE
    }

    constructor (blank: Message)
      ensures Valid() && Proper(View()) && Contents(View()) == [] && fresh(buffer) && buffer.Length == 10
    {
      buffer := new Message[QUEUE_SIZE](i => blank);
      head, tail, addedCount, extractedCount, currentLoad := 0, 0, 0, 0, 0;
    }

    method QueuePush(message: Message)
      requires Valid()
      modifies this, buffer
      ensures Valid() && View() == Push(old(View()), message)
      ensures old(Proper(View())) && old(currentLoad) < QUEUE_SIZE ==>
                Proper(View()) && Contents(View()) == old(Contents(View())) + [message]
    {
      if Proper(View()) && currentLoad < QUEUE_SIZE {
        PushAppends(View(), message);
      }
      buffer[tail] := message;
      tail := (tail + 1) % QUEUE_SIZE;
      addedCount := addedCount + 1;
      currentLoad := currentLoad + 1;
      assert View() == Push(old(View()), message);
    }

    method QueuePop() returns (message: Message)
      requires Valid()
      modifies this
      ensures Valid() && View() == Pop(old(View())) && message == old(View()).buffer[old(head)]
      ensures old(Proper(View())) && old(currentLoad) > 0 ==>
                Proper(View()) && old(Contents(View())) == [message] + Contents(View())
    {
      if Proper(View()) && currentLoad > 0 {
        PopTakesOldest(View());
      }
      message := buffer[head];
      head := (head + 1) % QUEUE_SIZE;
      extractedCount := extractedCount + 1;
      currentLoad := currentLoad - 1;
      assert View() == Pop(old(View()));
    }
  }

  // ----- The processes -----

  datatype Pc =
    | Top                   // while (keep_running); a producer makes its message
    | WaitItem              // sem_wait(EMPTY) of a producer, sem_wait(FULL) of a consumer
    | GotItem(token: bool)  // that call has returned, with the token or interrupted
    | WaitMutex             // sem_wait(MUTEX)
    | Critical              // about to push or pop
    | Leaving               // has pushed or popped, about to signal MUTEX
    | SignalItem            // about to signal FULL (producer) or EMPTY (consumer)
    | Resting               // the checksum test of a consumer, and the delay
    | Exited

  /** `held` is the message a producer made or a consumer popped; `roused` says that a
      signal has found the process asleep in the semaphore operation it is in. */
  datatype Process = Process(producer: bool, running: bool, pc: Pc, held: Message, roused: bool)

  /** Semaphores, queue and processes; tokens taken by a process that then exits are
      counted as leaked, and the messages pushed and popped are recorded. */
  datatype State = State(
    empty: nat,
    full: nat,
    mutex: nat,
    ring: Ring<Message>,
    procs: seq<Process>,
    leakedEmpty: nat,
    leakedFull: nat,
    pushed: seq<Message>,
    popped: seq<Message>)

  datatype Step =
    | Begin(p: nat, made: Message)
    | TakeItem(p: nat)
    | InterruptItem(p: nat)     // EINTR from EMPTY or FULL, and stopping
    | CheckRunning(p: nat)
    | TakeMutex(p: nat)
    | InterruptMutex(p: nat)    // EINTR from MUTEX, and stopping
    | Act(p: nat)
    | ReleaseMutex(p: nat)
    | PostItem(p: nat)
    | Rest(p: nat)
    | Sigterm(p: nat, asleep: bool)   // `asleep`: it arrives inside a blocked semaphore operation
    | Fork(producer: bool, blank: Message)

  function Items(s: State, producer: bool): nat {
    if producer then s.empty else s.full
  }

  predicate At(s: State, p: nat, pc: Pc) {
    p < |s.procs| && s.procs[p].pc == pc
  }

  /** May be asleep in a semaphore operation; it may also be just about to enter it. */
  predicate MaySleep(s: State, p: nat) {
    || (At(s, p, WaitItem) && Items(s, s.procs[p].producer) == 0)
    || (At(s, p, WaitMutex) && s.mutex == 0)
  }

  /** A signal that arrives before the process sleeps interrupts nothing. */
  predicate CanStep(s: State, step: Step) {
    match step
    case Begin(p, made) => At(s, p, Top) && Genuine(made)
    case TakeItem(p) => At(s, p, WaitItem) && Items(s, s.procs[p].producer) > 0
    case InterruptItem(p) => At(s, p, WaitItem) && MaySleep(s, p) && s.procs[p].roused && !s.procs[p].running
    case CheckRunning(p) => p < |s.procs| && s.procs[p].pc.GotItem?
    case TakeMutex(p) => At(s, p, WaitMutex) && s.mutex > 0
    case InterruptMutex(p) => At(s, p, WaitMutex) && MaySleep(s, p) && s.procs[p].roused && !s.procs[p].running
    case Act(p) => At(s, p, Critical) && 0 <= s.ring.head < |s.ring.buffer| && 0 <= s.ring.tail < |s.ring.buffer|
    case ReleaseMutex(p) => At(s, p, Leaving)
    case PostItem(p) => At(s, p, SignalItem)
    case Rest(p) => At(s, p, Resting)
    case Sigterm(p, asleep) => p < |s.procs| && s.procs[p].pc != Exited && (asleep ==> MaySleep(s, p))
    case Fork(_, _) => true
  }

  function Set(s: State, p: nat, pc: Pc): State
    requires p < |s.procs|
  {
    s.(procs := s.procs[p := s.procs[p].(pc := pc, roused := false)])
  }

  function Apply(s: State, step: Step): State
    requires CanStep(s, step)
  {
    match step
    case Begin(p, made) =>
      var me := s.procs[p];
      if !me.running then Set(s, p, Exited)
      else s.(procs := s.procs[p := me.(pc := WaitItem, held := if me.producer then made else me.held)])
    case TakeItem(p) =>
      if s.procs[p].producer then Set(s.(empty := s.empty - 1), p, GotItem(true))
      else Set(s.(full := s.full - 1), p, GotItem(true))
    case InterruptItem(p) => Set(s, p, GotItem(false))
    case CheckRunning(p) =>
      if s.procs[p].running then Set(s, p, WaitMutex)
      else if !s.procs[p].pc.token then Set(s, p, Exited)
      else if s.procs[p].producer then Set(s.(leakedEmpty := s.leakedEmpty + 1), p, Exited)
      else Set(s.(leakedFull := s.leakedFull + 1), p, Exited)
    case TakeMutex(p) => Set(s.(mutex := s.mutex - 1), p, Critical)
    case InterruptMutex(p) => Set(s, p, Critical)
    case Act(p) =>
      var me := s.procs[p];
      if me.producer then Set(s.(ring := Push(s.ring, me.held), pushed := s.pushed + [me.held]), p, Leaving)
      else
        var m := s.ring.buffer[s.ring.head];
        s.(ring := Pop(s.ring), popped := s.popped + [m], procs := s.procs[p := me.(pc := Leaving, held := m)])
    case ReleaseMutex(p) => Set(s.(mutex := s.mutex + 1), p, SignalItem)
    case PostItem(p) =>
      if s.procs[p].producer then Set(s.(full := s.full + 1), p, Resting)
      else Set(s.(empty := s.empty + 1), p, Resting)
    case Rest(p) => Set(s, p, Top)
    case Sigterm(p, asleep) =>
      var me := s.procs[p];
      s.(procs := s.procs[p := me.(running := false, roused := me.roused || asleep)])
    case Fork(producer, blank) => s.(procs := s.procs + [Process(producer, true, Top, blank, false)])
  }

  predicate Feasible(s: State, steps: seq<Step>)
    decreases |steps|
  {
    steps == [] || (CanStep(s, steps[0]) && Feasible(Apply(s, steps[0]), steps[1..]))
  }

  function Execute(s: State, steps: seq<Step>): State
    requires Feasible(s, steps)
    decreases |steps|
  {
    if steps == [] then s else Execute(Apply(s, steps[0]), steps[1..])
  }

  /** `init_semaphores` on a zeroed segment, before any child is forked. */
  predicate Initial(s: State) {
    && s.empty == QUEUE_SIZE && s.full == 0 && s.mutex == 1
    && |s.ring.buffer| == QUEUE_SIZE && Proper(s.ring) && s.ring.load == 0
    && s.procs == [] && s.leakedEmpty == 0 && s.leakedFull == 0 && s.pushed == [] && s.popped == []
  }

  // ----- Invariants -----

  function InSection(p: Process): nat {
    if p.pc == Critical || p.pc == Leaving then 1 else 0
  }

  predicate HoldsToken(p: Process) {
    p.pc == GotItem(true) || p.pc == WaitMutex || p.pc == Critical
  }

  predicate OwesToken(p: Process) {
    p.pc == Leaving || p.pc == SignalItem
  }

  /** An EMPTY token a producer has and not used, or a consumer has freed and not returned. */
  function EmptyInHand(p: Process): nat {
    if (p.producer && HoldsToken(p)) || (!p.producer && OwesToken(p)) then 1 else 0
  }

  function FullInHand(p: Process): nat {
    if (!p.producer && HoldsToken(p)) || (p.producer && OwesToken(p)) then 1 else 0
  }

  function Gone(p: Process): nat {
    if p.pc == Exited then 1 else 0
  }

  /** Every slot is either free and accounted for by an EMPTY token, or taken and
      accounted for by a FULL one; and the mutex is free or one process is inside. */
  predicate Balanced(s: State) {
    && s.mutex + Sum(s.procs, InSection) == 1
    && s.empty + Sum(s.procs, EmptyInHand) + s.leakedEmpty == QUEUE_SIZE - s.ring.load
    && s.full + Sum(s.procs, FullInHand) + s.leakedFull == s.ring.load
    && s.leakedEmpty + s.leakedFull <= Sum(s.procs, Gone)
  }

  predicate Fifo(s: State) {
    && |s.ring.buffer| == QUEUE_SIZE && Proper(s.ring)
    && s.pushed == s.popped + Contents(s.ring)
    && forall i :: 0 <= i < |s.pushed| ==> Genuine(s.pushed[i])
  }

  predicate ProcessOk(p: Process) {
    && (p.pc == GotItem(false) || p.roused ==> !p.running)
    && (p.producer && p.pc != Top && p.pc != Exited ==> Genuine(p.held))
    && (!p.producer && (OwesToken(p) || p.pc == Resting) ==> Genuine(p.held))
  }

  predicate Inv(s: State) {
    && Balanced(s) && Fifo(s)
    && forall p :: 0 <= p < |s.procs| ==> ProcessOk(s.procs[p])
  }

  lemma UpdateSums(procs: seq<Process>, p: nat, x: Process)
    requires p < |procs|
    ensures Sum(procs[p := x], InSection) == Sum(procs, InSection) - InSection(procs[p]) + InSection(x)
    ensures Sum(procs[p := x], EmptyInHand) == Sum(procs, EmptyInHand) - EmptyInHand(procs[p]) + EmptyInHand(x)
    ensures Sum(procs[p := x], FullInHand) == Sum(procs, FullInHand) - FullInHand(procs[p]) + FullInHand(x)
    ensures Sum(procs[p := x], Gone) == Sum(procs, Gone) - Gone(procs[p]) + Gone(x)
    ensures InSection(procs[p]) <= Sum(procs, InSection)
    ensures EmptyInHand(procs[p]) <= Sum(procs, EmptyInHand)
    ensures FullInHand(procs[p]) <= Sum(procs, FullInHand)
  {
    SumUpdate(procs, p, x, InSection);
    SumUpdate(procs, p, x, EmptyInHand);
    SumUpdate(procs, p, x, FullInHand);
    SumUpdate(procs, p, x, Gone);
  }

  /** What the unchecked operations rely on: a producer about to push finds a free slot, a
      consumer about to pop finds a message, and nobody else is inside. */
  lemma UncheckedIsSafe(s: State, p: nat)
    requires Inv(s) && At(s, p, Critical)
    ensures if s.procs[p].producer then s.ring.load < QUEUE_SIZE else s.ring.load > 0
    ensures forall q :: 0 <= q < |s.procs| && q != p ==> InSection(s.procs[q]) == 0
  {
    hide Genuine, Sum, Contents;
    UpdateSums(s.procs, p, s.procs[p]);
    forall q | 0 <= q < |s.procs| && q != p
      ensures InSection(s.procs[q]) == 0
    {
      if p < q {
        SumTwo(s.procs, p, q, InSection);
      } else {
        SumTwo(s.procs, q, p, InSection);
      }
    }
  }

  lemma ActKeepsInv(s: State, p: nat)
    requires Inv(s) && CanStep(s, Act(p))
    ensures Inv(Apply(s, Act(p)))
  {
    hide Genuine, Sum, Contents;
    UncheckedIsSafe(s, p);
    assert ProcessOk(s.procs[p]);
    var s' := Apply(s, Act(p));
    UpdateSums(s.procs, p, s'.procs[p]);
    if s.procs[p].producer {
      PushAppends(s.ring, s.procs[p].held);
    } else {
      PopTakesOldest(s.ring);
      var m := s.ring.buffer[s.ring.head];
      assert Contents(s.ring) == [m] + Contents(Pop(s.ring));
      assert s.pushed == s.popped + [m] + Contents(Pop(s.ring));
      assert s.pushed[|s.popped|] == m;
    }
  }

  lemma ItemKeepsInv(s: State, step: Step)
    requires Inv(s) && CanStep(s, step) && (step.TakeItem? || step.InterruptItem? || step.PostItem?)
    ensures Inv(Apply(s, step))
  {
    hide Genuine, Sum, Contents, Proper;
    assert ProcessOk(s.procs[step.p]);
    UpdateSums(s.procs, step.p, Apply(s, step).procs[step.p]);
  }

  lemma CheckKeepsInv(s: State, p: nat)
    requires Inv(s) && CanStep(s, CheckRunning(p))
    ensures Inv(Apply(s, CheckRunning(p)))
  {
    hide Genuine, Sum, Contents, Proper;
    assert ProcessOk(s.procs[p]);
    UpdateSums(s.procs, p, Apply(s, CheckRunning(p)).procs[p]);
  }

  lemma LocalKeepsInv(s: State, step: Step)
    requires Inv(s) && CanStep(s, step)
    requires step.Begin? || step.TakeMutex? || step.ReleaseMutex? || step.Rest? || step.Sigterm?
    ensures Inv(Apply(s, step))
  {
    hide Genuine, Sum, Contents, Proper;
    assert ProcessOk(s.procs[step.p]);
    UpdateSums(s.procs, step.p, Apply(s, step).procs[step.p]);
  }

  lemma StepKeepsInv(s: State, step: Step)
    requires Inv(s) && CanStep(s, step) && !step.InterruptMutex?
    ensures Inv(Apply(s, step))
  {
    hide Genuine, Sum, Contents;
    match step {
      case Act(p) => ActKeepsInv(s, p);
      case Fork(producer, blank) =>
        var child := Process(producer, true, Top, blank, false);
        SumAppend(s.procs, child, InSection);
        SumAppend(s.procs, child, EmptyInHand);
        SumAppend(s.procs, child, FullInHand);
        SumAppend(s.procs, child, Gone);
        assert forall p :: 0 <= p < |s.procs| ==> (s.procs + [child])[p] == s.procs[p];
      case TakeItem(p) => ItemKeepsInv(s, step);
      case InterruptItem(p) => ItemKeepsInv(s, step);
      case CheckRunning(p) => CheckKeepsInv(s, p);
      case PostItem(p) => ItemKeepsInv(s, step);
      case _ => LocalKeepsInv(s, step);
    }
  }

  predicate NeverInterruptsMutex(steps: seq<Step>) {
    forall i :: 0 <= i < |steps| ==> !steps[i].InterruptMutex?
  }

  lemma {:induction false} RunKeepsInv(s: State, steps: seq<Step>)
    requires Inv(s) && Feasible(s, steps) && NeverInterruptsMutex(steps)
    ensures Inv(Execute(s, steps))
    decreases |steps|
  {
    if steps != [] {
      StepKeepsInv(s, steps[0]);
      RunKeepsInv(Apply(s, steps[0]), steps[1..]);
    }
  }

  predicate MutualExclusion(s: State) {
    forall p, q :: 0 <= p < q < |s.procs| ==> InSection(s.procs[p]) + InSection(s.procs[q]) <= 1
  }

  /** How many waits on the mutex a run interrupts. */
  function Intrusions(steps: seq<Step>): nat {
    if steps == [] then 0
    else (if steps[0].InterruptMutex? then 1 else 0) + Intrusions(steps[1..])
  }

  /** Each of them adds one, for good, to the processes the critical section has room for. */
  lemma {:induction false} RoomGrows(s: State, steps: seq<Step>)
    requires Feasible(s, steps)
    ensures var end := Execute(s, steps);
      end.mutex + Sum(end.procs, InSection) == s.mutex + Sum(s.procs, InSection) + Intrusions(steps)
    decreases |steps|
  {
    hide Apply, CanStep, Sum;
    if steps != [] {
      StepRoom(s, steps[0]);
      RoomGrows(Apply(s, steps[0]), steps[1..]);
    }
  }

  lemma StepRoom(s: State, step: Step)
    requires CanStep(s, step)
    ensures var s' := Apply(s, step);
      s'.mutex + Sum(s'.procs, InSection) == s.mutex + Sum(s.procs, InSection) + if step.InterruptMutex? then 1 else 0
  {
    hide Sum, Genuine, Push, Pop;
    var s' := Apply(s, step);
    if step.Fork? {
      SumAppend(s.procs, s'.procs[|s.procs|], InSection);
    } else {
      SumUpdate(s.procs, step.p, s'.procs[step.p], InSection);
    }
  }

  lemma {:induction false} NoIntrusions(steps: seq<Step>)
    ensures Intrusions(steps) == 0 <==> NeverInterruptsMutex(steps)
  {
    if steps != [] {
      NoIntrusions(steps[1..]);
      assert NeverInterruptsMutex(steps) <==> !steps[0].InterruptMutex? && NeverInterruptsMutex(steps[1..]) by {
        assert forall i :: 0 < i < |steps| ==> steps[i] == steps[1..][i - 1];
      }
    }
  }

  /** One process at a time is in the critical section, and finds what it needs there. */
  predicate Orderly(s: State) {
    && MutualExclusion(s)
    && (forall p :: 0 <= p < |s.procs| && s.procs[p].pc == Critical ==>
          if s.procs[p].producer then s.ring.load < QUEUE_SIZE else s.ring.load > 0)
  }

  /** Every message a consumer compares with its hash is genuine. */
  predicate Truthful(s: State) {
    forall p :: 0 <= p < |s.procs| && !s.procs[p].producer && s.procs[p].pc == Resting ==> Genuine(s.procs[p].held)
  }

  /** In every run the room in the critical section is one more than the waits on the mutex
      that were interrupted. If none was: tokens balance, one process at a time is inside,
      no unread slot is overwritten and no empty one read, messages come out in the order
      they went in, and every message a consumer looks at is genuine. */
  lemma EveryRun(s: State, steps: seq<Step>)
    requires Initial(s) && Feasible(s, steps)
    ensures var end := Execute(s, steps);
      && end.mutex + Sum(end.procs, InSection) == 1 + Intrusions(steps)
      && (Intrusions(steps) == 0 ==> Balanced(end) && Fifo(end) && Orderly(end) && Truthful(end))
  {
    RoomGrows(s, steps);
    NoIntrusions(steps);
    if Intrusions(steps) == 0 {
      UndisturbedRun(s, steps);
    }
  }

  lemma UndisturbedRun(s: State, steps: seq<Step>)
    requires Initial(s) && Feasible(s, steps) && NeverInterruptsMutex(steps)
    ensures var end := Execute(s, steps); Balanced(end) && Fifo(end) && Orderly(end) && Truthful(end)
  {
    hide Genuine;
    RunKeepsInv(s, steps);
    var end := Execute(s, steps);
    Excludes(end);
    hide Sum, Contents, Execute, Feasible;
    forall p | 0 <= p < |end.procs| && end.procs[p].pc == Critical
      ensures if end.procs[p].producer then end.ring.load < QUEUE_SIZE else end.ring.load > 0
    {
      UncheckedIsSafe(end, p);
    }
  }

  lemma Excludes(s: State)
    requires Inv(s)
    ensures MutualExclusion(s)
  {
    hide Genuine, Sum, Contents;
    forall p, q | 0 <= p < q < |s.procs|
      ensures InSection(s.procs[p]) + InSection(s.procs[q]) <= 1
    {
      SumTwo(s.procs, p, q, InSection);
    }
  }

  /** Exactly the interrupted wait on the mutex breaks mutual exclusion, and it always does. */
  lemma ExclusionIff(s: State, step: Step)
    requires Inv(s) && CanStep(s, step)
    ensures MutualExclusion(Apply(s, step)) <==> !step.InterruptMutex?
  {
    hide Genuine, Sum, Contents;
    if !step.InterruptMutex? {
      StepKeepsInv(s, step);
      Excludes(Apply(s, step));
    } else {
      var inside := SumPositive(s.procs, InSection);
      var s' := Apply(s, step);
      assert s'.procs[inside] == s.procs[inside] && inside != step.p;
      assert InSection(s'.procs[inside]) + InSection(s'.procs[step.p]) == 2;
    }
  }

  // ----- Deadlock -----

  /** A step some process takes on its own, without a signal or a new process. */
  predicate Progress(step: Step) {
    !step.Sigterm? && !step.Fork? && !step.InterruptMutex?
  }

  predicate Alive(s: State, producer: bool) {
    exists p :: 0 <= p < |s.procs| && s.procs[p].producer == producer && s.procs[p].pc != Exited
  }

  /** With a live producer and a live consumer, and fewer tokens leaked than there are
      slots, somebody can always go on. */
  lemma NoDeadlock(s: State) returns (step: Step)
    requires Inv(s) && Alive(s, true) && Alive(s, false)
    requires s.leakedEmpty + s.leakedFull < QUEUE_SIZE
    ensures CanStep(s, step) && Progress(step)
  {
    hide Genuine, Sum, Contents;
    if p: nat :| p < |s.procs| && s.procs[p].pc != Exited && s.procs[p].pc != WaitItem && s.procs[p].pc != WaitMutex {
      step := OwnStep(s, p);
    } else if p: nat :| At(s, p, WaitMutex) {
      if s.mutex == 0 {
        var inside := SumPositive(s.procs, InSection);
        assert false;
      }
      step := TakeMutex(p);
    } else {
      forall p | 0 <= p < |s.procs|
        ensures s.procs[p].pc == Exited || s.procs[p].pc == WaitItem
      {
        assert !At(s, p, WaitMutex);
      }
      NothingInHand(s);
      var producer: nat :| producer < |s.procs| && s.procs[producer].producer && s.procs[producer].pc != Exited;
      var consumer: nat :| consumer < |s.procs| && !s.procs[consumer].producer && s.procs[consumer].pc != Exited;
      step := if s.empty > 0 then TakeItem(producer) else TakeItem(consumer);
    }
  }

  lemma OwnStep(s: State, p: nat) returns (step: Step)
    requires Inv(s) && p < |s.procs|
    requires s.procs[p].pc != Exited && s.procs[p].pc != WaitItem && s.procs[p].pc != WaitMutex
    ensures CanStep(s, step) && Progress(step)
  {
    hide Sum, Contents;
    var made := SomeGenuine();
    step := match s.procs[p].pc
      case Top => Begin(p, made)
      case GotItem(_) => CheckRunning(p)
      case Critical => Act(p)
      case Leaving => ReleaseMutex(p)
      case SignalItem => PostItem(p)
      case _ => Rest(p);
  }

  lemma SomeGenuine() returns (message: Message)
    ensures Genuine(message)
  {
    var blank := Message(0, 0, 0, seq(DATA_BYTES, i => 0));
    message := blank.(hash := HashOf(blank));
    assert HashedBytes(message) == HashedBytes(blank);
  }

  lemma NothingInHand(s: State)
    requires forall p :: 0 <= p < |s.procs| ==> s.procs[p].pc == Exited || s.procs[p].pc == WaitItem
    ensures Sum(s.procs, EmptyInHand) == 0 && Sum(s.procs, FullInHand) == 0 && Sum(s.procs, InSection) == 0
  {
    SumZero(s.procs, EmptyInHand);
    SumZero(s.procs, FullInHand);
    SumZero(s.procs, InSection);
  }

  ghost predicate Stuck(s: State) {
    forall step: Step :: Progress(step) ==> !CanStep(s, step)
  }

  /** Told to stop or not: only a signal that arrives inside the wait can end it. */
  predicate WaitsForItem(p: Process) {
    p.pc == WaitItem && !p.roused
  }

  /** With both kinds alive the system is stuck exactly when the leaked tokens amount to the
      whole queue and everybody left waits for an item, no signal having found it asleep. */
  lemma StuckIff(s: State)
    requires Inv(s) && Alive(s, true) && Alive(s, false)
    ensures Stuck(s) <==>
      && s.leakedEmpty + s.leakedFull == QUEUE_SIZE
      && forall p :: 0 <= p < |s.procs| && s.procs[p].pc != Exited ==> WaitsForItem(s.procs[p])
  {
    hide Genuine, Sum, Contents;
    if s.leakedEmpty + s.leakedFull < QUEUE_SIZE {
      var step := NoDeadlock(s);
      assert !Stuck(s);
    } else if p: nat :| p < |s.procs| && s.procs[p].pc != Exited && !WaitsForItem(s.procs[p]) {
      UpdateSums(s.procs, p, s.procs[p]);
      var step := InterruptItem(p);
      if s.procs[p].pc != WaitItem {
        step := OwnStep(s, p);
      }
      assert CanStep(s, step) && Progress(step);
    }
  }

  /** Each leak costs a process: while fewer than `QUEUE_SIZE` processes have exited there
      is no deadlock. */
  lemma FewExitsNoDeadlock(s: State) returns (step: Step)
    requires Inv(s) && Alive(s, true) && Alive(s, false) && Sum(s.procs, Gone) < QUEUE_SIZE
    ensures CanStep(s, step) && Progress(step)
  {
    hide Genuine, Sum, Contents;
    step := NoDeadlock(s);
  }
}
