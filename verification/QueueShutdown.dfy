/** How the queue's threads end once the program is told to stop. */
module QueueShutdown {
  import opened Counting
  import opened RingBuffer
  import opened MessageHash
  import opened SharedQueue
  import opened QueueMonitor

  predicate Done(t: Thread) {
    if t.Producer? then t.ppc == PDone else t.cpc == CDone
  }

  predicate AllDone(s: State) {
    forall t :: 0 <= t < |s.threads| ==> Done(s.threads[t])
  }

  /** How many steps of its own a thread has left at most once the program is stopping. */
  function Left(t: Thread): (n: nat)
    ensures n <= 4
    ensures n == 0 <==> Done(t)
  {
    match t
    case Producer(_, PDone) => 0
    case Producer(_, PTop) => 1
    case Producer(_, PAsleep(_)) => 3
    case Producer(_, _) => 2
    case Consumer(_, CDone) => 0
    case Consumer(_, CTop) => 1
    case Consumer(_, CGot(_)) => 2
    case Consumer(_, CAsleep) => 4
    case Consumer(_, _) => 3
  }

  /** A step of a thread, as opposed to one of the main thread. */
  predicate Own(step: Step) {
    step.ReadFlag? || step.EnterPush? || step.EnterPop? || step.CheckMessage? || step.WakeUp?
  }

  function OwnSteps(steps: seq<Step>): nat {
    if steps == [] then 0 else (if Own(steps[0]) then 1 else 0) + OwnSteps(steps[1..])
  }

  predicate NoSpawn(steps: seq<Step>) {
    forall i :: 0 <= i < |steps| ==> !steps[i].Spawn?
  }

  lemma WakingShortens(threads: seq<Thread>, consumer: bool, wake: set<nat>)
    ensures Sum(Wake(threads, consumer, wake), Left) <= Sum(threads, Left)
    ensures Sum(WakeAll(threads), Left) <= Sum(threads, Left)
  {
    SumMonotone(Wake(threads, consumer, wake), threads, Left);
    SumMonotone(WakeAll(threads), threads, Left);
  }

  lemma OwnStepShortens(s: State, step: Step)
    requires !s.running && CanStep(s, step) && Own(step)
    ensures var s' := Apply(s, step); !s'.running && Sum(s'.threads, Left) < Sum(s.threads, Left)
  {
    hide Sum, Wake, Pop, Push, Genuine, Signals;
    var t := step.thread;
    if step.EnterPop? {
      var got := match PopDecision(s.ring, s.running, s.threads[t].cpc.CAwake? && s.threads[t].cpc.timedOut)
        case Popped(m) => m
        case _ => EmptyMessage();
      var threads := s.threads[t := Consumer(s.threads[t].consumed, CGot(got))];
      SumUpdate(s.threads, t, threads[t], Left);
      WakingShortens(threads, false, step.wake);
    } else {
      SumUpdate(s.threads, t, Apply(s, step).threads[t], Left);
    }
  }

  lemma MainStepKeeps(s: State, step: Step)
    requires !s.running && CanStep(s, step) && !Own(step) && !step.Spawn?
    ensures var s' := Apply(s, step); !s'.running && Sum(s'.threads, Left) <= Sum(s.threads, Left)
  {
    hide Sum, WakeAll, Resize;
    WakingShortens(s.threads, true, {});
  }

  /** The threads' own steps are paid for by what they have left, whatever resizes and
      broadcasts come in between. */
  lemma {:induction false} StepsArePaidFor(s: State, steps: seq<Step>)
    requires !s.running && Feasible(s, steps) && NoSpawn(steps)
    ensures var end := Execute(s, steps);
      !end.running && OwnSteps(steps) + Sum(end.threads, Left) <= Sum(s.threads, Left)
    decreases |steps|
  {
    hide Apply, CanStep, Sum;
    if steps != [] {
      if Own(steps[0]) {
        OwnStepShortens(s, steps[0]);
      } else {
        MainStepKeeps(s, steps[0]);
      }
      StepsArePaidFor(Apply(s, steps[0]), steps[1..]);
    }
  }

  lemma {:induction false} LeftBounded(threads: seq<Thread>)
    ensures Sum(threads, Left) <= 4 * |threads|
  {
    if threads != [] {
      LeftBounded(threads[1..]);
    }
  }

  /** No thread that is not done is ever blocked for good: a sleeper times out. */
  lemma CanGoOn(s: State, t: nat) returns (step: Step)
    requires Inv(s) && !s.crashed && t < |s.threads| && !Done(s.threads[t])
    ensures Own(step) && step.thread == t && CanStep(s, step)
  {
    var message := SomeGenuineMessage();
    hide Contents, Sum, Genuine;
    var all := Everybody(|s.threads|);
    step := match s.threads[t]
      case Producer(_, PTop) => ReadFlag(t, message)
      case Producer(_, PAsleep(_)) => WakeUp(t, true)
      case Producer(_, _) => EnterPush(t, all)
      case Consumer(_, CTop) => ReadFlag(t, message)
      case Consumer(_, CAsleep) => WakeUp(t, true)
      case Consumer(_, CGot(_)) => CheckMessage(t)
      case Consumer(_, _) => EnterPop(t, all);
  }

  /** So a stopping program can always be brought to the end of all its threads. */
  lemma {:induction false} Finishes(s: State) returns (steps: seq<Step>)
    requires Inv(s) && !s.crashed && !s.running
    ensures Feasible(s, steps) && NoSpawn(steps) && AllDone(Execute(s, steps))
    decreases Sum(s.threads, Left)
  {
    hide Inv, Apply, CanStep, Sum, Left, Done;
    steps := [];
    if t: nat :| t < |s.threads| && !Done(s.threads[t]) {
      var step := CanGoOn(s, t);
      OwnStepShortens(s, step);
      StoppingStep(s, step);
      StepKeepsInv(s, step);
      var rest := Finishes(Apply(s, step));
      steps := [step] + rest;
      assert steps[1..] == rest;
    }
  }

  /** What was produced was consumed or is still in the ring when all threads are done. */
  lemma NothingUnaccounted(s: State)
    requires Inv(s) && AllDone(s)
    ensures Sum(s.threads, ProducedBy) == Sum(s.threads, ConsumedBy) + s.ring.load
  {
    hide Genuine, Sum, Contents;
    SumZero(s.threads, Delivered);
  }

  /** Of a stopping program's queue a consumer whose wait times out takes nothing, even if
      there is something; one woken in any other way takes the oldest message. */
  lemma TimeoutGivesUp(s: State, t: nat, timedOut: bool)
    requires Inv(s) && !s.crashed && !s.running && t < |s.threads| && Sleeps(s.threads[t], true)
    ensures CanStep(s, WakeUp(t, timedOut))
    ensures var s1, all := Apply(s, WakeUp(t, timedOut)), Everybody(|s.threads|);
      && CanStep(s1, EnterPop(t, all))
      && var s2 := Apply(s1, EnterPop(t, all));
         if timedOut || s.ring.load == 0
         then s2.ring == s.ring && s2.popped == s.popped && s2.threads[t].cpc == CGot(EmptyMessage())
         else s2.popped == s.popped + [Contents(s.ring)[0]] && s2.threads[t].cpc == CGot(Contents(s.ring)[0])
  {
    hide Genuine, Sum, Contents;
    if s.ring.load > 0 {
      PopTakesOldest(s.ring);
    }
  }

  /** After any run that has not crashed and the order to stop, as long as nobody starts
      another thread: at most four more steps for each thread, each of which can go on until
      it is done; and when all are, no message is unaccounted for. */
  lemma ShutdownEnds(s: State, before: seq<Step>, after: seq<Step>)
    requires Initial(s) && Feasible(s, before) && !Execute(s, before).crashed && NoSpawn(after)
    requires Feasible(Apply(Execute(s, before), StopAll), after)
    ensures var end := Execute(Apply(Execute(s, before), StopAll), after);
      && !end.crashed
      && OwnSteps(after) <= 4 * |Execute(s, before).threads|
      && (forall t: nat :: t < |end.threads| && !Done(end.threads[t]) ==>
            exists step :: Own(step) && step.thread == t && CanStep(end, step))
      && (AllDone(end) ==> Sum(end.threads, ProducedBy) == Sum(end.threads, ConsumedBy) + end.ring.load)
  {
    InitialInv(s);
    hide Inv, Feasible, Execute, CanStep, Sum, Done, AllDone, Initial;
    RunKeepsInv(s, before);
    var s0 := Execute(s, before);
    assert CanStep(s0, StopAll) by {
      StopEnabled(s0);
    }
    StepKeepsInv(s0, StopAll);
    var s1 := Apply(s0, StopAll);
    RunKeepsInv(s1, after);
    StoppingNeverCrashes(s1, after);
    StepsArePaidFor(s1, after);
    LeftBounded(s1.threads);
    var end := Execute(s1, after);
    forall t: nat | t < |end.threads| && !Done(end.threads[t])
      ensures exists step :: Own(step) && step.thread == t && CanStep(end, step)
    {
      var step := CanGoOn(end, t);
    }
    if AllDone(end) {
      NothingUnaccounted(end);
    }
  }

  lemma StopEnabled(s: State)
    requires !s.crashed
    ensures CanStep(s, StopAll) && !Apply(s, StopAll).running && !Apply(s, StopAll).crashed
    ensures Apply(s, StopAll).threads == s.threads
  {
  }
}
