/** What goes wrong with the semaphore queue over whole runs, and exactly when: leaked
    tokens bring it to a standstill, and an interrupted wait on the mutex lets two
    processes in. */
module SemaphoreFailures {
  import opened Counting
  import opened RingBuffer
  import opened MessageHash
  import opened SemaphoreQueue

  // ----- Runs put together -----

  lemma OneMore(s: State, step: Step, rest: seq<Step>)
    requires CanStep(s, step) && Feasible(Apply(s, step), rest)
    ensures Feasible(s, [step] + rest) && Execute(s, [step] + rest) == Execute(Apply(s, step), rest)
  {
    assert ([step] + rest)[1..] == rest;
  }

  lemma {:induction false} Append(s: State, a: seq<Step>, b: seq<Step>)
    requires Feasible(s, a) && Feasible(Execute(s, a), b)
    ensures Feasible(s, a + b) && Execute(s, a + b) == Execute(Execute(s, a), b)
    decreases |a|
  {
    if a == [] {
      assert a + b == b;
    } else {
      assert (a + b)[1..] == a[1..] + b;
      Append(Apply(s, a[0]), a[1..], b);
    }
  }

  // ----- Standstill -----

  /** Holds a token it is going to leak: told to stop after taking it. */
  function Doomed(p: Process): nat {
    if p.pc == GotItem(true) && !p.running then 1 else 0
  }

  /** Tokens that no push or pop will ever use again. */
  function Lost(s: State): nat {
    s.leakedEmpty + s.leakedFull + Sum(s.procs, Doomed)
  }

  /** Nothing is pushed or popped in any run from here, whatever is forked or signalled. */
  ghost predicate Dead(s: State) {
    forall steps: seq<Step> :: Feasible(s, steps) ==>
      Execute(s, steps).pushed == s.pushed && Execute(s, steps).popped == s.popped
  }

  /** Some run pushes or pops a message. */
  ghost predicate CanMove(s: State) {
    exists steps: seq<Step> :: Feasible(s, steps) && Moved(s, Execute(s, steps))
  }

  predicate Moved(s: State, end: State) {
    |end.pushed| + |end.popped| > |s.pushed| + |s.popped|
  }

  function InHand(p: Process): nat {
    EmptyInHand(p) + FullInHand(p)
  }

  lemma {:induction false} InHandSum(procs: seq<Process>)
    ensures Sum(procs, InHand) == Sum(procs, EmptyInHand) + Sum(procs, FullInHand)
    ensures Sum(procs, Doomed) <= Sum(procs, InHand)
  {
    if procs != [] {
      InHandSum(procs[1..]);
    }
  }

  /** When all tokens are lost, the semaphores are at zero and nobody holds a token it
      could use. */
  lemma NothingUseful(s: State)
    requires Inv(s) && Lost(s) == QUEUE_SIZE
    ensures s.empty == 0 && s.full == 0
    ensures forall p :: 0 <= p < |s.procs| ==> InHand(s.procs[p]) == Doomed(s.procs[p])
  {
    hide Genuine, Sum, Contents;
    InHandSum(s.procs);
    forall p | 0 <= p < |s.procs|
      ensures InHand(s.procs[p]) == Doomed(s.procs[p])
    {
      Strictly(s.procs, p);
    }
  }

  lemma {:induction false} Strictly(procs: seq<Process>, p: nat)
    requires p < |procs|
    ensures Sum(procs, Doomed) + InHand(procs[p]) <= Sum(procs, InHand) + Doomed(procs[p])
  {
    if p == 0 {
      InHandSum(procs[1..]);
    } else {
      Strictly(procs[1..], p - 1);
    }
  }

  /** The steps that use no token. */
  predicate Harmless(step: Step) {
    step.Begin? || step.InterruptItem? || step.CheckRunning? || step.Rest? || step.Sigterm? || step.Fork?
  }

  lemma OnlyHarmless(s: State, step: Step)
    requires Inv(s) && Lost(s) == QUEUE_SIZE && CanStep(s, step)
    ensures Harmless(step)
    ensures step.Sigterm? ==> s.procs[step.p].pc != GotItem(true) || !s.procs[step.p].running
    ensures step.CheckRunning? ==> s.procs[step.p].pc == GotItem(false) || !s.procs[step.p].running
  {
    NothingUseful(s);
    hide Inv, Sum, Contents;
    if !step.Fork? {
      assert InHand(s.procs[step.p]) == Doomed(s.procs[step.p]);
    }
  }

  lemma HarmlessKeepsLost(s: State, step: Step)
    requires CanStep(s, step) && Harmless(step)
    requires step.Sigterm? ==> s.procs[step.p].pc != GotItem(true) || !s.procs[step.p].running
    requires step.CheckRunning? ==> s.procs[step.p].pc == GotItem(false) || !s.procs[step.p].running
    ensures var s' := Apply(s, step); Lost(s') == Lost(s) && s'.pushed == s.pushed && s'.popped == s.popped
  {
    hide Genuine, Sum, Push, Pop;
    var s' := Apply(s, step);
    if step.Fork? {
      SumAppend(s.procs, s'.procs[|s.procs|], Doomed);
    } else {
      SumUpdate(s.procs, step.p, s'.procs[step.p], Doomed);
    }
  }

  lemma LostStays(s: State, step: Step)
    requires Inv(s) && Lost(s) == QUEUE_SIZE && CanStep(s, step)
    ensures var s' := Apply(s, step);
      Inv(s') && Lost(s') == QUEUE_SIZE && s'.pushed == s.pushed && s'.popped == s.popped
  {
    hide Inv, Lost, Apply;
    OnlyHarmless(s, step);
    HarmlessKeepsLost(s, step);
    StepKeepsInv(s, step);
  }

  lemma {:induction false} LostForever(s: State, steps: seq<Step>)
    requires Inv(s) && Lost(s) == QUEUE_SIZE && Feasible(s, steps)
    ensures var end := Execute(s, steps);
      Inv(end) && Lost(end) == QUEUE_SIZE && end.pushed == s.pushed && end.popped == s.popped
    decreases |steps|
  {
    if steps != [] {
      LostStays(s, steps[0]);
      LostForever(Apply(s, steps[0]), steps[1..]);
    }
  }

  // ----- A way out -----

  lemma StepThenMove(s: State, step: Step)
    requires CanStep(s, step) && CanMove(Apply(s, step))
    requires Apply(s, step).pushed == s.pushed && Apply(s, step).popped == s.popped
    ensures CanMove(s)
  {
    hide CanStep, Apply, Feasible, Execute;
    var rest :| Feasible(Apply(s, step), rest) && Moved(Apply(s, step), Execute(Apply(s, step), rest));
    OneMore(s, step, rest);
    assert Moved(s, Execute(s, [step] + rest));
  }

  lemma FromCritical(s: State, p: nat)
    requires Inv(s) && At(s, p, Critical)
    ensures CanMove(s)
  {
    hide Inv, Genuine, Push, Pop;
    assert CanStep(s, Act(p)) by {
      ActEnabled(s, p);
    }
    OneMore(s, Act(p), []);
    assert [Act(p)] + [] == [Act(p)];
    assert Moved(s, Execute(s, [Act(p)]));
  }

  lemma ActEnabled(s: State, p: nat)
    requires Inv(s) && At(s, p, Critical)
    ensures CanStep(s, Act(p))
  {
    hide Genuine, Sum, Contents;
  }

  lemma FromWaitMutex(s: State, p: nat)
    requires Inv(s) && At(s, p, WaitMutex) && s.mutex > 0
    ensures CanMove(s)
  {
    hide Inv, CanMove, Genuine;
    StepKeepsInv(s, TakeMutex(p));
    FromCritical(Apply(s, TakeMutex(p)), p);
    StepThenMove(s, TakeMutex(p));
  }

  lemma FromToken(s: State, p: nat)
    requires Inv(s) && At(s, p, GotItem(true)) && s.procs[p].running && s.mutex > 0
    ensures CanMove(s)
  {
    hide Inv, CanMove, Genuine;
    StepKeepsInv(s, CheckRunning(p));
    FromWaitMutex(Apply(s, CheckRunning(p)), p);
    StepThenMove(s, CheckRunning(p));
  }

  lemma FromWaitItem(s: State, p: nat)
    requires Inv(s) && At(s, p, WaitItem) && s.procs[p].running && s.mutex > 0 && Items(s, s.procs[p].producer) > 0
    ensures CanMove(s)
  {
    hide Inv, CanMove, Genuine;
    StepKeepsInv(s, TakeItem(p));
    FromToken(Apply(s, TakeItem(p)), p);
    StepThenMove(s, TakeItem(p));
  }

  /** A token in a semaphore is one a new process can use. */
  lemma FromItems(s: State, producer: bool)
    requires Inv(s) && s.mutex > 0 && Items(s, producer) > 0
    ensures CanMove(s)
  {
    hide Inv, CanMove, Genuine;
    var message := SomeGenuine();
    var fork, p := Fork(producer, message), |s.procs|;
    StepKeepsInv(s, fork);
    var forked := Apply(s, fork);
    StepKeepsInv(forked, Begin(p, message));
    FromWaitItem(Apply(forked, Begin(p, message)), p);
    StepThenMove(forked, Begin(p, message));
    StepThenMove(s, fork);
  }

  lemma FromSignal(s: State, p: nat)
    requires Inv(s) && At(s, p, SignalItem) && s.mutex > 0
    ensures CanMove(s)
  {
    hide Inv, CanMove, Genuine;
    StepKeepsInv(s, PostItem(p));
    FromItems(Apply(s, PostItem(p)), !s.procs[p].producer);
    StepThenMove(s, PostItem(p));
  }

  lemma FromLeaving(s: State, p: nat)
    requires Inv(s) && At(s, p, Leaving)
    ensures CanMove(s)
  {
    hide Inv, CanMove, Genuine;
    StepKeepsInv(s, ReleaseMutex(p));
    FromSignal(Apply(s, ReleaseMutex(p)), p);
    StepThenMove(s, ReleaseMutex(p));
  }

  predicate OnItsWay(p: Process) {
    || p.pc == Critical || p.pc == Leaving || p.pc == SignalItem || p.pc == WaitMutex
    || (p.pc == GotItem(true) && p.running)
  }

  lemma MutexFree(s: State)
    requires Inv(s) && forall p :: 0 <= p < |s.procs| ==> InSection(s.procs[p]) == 0
    ensures s.mutex == 1
  {
    hide Genuine, Sum, Contents;
    SumZero(s.procs, InSection);
  }

  lemma SomeItem(s: State)
    requires Inv(s) && Lost(s) < QUEUE_SIZE && forall p :: 0 <= p < |s.procs| ==> !OnItsWay(s.procs[p])
    ensures s.empty > 0 || s.full > 0
  {
    hide Genuine, Sum, Contents;
    InHandSum(s.procs);
    AllDoomed(s.procs);
  }

  lemma {:induction false} AllDoomed(procs: seq<Process>)
    requires forall p :: 0 <= p < |procs| ==> !OnItsWay(procs[p])
    ensures Sum(procs, InHand) == Sum(procs, Doomed)
  {
    if procs != [] {
      assert !OnItsWay(procs[0]);
      AllDoomed(procs[1..]);
    }
  }

  lemma SomeWayOut(s: State)
    requires Inv(s) && Lost(s) < QUEUE_SIZE
    ensures CanMove(s)
  {
    hide Inv, CanMove, Sum;
    if p: nat :| At(s, p, Critical) {
      FromCritical(s, p);
    } else if p: nat :| At(s, p, Leaving) {
      FromLeaving(s, p);
    } else {
      forall p | 0 <= p < |s.procs|
        ensures InSection(s.procs[p]) == 0
      {
        assert !At(s, p, Critical) && !At(s, p, Leaving);
      }
      MutexFree(s);
      if p: nat :| p < |s.procs| && OnItsWay(s.procs[p]) {
        assert !At(s, p, Critical) && !At(s, p, Leaving);
        if At(s, p, SignalItem) {
          FromSignal(s, p);
        } else if At(s, p, WaitMutex) {
          FromWaitMutex(s, p);
        } else {
          FromToken(s, p);
        }
      } else {
        SomeItem(s);
        FromItems(s, s.empty > 0);
      }
    }
  }

  /** The queue has come to a standstill, for whatever may still be started or signalled,
      exactly if every token is leaked or in the hand of a process about to leak it. */
  lemma DeadIff(s: State)
    requires Inv(s)
    ensures Dead(s) <==> Lost(s) == QUEUE_SIZE
  {
    hide Inv, Feasible, Execute, Sum;
    if Lost(s) == QUEUE_SIZE {
      forall steps: seq<Step> | Feasible(s, steps)
        ensures Execute(s, steps).pushed == s.pushed && Execute(s, steps).popped == s.popped
      {
        LostForever(s, steps);
      }
    } else {
      AtMostAll(s);
      SomeWayOut(s);
      var steps :| Feasible(s, steps) && Moved(s, Execute(s, steps));
      assert !Dead(s);
    }
  }

  lemma AtMostAll(s: State)
    requires Inv(s)
    ensures Lost(s) <= QUEUE_SIZE
  {
    hide Genuine, Sum, Contents;
    InHandSum(s.procs);
  }

  // ----- A run to a standstill -----

  /** A producer that is told to stop while it holds a token leaves this behind. */
  function AfterLeak(s: State, m: Message): State
    requires s.empty > 0
  {
    s.(empty := s.empty - 1, leakedEmpty := s.leakedEmpty + 1,
       procs := s.procs + [Process(true, false, Exited, m, false)])
  }

  lemma LeakOne(s: State, m: Message) returns (steps: seq<Step>)
    requires s.empty > 0 && Genuine(m)
    ensures Feasible(s, steps) && NeverInterruptsMutex(steps) && Execute(s, steps) == AfterLeak(s, m)
  {
    hide Genuine, Feasible, Execute;
    var p := |s.procs|;
    var s1 := Apply(s, Fork(true, m));
    var s2 := Apply(s1, Begin(p, m));
    var s3 := Apply(s2, TakeItem(p));
    var s4 := Apply(s3, Sigterm(p, false));
    var s5 := Apply(s4, CheckRunning(p));
    assert s5 == AfterLeak(s, m);
    steps := [Fork(true, m), Begin(p, m), TakeItem(p), Sigterm(p, false), CheckRunning(p)];
    Chain([s, s1, s2, s3, s4, s5], steps);
  }

  /** Steps that lead from each state to the next are a run. */
  lemma {:induction false} Chain(states: seq<State>, steps: seq<Step>)
    requires |states| == |steps| + 1
    requires forall i :: 0 <= i < |steps| ==>
               CanStep(states[i], steps[i]) && Apply(states[i], steps[i]) == states[i + 1]
    ensures Feasible(states[0], steps) && Execute(states[0], steps) == states[|steps|]
    decreases |steps|
  {
    hide CanStep, Apply;
    if steps != [] {
      Chain(states[1..], steps[1..]);
    }
  }

  function AfterLeaks(s: State, k: nat, m: Message): (end: State)
    requires k <= s.empty
    ensures end.empty == s.empty - k && end.leakedEmpty == s.leakedEmpty + k
    ensures end.(empty := s.empty, leakedEmpty := s.leakedEmpty, procs := s.procs) == s
    ensures forall p :: |s.procs| <= p < |end.procs| ==> end.procs[p].pc == Exited
    ensures |end.procs| == |s.procs| + k && end.procs[..|s.procs|] == s.procs
  {
    if k == 0 then s else AfterLeak(AfterLeaks(s, k - 1, m), m)
  }

  lemma {:induction false} LeakMany(s: State, k: nat, m: Message) returns (steps: seq<Step>)
    requires k <= s.empty && Genuine(m)
    ensures Feasible(s, steps) && NeverInterruptsMutex(steps) && Execute(s, steps) == AfterLeaks(s, k, m)
  {
    hide Genuine, AfterLeak;
    steps := [];
    if k > 0 {
      var first := LeakMany(s, k - 1, m);
      var last := LeakOne(AfterLeaks(s, k - 1, m), m);
      Append(s, first, last);
      steps := first + last;
    }
  }

  function Newcomer(producer: bool, m: Message): Process {
    Process(producer, true, WaitItem, m, false)
  }

  /** Told to stop just before it fell asleep. */
  function MissedSignal(m: Message): Process {
    Process(true, false, WaitItem, m, false)
  }

  /** A producer and a consumer join, and wait; the producer's signal comes too early. */
  lemma TwoJoin(s: State, m: Message) returns (steps: seq<Step>)
    requires Genuine(m)
    ensures Feasible(s, steps) && NeverInterruptsMutex(steps)
    ensures Execute(s, steps) == s.(procs := s.procs + [MissedSignal(m), Newcomer(false, m)])
  {
    hide Genuine, Feasible, Execute;
    var p := |s.procs|;
    var s1 := Apply(s, Fork(true, m));
    var s2 := Apply(s1, Begin(p, m));
    var s3 := Apply(s2, Sigterm(p, false));
    var s4 := Apply(s3, Fork(false, m));
    var s5 := Apply(s4, Begin(p + 1, m));
    assert s5.procs == s.procs + [MissedSignal(m), Newcomer(false, m)];
    steps := [Fork(true, m), Begin(p, m), Sigterm(p, false), Fork(false, m), Begin(p + 1, m)];
    Chain([s, s1, s2, s3, s4, s5], steps);
  }

  /** From the start of the program some run, without any interrupted wait on the mutex,
      ends with a live producer and a live consumer that wait for ever, the producer
      although it has been told to stop. */
  lemma StandstillReachable(s: State) returns (steps: seq<Step>)
    requires Initial(s)
    ensures Feasible(s, steps) && NeverInterruptsMutex(steps)
    ensures var end := Execute(s, steps);
      && Alive(end, true) && Alive(end, false) && Stuck(end) && Dead(end)
      && exists p :: 0 <= p < |end.procs| && end.procs[p].producer
                     && end.procs[p].pc == WaitItem && !end.procs[p].running
  {
    var m := SomeGenuine();
    hide Genuine, Feasible, Execute, Dead, Stuck, AfterLeaks, Contents, Sum;
    var leaks := LeakMany(s, QUEUE_SIZE, m);
    var mid := AfterLeaks(s, QUEUE_SIZE, m);
    var joins := TwoJoin(mid, m);
    Append(s, leaks, joins);
    steps := leaks + joins;
    var end := Execute(s, steps);
    assert end.procs[QUEUE_SIZE] == MissedSignal(m) && end.procs[QUEUE_SIZE + 1] == Newcomer(false, m);
    InitialInv(s);
    RunKeepsInv(s, steps);
    StuckIff(end);
    AtMostAll(end);
    DeadIff(end);
  }

  lemma InitialInv(s: State)
    requires Initial(s)
    ensures Inv(s)
  {
  }

  // ----- Two in the critical section -----

  predicate AlwaysExclusive(s: State, steps: seq<Step>)
    requires Feasible(s, steps)
    decreases |steps|
  {
    MutualExclusion(s) && (steps == [] || AlwaysExclusive(Apply(s, steps[0]), steps[1..]))
  }

  /** One process at a time is in the critical section throughout a run exactly if the run
      interrupts no wait on the mutex. */
  lemma {:induction false} AlwaysExclusiveIff(s: State, steps: seq<Step>)
    requires Inv(s) && Feasible(s, steps)
    ensures AlwaysExclusive(s, steps) <==> NeverInterruptsMutex(steps)
    decreases |steps|
  {
    hide Inv, MutualExclusion, CanStep, Apply;
    Excludes(s);
    if steps != [] {
      ExclusionIff(s, steps[0]);
      assert NeverInterruptsMutex(steps) <==> !steps[0].InterruptMutex? && NeverInterruptsMutex(steps[1..]) by {
        assert forall i :: 0 < i < |steps| ==> steps[i] == steps[1..][i - 1];
      }
      if !steps[0].InterruptMutex? {
        StepKeepsInv(s, steps[0]);
        AlwaysExclusiveIff(Apply(s, steps[0]), steps[1..]);
      }
    }
  }

  /** Two producers are forked and wait for a slot. */
  lemma TwoWait(s: State, m: Message) returns (steps: seq<Step>)
    requires Initial(s) && Genuine(m)
    ensures Feasible(s, steps) && Execute(s, steps) == s.(procs := [Newcomer(true, m), Newcomer(true, m)])
  {
    hide Genuine, Feasible, Execute;
    var s1 := Apply(s, Fork(true, m));
    var s2 := Apply(s1, Fork(true, m));
    var s3 := Apply(s2, Begin(0, m));
    var s4 := Apply(s3, Begin(1, m));
    assert s4.procs == [Newcomer(true, m), Newcomer(true, m)];
    steps := [Fork(true, m), Fork(true, m), Begin(0, m), Begin(1, m)];
    Chain([s, s1, s2, s3, s4], steps);
  }

  /** Both take one, and the first goes on into the critical section. */
  lemma OneGoesIn(s: State, m: Message) returns (steps: seq<Step>)
    requires s.procs == [Newcomer(true, m), Newcomer(true, m)] && s.empty >= 2 && s.mutex == 1
    ensures Feasible(s, steps)
    ensures var end := Execute(s, steps);
      && end.mutex == 0
      && end.procs == [Process(true, true, Critical, m, false), Process(true, true, WaitMutex, m, false)]
  {
    hide Genuine, Feasible, Execute;
    var s1 := Apply(s, TakeItem(0));
    var s2 := Apply(s1, TakeItem(1));
    var s3 := Apply(s2, CheckRunning(0));
    var s4 := Apply(s3, CheckRunning(1));
    var s5 := Apply(s4, TakeMutex(0));
    steps := [TakeItem(0), TakeItem(1), CheckRunning(0), CheckRunning(1), TakeMutex(0)];
    Chain([s, s1, s2, s3, s4, s5], steps);
  }

  /** From the start of the program some run has two processes in the critical section. */
  lemma OverlapReachable(s: State) returns (steps: seq<Step>)
    requires Initial(s)
    ensures Feasible(s, steps) && !MutualExclusion(Execute(s, steps))
  {
    var m := SomeGenuine();
    hide Genuine, Feasible, Execute;
    var waiting := TwoWait(s, m);
    var entering := OneGoesIn(Execute(s, waiting), m);
    Append(s, waiting, entering);
    var s1 := Execute(s, waiting + entering);
    var s2 := Apply(s1, Sigterm(1, true));
    var s3 := Apply(s2, InterruptMutex(1));
    var last := [Sigterm(1, true), InterruptMutex(1)];
    Chain([s1, s2, s3], last);
    Append(s, waiting + entering, last);
    steps := waiting + entering + last;
    assert InSection(s3.procs[0]) + InSection(s3.procs[1]) == 2;
  }
}
