/** What a process of the semaphore queue still does once it has been told to stop. */
module SemaphoreShutdown {
  import opened SemaphoreQueue

  /** How many steps it has left at most. */
  function Left(p: Process): (n: nat)
    ensures n <= 6
    ensures n == 0 <==> p.pc == Exited
  {
    match p.pc
    case Exited => 0
    case Top => 1
    case GotItem(_) => 1
    case WaitItem => 2
    case Resting => 2
    case SignalItem => 3
    case Leaving => 4
    case Critical => 5
    case WaitMutex => 6
  }

  /** A step that process `p` takes itself, as opposed to a signal it gets. */
  predicate StepBy(step: Step, p: nat) {
    !step.Fork? && !step.Sigterm? && step.p == p
  }

  function StepsOf(steps: seq<Step>, p: nat): nat {
    if steps == [] then 0 else (if StepBy(steps[0], p) then 1 else 0) + StepsOf(steps[1..], p)
  }

  lemma StepShortens(s: State, step: Step, p: nat)
    requires CanStep(s, step) && p < |s.procs| && !s.procs[p].running
    ensures var s' := Apply(s, step);
      && p < |s'.procs| && !s'.procs[p].running
      && Left(s'.procs[p]) + (if StepBy(step, p) then 1 else 0) <= Left(s.procs[p])
  {
  }

  /** Over any run: at most six more steps. */
  lemma {:induction false} StoppedProcess(s: State, p: nat, steps: seq<Step>)
    requires p < |s.procs| && !s.procs[p].running && Feasible(s, steps)
    ensures var end := Execute(s, steps);
      && p < |end.procs| && !end.procs[p].running
      && StepsOf(steps, p) + Left(end.procs[p]) <= Left(s.procs[p])
    decreases |steps|
  {
    hide CanStep, Apply, Left;
    if steps != [] {
      StepShortens(s, steps[0], p);
      StoppedProcess(Apply(s, steps[0]), p, steps[1..]);
    }
  }

  function Acts(steps: seq<Step>, p: nat): nat {
    if steps == [] then 0 else (if steps[0] == Act(p) then 1 else 0) + Acts(steps[1..], p)
  }

  /** It pushes or pops once more at most, and only if it had passed its last test before. */
  lemma {:induction false} LastAct(s: State, p: nat, steps: seq<Step>)
    requires p < |s.procs| && !s.procs[p].running && Feasible(s, steps)
    ensures Acts(steps, p) <= if PastTest(s.procs[p]) then 1 else 0
    decreases |steps|
  {
    if steps != [] {
      ActsShorten(s, steps[0], p);
      hide CanStep, Apply;
      LastAct(Apply(s, steps[0]), p, steps[1..]);
    }
  }

  predicate PastTest(p: Process) {
    p.pc == WaitMutex || p.pc == Critical
  }

  lemma ActsShorten(s: State, step: Step, p: nat)
    requires CanStep(s, step) && p < |s.procs| && !s.procs[p].running
    ensures var s' := Apply(s, step);
      && p < |s'.procs| && !s'.procs[p].running
      && (PastTest(s'.procs[p]) ==> PastTest(s.procs[p]) && step != Act(p))
      && (step == Act(p) ==> PastTest(s.procs[p]))
  {
  }
}
