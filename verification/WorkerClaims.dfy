/** Every block, and every pair of a late round, is claimed by exactly one worker. */
module WorkerClaims {
  import opened Records
  import opened RunMerging
  import opened Runs
  import opened BlockTable
  import opened WorkerProtocol
  import opened WorkerInvariant
  import opened WorkerRuns
  import opened WorkerSafety

  // ----- One step -----

  /** How worker `t` may change an entry of the table and its owner. */
  predicate Advances(was: Block, now: Block, wasOwner: nat, nowOwner: nat, t: nat, held: bool) {
    && now.state >= was.state
    && (was.state == FREE && now.state != FREE ==> now.state == BUSY && nowOwner == t && held)
    && (nowOwner != wasOwner ==> was.state == FREE && now.state == BUSY)
  }

  /** Within a stage an entry only goes from free to busy to done. It is claimed once: a
      worker that changes an entry from free becomes its holder and owner, and the owner of
      an entry that is not free never changes. */
  lemma ClaimedOnce(c: Config, s: State, t: nat, sorted: seq<Record>, b: nat)
    requires Inv(c, s) && CanStep(c, s, Work(t, sorted)) && b < |s.table|
    requires s.stage == SortStage || s.stage == LateStage
    ensures var s' := Apply(c, s, Work(t, sorted));
      && |s'.table| == |s'.owner| == |s.table| == |s.owner| && |s'.workers| == |s.workers|
      && Advances(s.table[b], s'.table[b], s.owner[b], s'.owner[b], t, Held(s'.workers[t]) == b)
  {
    hide Inv, Held, ApplyWork, Advances;
    WellFormedOf(c, s);
    HeldState(c, s, t);
    HeldAdvances(c, s, t, sorted, b);
  }

  predicate ClaimsOrMarks(pc: Pc) {
    pc.ClaimBlock? || pc.ClaimPair? || pc.BlockSorted? || pc.PairDone?
  }

  lemma HeldAdvances(c: Config, s: State, t: nat, sorted: seq<Record>, b: nat)
    requires WellFormed(c, s) && CanWork(c, s, t, sorted) && b < |s.table|
    requires !s.workers[t].LateReset? && !s.workers[t].Finish?
    requires Held(s.workers[t]) < |s.table| && (Held(s.workers[t]) >= 0 ==> s.table[Held(s.workers[t])].state == BUSY)
    ensures var s' := ApplyWork(c, s, t, sorted);
      && |s'.table| == |s'.owner| == |s.table| && |s'.workers| == |s.workers|
      && Advances(s.table[b], s'.table[b], s.owner[b], s'.owner[b], t, Held(s'.workers[t]) == b)
  {
    if ClaimsOrMarks(s.workers[t]) {
      ClaimOrMarkAdvances(c, s, t, sorted, b);
    } else {
      hide ApplyWork, CanWork;
      TableStays(c, s, t, sorted);
    }
  }

  lemma TableStays(c: Config, s: State, t: nat, sorted: seq<Record>)
    requires WellFormed(c, s) && CanWork(c, s, t, sorted) && !ClaimsOrMarks(s.workers[t])
    requires !s.workers[t].LateReset? && !s.workers[t].Finish?
    ensures var s' := ApplyWork(c, s, t, sorted);
      s'.table == s.table && s'.owner == s.owner && |s'.workers| == |s.workers|
  {
    hide Merge, Sorted, Permutation;
  }

  lemma ClaimOrMarkAdvances(c: Config, s: State, t: nat, sorted: seq<Record>, b: nat)
    requires WellFormed(c, s) && CanWork(c, s, t, sorted) && b < |s.table| && ClaimsOrMarks(s.workers[t])
    requires Held(s.workers[t]) < |s.table| && (Held(s.workers[t]) >= 0 ==> s.table[Held(s.workers[t])].state == BUSY)
    ensures var s' := ApplyWork(c, s, t, sorted);
      && |s'.table| == |s'.owner| == |s.table| && |s'.workers| == |s.workers|
      && Advances(s.table[b], s'.table[b], s.owner[b], s'.owner[b], t, Held(s'.workers[t]) == b)
  {
    hide Merge, Sorted, Permutation;
  }

  /** What a worker holds is busy; in these stages it does nothing to the table but claim
      and mark as done. */
  lemma HeldState(c: Config, s: State, t: nat)
    requires Inv(c, s) && t < c.threads
    requires s.stage == SortStage || s.stage == LateStage
    ensures var pt := s.workers[t];
      && !pt.LateReset? && !pt.Finish?
      && Held(pt) < |s.table| && (Held(pt) >= 0 ==> s.table[Held(pt)].state == BUSY)
  {
    hide Rounds, SortsBlocks, Flatten, Pairs, Offset, Fits, ChunkResult, Merge, Claims;
    var pt := s.workers[t];
    if s.stage == SortStage {
      assert SortWorker(s.runs, pt);
      HeldIsBusy(s.workers, s.table, s.owner, c.blocks, t);
    } else {
      assert LateWorker(s.active, s.runs, s.merged, pt);
      HeldIsBusy(s.workers, s.table, s.owner, s.active / 2, t);
    }
  }

  // ----- A whole stage -----

  /** Which workers turn entry `b` from free to something else, in the order they do. */
  function Claimers(c: Config, s: State, steps: seq<Step>, b: nat): seq<nat>
    requires c.blocks > 0 && Feasible(c, s, steps)
    decreases |steps|
  {
    if steps == [] then []
    else
      var s', rest := Apply(c, s, steps[0]), steps[1..];
      (if steps[0].Work? && Taken(s.table, s'.table, b) then [steps[0].thread] else []) + Claimers(c, s', rest, b)
  }

  predicate Taken(was: seq<Block>, now: seq<Block>, b: nat) {
    b < |was| && b < |now| && was[b].state == FREE && now[b].state != FREE
  }

  /** The barrier that ends the stage does not open in these steps. */
  predicate SameStage(steps: seq<Step>) {
    forall i :: 0 <= i < |steps| ==> steps[i] != OpenWorkers
  }

  predicate ClaimsStage(stage: Stage) {
    stage == SortStage || stage == LateStage
  }

  /** In such a stage main and the control barrier wait. */
  lemma OnlyWork(c: Config, s: State, step: Step)
    requires Inv(c, s) && ClaimsStage(s.stage) && CanStep(c, s, step) && step != OpenWorkers
    ensures step.Work?
  {
    hide Rounds, SortsBlocks, Flatten, Pairs, Offset, Fits, ChunkResult, Merge, Claims;
    assert s.stage == SortStage ==> SortWorker(s.runs, s.workers[0]);
    assert s.stage == LateStage ==> LateWorker(s.active, s.runs, s.merged, s.workers[0]);
    assert !WaitsAtControl(s.workers[0]);
  }

  lemma WorkStays(c: Config, s: State, t: nat, sorted: seq<Record>)
    requires Inv(c, s) && CanStep(c, s, Work(t, sorted)) && ClaimsStage(s.stage)
    ensures var s' := Apply(c, s, Work(t, sorted)); s'.stage == s.stage && s'.active == s.active
  {
    hide Inv, ApplyWork, Held;
    HeldState(c, s, t);
    WellFormedOf(c, s);
    OnlyFinishShrinks(c, s, t, sorted);
  }

  lemma OnlyFinishShrinks(c: Config, s: State, t: nat, sorted: seq<Record>)
    requires WellFormed(c, s) && CanWork(c, s, t, sorted) && !s.workers[t].Finish?
    ensures var s' := ApplyWork(c, s, t, sorted); s'.stage == s.stage && s'.active == s.active
  {
    hide MergedPair, Sorted, Permutation;
  }

  /** While the workers are at it, an entry is claimed at most once, by the worker that
      owns it from then on. */
  lemma {:induction false} AtMostOneClaim(c: Config, s: State, steps: seq<Step>, b: nat)
    requires Inv(c, s) && ClaimsStage(s.stage) && Feasible(c, s, steps) && SameStage(steps) && b < c.blocks
    ensures var end := Execute(c, s, steps);
      && Inv(c, end) && end.stage == s.stage && end.active == s.active
      && |end.table| == |s.table| == |end.owner| == |s.owner| == c.blocks
      && end.table[b].state >= s.table[b].state
      && (s.table[b].state != FREE ==> end.owner[b] == s.owner[b])
      && Claimers(c, s, steps, b) == if Taken(s.table, end.table, b) then [end.owner[b]] else []
    decreases |steps|
  {
    hide Inv, Apply, CanStep, ValidConfig, Held;
    WellFormedOf(c, s);
    if steps != [] {
      var step := steps[0];
      OnlyWork(c, s, step);
      ClaimedOnce(c, s, step.thread, step.sorted, b);
      WorkStays(c, s, step.thread, step.sorted);
      StepKeepsInv(c, s, step);
      AtMostOneClaim(c, Apply(c, s, step), steps[1..], b);
    }
  }

  /** The openings of a barrier that start a stage in which work is claimed. */
  predicate OpensClaiming(s: State, opening: Step) {
    || (opening == OpenControl && s.main == AtChunkStart)
    || (opening == OpenWorkers && s.stage == RoundStage && s.workers != [] && s.workers[0].AtReset?)
  }

  /** How many entries there are to claim. */
  function Claimable(c: Config, s: State): nat {
    if s.stage == SortStage then c.blocks else s.active / 2
  }

  lemma ClaimingStarts(c: Config, s: State, opening: Step)
    requires Inv(c, s) && CanStep(c, s, opening) && OpensClaiming(s, opening)
    ensures var s' := Apply(c, s, opening);
      ClaimsStage(s'.stage) && Claimable(c, s') <= c.blocks && AllFree(s'.table, Claimable(c, s'))
  {
    hide Rounds, SortsBlocks, Flatten, Pairs, Offset, Fits, ChunkResult, Merge, Claims;
  }

  lemma ClaimingEnds(c: Config, s: State, b: nat)
    requires Inv(c, s) && ClaimsStage(s.stage) && CanStep(c, s, OpenWorkers) && b < Claimable(c, s)
    ensures b < |s.table| && s.table[b].state == DONE
  {
    hide Rounds, SortsBlocks, Flatten, Pairs, Offset, Fits, ChunkResult, Merge, Claims;
    forall t | 0 <= t < |s.workers|
      ensures FoundNone(s.workers[t])
    {
      assert s.stage == SortStage ==> SortWorker(s.runs, s.workers[t]);
      assert s.stage == LateStage ==> LateWorker(s.active, s.runs, s.merged, s.workers[t]);
    }
    AllDone(s.workers, s.table, s.owner, Claimable(c, s));
  }

  /** After any run whatever: between the opening of a barrier that starts the sorting of
      the blocks or the merging of the pairs of a late round, and the opening of the one
      that ends it, each block or pair is claimed by exactly one worker, once, and done. */
  lemma ExactlyOneClaim(c: Config, before: seq<Step>, opening: Step, work: seq<Step>, b: nat)
    requires ValidConfig(c) && Feasible(c, Start(c), before) && SameStage(work)
    requires var s := Execute(c, Start(c), before); CanStep(c, s, opening) && OpensClaiming(s, opening)
    requires var s := Apply(c, Execute(c, Start(c), before), opening);
      Feasible(c, s, work) && CanStep(c, Execute(c, s, work), OpenWorkers) && b < Claimable(c, s)
    ensures var s := Apply(c, Execute(c, Start(c), before), opening);
      var end := Execute(c, s, work);
      && b < |end.table| && b < |end.owner| && end.table[b].state == DONE
      && Claimers(c, s, work, b) == [end.owner[b]]
  {
    StartInv(c);
    hide Inv, Execute, Feasible, Claimers, CanStep, Apply;
    RunKeepsInv(c, Start(c), before);
    var s0 := Execute(c, Start(c), before);
    ClaimingStarts(c, s0, opening);
    StepKeepsInv(c, s0, opening);
    var s := Apply(c, s0, opening);
    AtMostOneClaim(c, s, work, b);
    ClaimingEnds(c, Execute(c, s, work), b);
  }
}
