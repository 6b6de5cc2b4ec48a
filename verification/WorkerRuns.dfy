/** Opening the barriers, the main thread's steps, and what holds over whole runs. */
module WorkerRuns {
  import opened Records
  import opened RunMerging
  import opened Runs
  import opened BlockTable
  import opened WorkerProtocol
  import opened WorkerInvariant
  import opened WorkerSteps

  // ----- Opening the workers barrier -----

  lemma OpenAfterSort(c: Config, s: State)
    requires Inv(c, s) && s.stage == SortStage && CanStep(c, s, OpenWorkers)
    ensures Inv(c, Apply(c, s, OpenWorkers))
  {
    hide Rounds, Flatten, Pairs, Offset, Fits, ChunkResult, Merge, Slice, FirstFree;
    forall t | 0 <= t < |s.workers|
      ensures s.workers[t] == AtSorted
    {
      assert SortWorker(s.runs, s.workers[t]);
    }
    AllDone(s.workers, s.table, s.owner, c.blocks);
    forall i | 0 <= i < c.blocks
      ensures Sorted(s.runs[i]) && Permutation(s.runs[i], Slice(s.original, c.blocks, i))
    {
      assert BlockRun(c, s.original, s.runs[i], s.table[i].state, i);
    }
    PairsFlat(s.runs);
  }

  lemma OpenAfterEarlyMerges(c: Config, s: State)
    requires Inv(c, s) && s.stage == RoundStage && CanStep(c, s, OpenWorkers) && s.workers[0].AtMerged?
    ensures Inv(c, Apply(c, s, OpenWorkers))
  {
    hide Rounds, SortsBlocks, Flatten, Pairs, Offset, Fits, ChunkResult, Merge, Slice;
    assert RoundWorker(c, s.active, s.runs, 0 in s.merged, 0, s.workers[0]);
    forall t | 0 <= t < |s.workers|
      ensures s.workers[t] == AtMerged(true, s.active) && t in s.merged
    {
      assert RoundWorker(c, s.active, s.runs, t in s.merged, t, s.workers[t]);
    }
    assert s.merged == FirstPairs(MergedPairs(s.active, c.threads));
  }

  lemma OpenBeforeLateMerges(c: Config, s: State)
    requires Inv(c, s) && s.stage == RoundStage && CanStep(c, s, OpenWorkers) && s.workers[0].AtReset?
    ensures Inv(c, Apply(c, s, OpenWorkers))
  {
    hide Rounds, SortsBlocks, Flatten, Pairs, Offset, Fits, ChunkResult, Merge, Slice;
    assert RoundWorker(c, s.active, s.runs, 0 in s.merged, 0, s.workers[0]);
    forall t | 0 <= t < |s.workers|
      ensures s.workers[t] == AtReset(s.active) && t !in s.merged
    {
      assert RoundWorker(c, s.active, s.runs, t in s.merged, t, s.workers[t]);
    }
    assert s.merged == {};
    assert Claims(ReleaseAll(s.workers), s.table, s.owner, s.active / 2);
  }

  lemma OpenAfterLateMerges(c: Config, s: State)
    requires Inv(c, s) && s.stage == LateStage && CanStep(c, s, OpenWorkers)
    ensures Inv(c, Apply(c, s, OpenWorkers))
  {
    hide Rounds, SortsBlocks, Flatten, Pairs, Offset, Fits, ChunkResult, Merge, Slice;
    forall t | 0 <= t < |s.workers|
      ensures s.workers[t] == AtMerged(false, s.active)
    {
      assert LateWorker(s.active, s.runs, s.merged, s.workers[t]);
    }
    AllDone(s.workers, s.table, s.owner, s.active / 2);
    assert s.merged == FirstPairs(MergedPairs(s.active, c.threads));
  }

  lemma OpenAfterRound(c: Config, s: State, early: bool)
    requires Inv(c, s) && s.stage == FinishStage(early) && CanStep(c, s, OpenWorkers)
    ensures Inv(c, Apply(c, s, OpenWorkers))
  {
    hide Rounds, SortsBlocks, Flatten, Pairs, Offset, Fits, ChunkResult, Merge, Slice;
    forall t | 0 <= t < |s.workers|
      ensures s.workers[t] == AtRoundEnd(early)
    {
      assert FinishWorker(c, s.active, s.merged, early, t, s.workers[t]);
    }
    assert FinishWorker(c, s.active, s.merged, early, 0, s.workers[0]);
  }

  lemma OpenWorkersKeepsInv(c: Config, s: State)
    requires Inv(c, s) && CanStep(c, s, OpenWorkers)
    ensures Inv(c, Apply(c, s, OpenWorkers))
  {
    hide Rounds, SortsBlocks, Flatten, Pairs, Offset, Fits, ChunkResult, Merge, Slice, Claims;
    assert WaitsAtWorkers(s.workers[0]);
    match s.stage {
      case SortStage => OpenAfterSort(c, s);
      case RoundStage =>
        assert RoundWorker(c, s.active, s.runs, 0 in s.merged, 0, s.workers[0]);
        if s.workers[0].AtMerged? {
          OpenAfterEarlyMerges(c, s);
        } else {
          OpenBeforeLateMerges(c, s);
        }
      case LateStage => OpenAfterLateMerges(c, s);
      case FinishStage(e) => OpenAfterRound(c, s, e);
      case Idle => assert false;
      case Shutdown => assert false;
    }
  }

  // ----- Opening the control barrier -----

  lemma OpenChunkStart(c: Config, s: State)
    requires Inv(c, s) && s.main == AtChunkStart && CanStep(c, s, OpenControl)
    ensures Inv(c, Apply(c, s, OpenControl))
  {
    hide Rounds, Flatten, Pairs, Offset, ChunkResult, Merge;
    InitFits(s.original, c.blocks);
    BlocksFlat(s.original, c.blocks, c.blocks);
    assert Claims(ReleaseAll(s.workers), s.table, s.owner, c.blocks);
  }

  lemma OpenChunkEnd(c: Config, s: State)
    requires Inv(c, s) && s.main == AtChunkEnd && CanStep(c, s, OpenControl)
    ensures Inv(c, Apply(c, s, OpenControl))
  {
    hide SortsBlocks, Offset, Fits, ChunkResult, Merge, Claims;
    var first := s.workers[0];
    assert WaitsAtControl(first);
    assert s.stage == SortStage ==> SortWorker(s.runs, first);
    assert s.stage == LateStage ==> LateWorker(s.active, s.runs, s.merged, first);
    assert s.stage.FinishStage? ==> FinishWorker(c, s.active, s.merged, s.stage.early, 0, first);
    match s.stage {
      case SortStage => assert false;
      case LateStage => assert false;
      case FinishStage(e) => assert false;
      case RoundStage =>
        forall t | 0 <= t < |s.workers|
          ensures s.workers[t] == AtEnd && s.active <= 1 && t !in s.merged
        {
          assert RoundWorker(c, s.active, s.runs, t in s.merged, t, s.workers[t]);
        }
        assert s.merged == {};
        assert s.workers[0] == AtEnd && |s.runs| == 1;
        PairsFlat(s.runs);
        assert Flatten(s.runs) == s.runs[0] + Flatten([]);
    }
  }

  lemma OpenControlKeepsInv(c: Config, s: State)
    requires Inv(c, s) && CanStep(c, s, OpenControl)
    ensures Inv(c, Apply(c, s, OpenControl))
  {
    hide Rounds, SortsBlocks, Flatten, Pairs, Offset, Fits, ChunkResult, Merge, Claims;
    if s.main == AtChunkStart {
      OpenChunkStart(c, s);
    } else if s.main == AtChunkEnd {
      OpenChunkEnd(c, s);
    }
  }

  // ----- The main thread -----

  lemma MainKeepsInv(c: Config, s: State)
    requires Inv(c, s) && CanStep(c, s, MainStep)
    ensures Inv(c, Apply(c, s, MainStep))
  {
    hide Rounds, SortsBlocks, Flatten, Pairs, Offset, Fits, Merge, Claims;
    var s' := Apply(c, s, MainStep);
    if s.main == Prepare && s.todo != [] {
      assert s.todo == [s.todo[0]] + s.todo[1..];
    } else if s.main == Collect {
      assert ChunkResult(c, s.original, s.buf);
      assert s'.origins + s'.todo == c.input;
    }
  }

  // ----- Whole runs -----

  lemma StepKeepsInv(c: Config, s: State, step: Step)
    requires Inv(c, s) && CanStep(c, s, step)
    ensures Inv(c, Apply(c, s, step))
  {
    hide Inv;
    match step {
      case MainStep => MainKeepsInv(c, s);
      case OpenControl => OpenControlKeepsInv(c, s);
      case OpenWorkers => OpenWorkersKeepsInv(c, s);
      case Work(t, sorted) => WorkKeepsInv(c, s, t, sorted);
    }
  }

  lemma StartInv(c: Config)
    requires ValidConfig(c)
    ensures Inv(c, Start(c))
  {
  }

  lemma {:induction false} RunKeepsInv(c: Config, s: State, steps: seq<Step>)
    requires Inv(c, s) && Feasible(c, s, steps)
    ensures Inv(c, Execute(c, s, steps))
    decreases |steps|
  {
    if steps != [] {
      StepKeepsInv(c, s, steps[0]);
      RunKeepsInv(c, Apply(c, s, steps[0]), steps[1..]);
    }
  }
}
