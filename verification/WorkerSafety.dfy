/** No data races, agreement at the barriers, no deadlock, and termination. */
module WorkerSafety {
  import opened Records
  import opened RunMerging
  import opened Runs
  import opened BlockTable
  import opened WorkerProtocol
  import opened WorkerInvariant
  import opened WorkerSteps
  import opened WorkerRuns

  // ----- Races -----

  datatype Range = Range(lo: nat, hi: nat)

  predicate Apart(a: Range, b: Range) {
    a.lo == a.hi || b.lo == b.hi || a.hi <= b.lo || b.hi <= a.lo
  }

  /** The part of the chunk a worker is sorting, reading or writing. */
  function Touched(s: State, pc: Pc): Range {
    match pc
    case Sorting(b) =>
      if b < |s.table| then Range(s.table[b].offset, s.table[b].offset + s.table[b].size) else Range(0, 0)
    case MergePair(_, _, p) =>
      if 2 * p + 1 < |s.table|
      then Range(s.table[2 * p].offset, s.table[2 * p].offset + s.table[2 * p].size + s.table[2 * p + 1].size)
      else Range(0, 0)
    case CopyPair(_, _, _, lo, tmp) => Range(lo, lo + |tmp|)
    case _ => Range(0, 0)
  }

  /** Writes table entries or `active_blocks` without holding the mutex. */
  predicate RewritesTable(t: nat, pc: Pc) {
    t == 0 && (pc.Finish? || pc.LateReset?)
  }

  /** Reads or writes table entries (besides what `RewritesTable` covers). */
  predicate UsesTable(pc: Pc) {
    pc.ClaimBlock? || pc.Sorting? || pc.BlockSorted? || pc.ClaimPair? || pc.PairDone? || pc.MergePair?
  }

  /** The pair an active merger works on, if it does. */
  function MergingPair(pc: Pc): int {
    match pc
    case MergePair(_, _, p) => p
    case CopyPair(_, _, p, _, _) => p
    case _ => -1
  }

  lemma PairRange(s: State, p: nat)
    requires Fits(s.table, s.runs) && 2 * p + 1 < |s.runs|
    ensures s.table[2 * p].offset == Offset(s.runs, 2 * p)
    ensures Offset(s.runs, 2 * p + 2) == Offset(s.runs, 2 * p) + s.table[2 * p].size + s.table[2 * p + 1].size
  {
    assert Offset(s.runs, 2 * p + 2) == Offset(s.runs, 2 * p + 1) + |s.runs[2 * p + 1]|;
    assert Offset(s.runs, 2 * p + 1) == Offset(s.runs, 2 * p) + |s.runs[2 * p]|;
  }

  lemma {:induction false} OffsetsMonotone(runs: RunList, i: nat, j: nat)
    requires i <= j <= |runs|
    ensures Offset(runs, i) <= Offset(runs, j)
  {
    if i < j {
      OffsetsMonotone(runs, i, j - 1);
    }
  }

  /** A worker busy with pair `p` touches nothing outside runs `2p` and `2p+1`. */
  lemma TouchesItsPair(s: State, pc: Pc, p: nat)
    requires Fits(s.table, s.runs) && MergingPair(pc) == p && 2 * p + 1 < |s.runs|
    requires pc.CopyPair? ==> Buffered(s.runs, p, pc.lo, pc.tmp)
    ensures Touched(s, pc) == Range(Offset(s.runs, 2 * p), Offset(s.runs, 2 * p + 2))
  {
    PairRange(s, p);
    MergePermutes(s.runs[2 * p], s.runs[2 * p + 1]);
  }

  lemma DistinctPairsApart(s: State, pc: Pc, p: nat, pc': Pc, p': nat)
    requires Fits(s.table, s.runs) && p != p'
    requires MergingPair(pc) == p && 2 * p + 1 < |s.runs| && (pc.CopyPair? ==> Buffered(s.runs, p, pc.lo, pc.tmp))
    requires MergingPair(pc') == p' && 2 * p' + 1 < |s.runs|
    requires pc'.CopyPair? ==> Buffered(s.runs, p', pc'.lo, pc'.tmp)
    ensures Apart(Touched(s, pc), Touched(s, pc'))
  {
    hide Fits, Offset, Buffered, Touched;
    TouchesItsPair(s, pc, p);
    TouchesItsPair(s, pc', p');
    if p < p' {
      OffsetsMonotone(s.runs, 2 * p + 2, 2 * p');
    } else {
      OffsetsMonotone(s.runs, 2 * p' + 2, 2 * p);
    }
  }

  lemma RangesApart(c: Config, s: State, t: nat, u: nat)
    requires Inv(c, s) && t < c.threads && u < c.threads && t != u
    ensures Apart(Touched(s, s.workers[t]), Touched(s, s.workers[u]))
  {
    hide Rounds, SortsBlocks, Flatten, Pairs, Offset, ChunkResult, Merge, Claims;
    match s.stage {
      case SortStage =>
        assert SortWorker(s.runs, s.workers[t]) && SortWorker(s.runs, s.workers[u]);
        if s.workers[t].Sorting? && s.workers[u].Sorting? {
          HeldIsBusy(s.workers, s.table, s.owner, c.blocks, t);
          HeldIsBusy(s.workers, s.table, s.owner, c.blocks, u);
          HeldApart(s.workers, s.table, s.owner, c.blocks, t, u);
          var i, j := s.workers[t].block, s.workers[u].block;
          if i < j { OffsetOrder(s.runs, i, j); } else { OffsetOrder(s.runs, j, i); }
        }
      case RoundStage =>
        assert RoundWorker(c, s.active, s.runs, t in s.merged, t, s.workers[t]);
        assert RoundWorker(c, s.active, s.runs, u in s.merged, u, s.workers[u]);
        if MergingPair(s.workers[t]) >= 0 && MergingPair(s.workers[u]) >= 0 {
          DistinctPairsApart(s, s.workers[t], t, s.workers[u], u);
        }
      case LateStage =>
        assert LateWorker(s.active, s.runs, s.merged, s.workers[t]);
        assert LateWorker(s.active, s.runs, s.merged, s.workers[u]);
        if MergingPair(s.workers[t]) >= 0 && MergingPair(s.workers[u]) >= 0 {
          HeldIsBusy(s.workers, s.table, s.owner, s.active / 2, t);
          HeldIsBusy(s.workers, s.table, s.owner, s.active / 2, u);
          HeldApart(s.workers, s.table, s.owner, s.active / 2, t, u);
          DistinctPairsApart(s, s.workers[t], MergingPair(s.workers[t]), s.workers[u], MergingPair(s.workers[u]));
        }
      case FinishStage(e) =>
        assert FinishWorker(c, s.active, s.merged, e, t, s.workers[t]);
      case Idle =>
      case Shutdown =>
    }
  }

  /** Two workers never touch the same part of the chunk, no block or pair is held
      twice, and while worker 0 rewrites the table nobody else uses it. */
  lemma RaceFree(c: Config, s: State, t: nat, u: nat)
    requires Inv(c, s) && t < c.threads && u < c.threads && t != u
    ensures Apart(Touched(s, s.workers[t]), Touched(s, s.workers[u]))
    ensures Held(s.workers[t]) >= 0 ==> Held(s.workers[t]) != Held(s.workers[u])
    ensures RewritesTable(t, s.workers[t]) ==> !UsesTable(s.workers[u])
    ensures s.workers[t].Finish? && t == 0 ==> s.workers[u].Finish? || s.workers[u].AtRoundEnd?
  {
    hide Rounds, SortsBlocks, Flatten, Pairs, Offset, Fits, ChunkResult, Merge, Claims;
    RangesApart(c, s, t, u);
    var pt, pu := s.workers[t], s.workers[u];
    match s.stage {
      case SortStage =>
        assert SortWorker(s.runs, pt);
        if Held(pt) >= 0 {
          HeldApart(s.workers, s.table, s.owner, c.blocks, t, u);
        }
      case RoundStage =>
        assert RoundWorker(c, s.active, s.runs, t in s.merged, t, pt);
        assert RoundWorker(c, s.active, s.runs, u in s.merged, u, pu);
      case LateStage =>
        assert LateWorker(s.active, s.runs, s.merged, pt);
        if Held(pt) >= 0 {
          HeldApart(s.workers, s.table, s.owner, s.active / 2, t, u);
        }
      case FinishStage(e) =>
        assert FinishWorker(c, s.active, s.merged, e, t, pt);
        assert FinishWorker(c, s.active, s.merged, e, u, pu);
      case Idle =>
      case Shutdown =>
    }
  }

  // ----- Barriers -----

  /** Workers waiting at the workers barrier wait at the same place of the same round. */
  lemma BarrierAgreement(c: Config, s: State, t: nat, u: nat)
    requires Inv(c, s) && t < c.threads && u < c.threads
    requires WaitsAtWorkers(s.workers[t]) && WaitsAtWorkers(s.workers[u])
    ensures s.workers[t] == s.workers[u]
  {
    hide Rounds, SortsBlocks, Flatten, Pairs, Offset, Fits, ChunkResult, Merge, Claims;
    var pt, pu := s.workers[t], s.workers[u];
    match s.stage {
      case SortStage =>
        assert SortWorker(s.runs, pt) && SortWorker(s.runs, pu);
      case RoundStage =>
        assert RoundWorker(c, s.active, s.runs, t in s.merged, t, pt);
        assert RoundWorker(c, s.active, s.runs, u in s.merged, u, pu);
      case LateStage =>
        assert LateWorker(s.active, s.runs, s.merged, pt) && LateWorker(s.active, s.runs, s.merged, pu);
      case FinishStage(e) =>
        assert FinishWorker(c, s.active, s.merged, e, t, pt);
        assert FinishWorker(c, s.active, s.merged, e, u, pu);
      case Idle => assert false;
      case Shutdown => assert false;
    }
  }

  predicate TookEarlyBranch(pc: Pc) {
    match pc
    case MergePair(early, _, _) => early
    case CopyPair(early, _, _, _, _) => early
    case AtMerged(early, _) => early
    case _ => false
  }

  predicate TookLateBranch(pc: Pc) {
    match pc
    case LateReset(_) => true
    case AtReset(_) => true
    case ClaimPair(_) => true
    case MergePair(early, _, _) => !early
    case CopyPair(early, _, _, _, _) => !early
    case PairDone(_, _) => true
    case AtMerged(early, _) => !early
    case _ => false
  }

  /** A round with at least as many pairs as workers takes the early branch, where worker `t`
      merges pair `t`; one with fewer takes the late one, where pairs are claimed. */
  lemma BranchOfRound(c: Config, s: State, t: nat)
    requires Inv(c, s) && t < c.threads
    ensures TookEarlyBranch(s.workers[t]) ==> s.active / 2 >= c.threads
    ensures TookLateBranch(s.workers[t]) ==> s.active / 2 < c.threads
    ensures TookEarlyBranch(s.workers[t]) && MergingPair(s.workers[t]) >= 0 ==> MergingPair(s.workers[t]) == t
  {
    hide Rounds, SortsBlocks, Flatten, Pairs, Offset, Fits, ChunkResult, Merge, Claims;
    var pt := s.workers[t];
    match s.stage {
      case SortStage => assert SortWorker(s.runs, pt);
      case RoundStage => assert RoundWorker(c, s.active, s.runs, t in s.merged, t, pt);
      case LateStage => assert LateWorker(s.active, s.runs, s.merged, pt);
      case FinishStage(e) => assert FinishWorker(c, s.active, s.merged, e, t, pt);
      case Idle =>
      case Shutdown =>
    }
  }

  /** Main and the workers never drift apart on the control barrier: main's start of a
      chunk and its shutdown meet the workers at the top of their loop, its end of a
      chunk meets them at the bottom. */
  lemma ControlAlignment(c: Config, s: State, t: nat)
    requires Inv(c, s) && t < c.threads
    ensures s.main == AtChunkStart || s.main == AtShutdown || s.main == Prepare || s.main == Collect
            ==> s.workers[t] == AtStart
    ensures s.main == AtChunkEnd ==> s.workers[t] != AtStart && s.workers[t] != Exited
    ensures s.main == AtChunkEnd && s.workers[t] == AtEnd ==> s.active == 1
  {
    hide Rounds, SortsBlocks, Flatten, Pairs, Offset, Fits, ChunkResult, Merge, Claims;
    var pt := s.workers[t];
    match s.stage {
      case SortStage => assert SortWorker(s.runs, pt);
      case RoundStage => assert RoundWorker(c, s.active, s.runs, t in s.merged, t, pt);
      case LateStage => assert LateWorker(s.active, s.runs, s.merged, pt);
      case FinishStage(e) => assert FinishWorker(c, s.active, s.merged, e, t, pt);
      case Idle =>
      case Shutdown =>
    }
  }

  // ----- Progress -----

  /** Sorting is possible: the merge rounds on single records do it. */
  lemma SortExists(s: seq<Record>) returns (sorted: seq<Record>)
    ensures Sorted(sorted) && Permutation(sorted, s) && |sorted| == |s|
  {
    var runs := seq(|s|, i requires 0 <= i < |s| => [s[i]]);
    SinglesFlat(s, runs);
    RoundsSort(runs, |s|);
    RoundsPermute(runs, |s|);
    sorted := Rounds(runs, |s|);
    PermutationMembers(sorted, s);
  }

  lemma {:induction false} SinglesFlat(s: seq<Record>, runs: RunList)
    requires |runs| == |s| && forall i :: 0 <= i < |s| ==> runs[i] == [s[i]]
    ensures Flatten(runs) == s
  {
    if s != [] {
      SinglesFlat(s[1..], runs[1..]);
    }
  }

  /** A worker that neither waits nor is gone can take its next step; in particular all
      its accesses to table and chunk are in range. */
  lemma WorkerEnabled(c: Config, s: State, t: nat) returns (sorted: seq<Record>)
    requires Inv(c, s) && s.main != Aborted && t < c.threads
    requires !Waits(s.workers[t]) && s.workers[t] != Exited
    ensures CanStep(c, s, Work(t, sorted))
  {
    hide Rounds, SortsBlocks, Flatten, Pairs, Offset, ChunkResult, Merge, Claims, Sorted, Permutation;
    sorted := [];
    var pt := s.workers[t];
    match s.stage {
      case SortStage => sorted := SortEnabled(c, s, t);
      case RoundStage => RoundEnabled(c, s, t);
      case LateStage => LateEnabled(c, s, t);
      case FinishStage(e) => assert FinishWorker(c, s.active, s.merged, e, t, pt);
      case Idle => assert false;
      case Shutdown =>
    }
  }

  lemma SortEnabled(c: Config, s: State, t: nat) returns (sorted: seq<Record>)
    requires Inv(c, s) && s.stage == SortStage && t < c.threads && !Waits(s.workers[t])
    ensures CanWork(c, s, t, sorted)
  {
    hide Rounds, SortsBlocks, Flatten, Pairs, Offset, ChunkResult, Merge, Claims, Sorted, Permutation;
    sorted := [];
    var pt := s.workers[t];
    assert SortWorker(s.runs, pt);
    HeldIsBusy(s.workers, s.table, s.owner, c.blocks, t);
    if pt.Sorting? {
      FlattenSlice(s.runs, pt.block);
      sorted := SortExists(s.runs[pt.block]);
    }
  }

  lemma LateEnabled(c: Config, s: State, t: nat)
    requires Inv(c, s) && s.stage == LateStage && t < c.threads && !Waits(s.workers[t])
    ensures CanWork(c, s, t, [])
  {
    hide Rounds, SortsBlocks, Flatten, Pairs, Offset, ChunkResult, Merge, Claims, MergedPair;
    var pt := s.workers[t];
    assert LateWorker(s.active, s.runs, s.merged, pt);
    HeldIsBusy(s.workers, s.table, s.owner, s.active / 2, t);
    if pt.MergePair? {
      MergedPairValue(s, pt.pair);
    } else if pt.CopyPair? {
      CopyBackMerges(s.buf, s.runs, s.merged, pt.pair);
    }
  }

  lemma RoundEnabled(c: Config, s: State, t: nat)
    requires Inv(c, s) && s.stage == RoundStage && t < c.threads && !Waits(s.workers[t])
    ensures CanWork(c, s, t, [])
  {
    hide Rounds, SortsBlocks, Flatten, Pairs, Offset, ChunkResult, Merge, MergedPair;
    var pt := s.workers[t];
    assert RoundWorker(c, s.active, s.runs, t in s.merged, t, pt);
    if pt.MergePair? {
      MergedPairValue(s, pt.pair);
    } else if pt.CopyPair? {
      CopyBackMerges(s.buf, s.runs, s.merged, pt.pair);
    }
  }

  /** No reachable state is stuck, unless the work is over or the program has given up. */
  lemma NoDeadlock(c: Config, s: State) returns (step: Step)
    requires Inv(c, s) && s.main != Aborted && !Finished(s)
    ensures CanStep(c, s, step)
  {
    hide Inv, ApplyWork;
    WellFormedOf(c, s);
    if t: nat :| t < c.threads && !Waits(s.workers[t]) && s.workers[t] != Exited {
      var sorted := WorkerEnabled(c, s, t);
      return Work(t, sorted);
    }
    if s.main == Prepare || s.main == Collect {
      return MainStep;
    }
    step := SomeBarrierOpens(c, s);
  }

  lemma WellFormedOf(c: Config, s: State)
    requires Inv(c, s)
    ensures WellFormed(c, s) && ValidConfig(c)
  {
  }

  lemma SomeBarrierOpens(c: Config, s: State) returns (step: Step)
    requires Inv(c, s) && s.main != Aborted && !Finished(s) && s.main != Prepare && s.main != Collect
    requires forall t :: 0 <= t < |s.workers| ==> Waits(s.workers[t]) || s.workers[t] == Exited
    ensures CanStep(c, s, step)
  {
    hide Rounds, SortsBlocks, Flatten, Pairs, Offset, Fits, ChunkResult, Merge, Claims;
    if s.stage == RoundStage && s.active <= 1 {
      forall t | 0 <= t < |s.workers|
        ensures WaitsAtControl(s.workers[t])
      {
        assert RoundWorker(c, s.active, s.runs, t in s.merged, t, s.workers[t]);
      }
      return OpenControl;
    }
    if s.main == AtChunkEnd {
      forall t | 0 <= t < |s.workers|
        ensures WaitsAtWorkers(s.workers[t])
      {
        var pt := s.workers[t];
        assert s.stage == SortStage ==> SortWorker(s.runs, pt);
        assert s.stage == RoundStage ==> RoundWorker(c, s.active, s.runs, t in s.merged, t, pt);
        assert s.stage == LateStage ==> LateWorker(s.active, s.runs, s.merged, pt);
        assert s.stage.FinishStage? ==> FinishWorker(c, s.active, s.merged, s.stage.early, t, pt);
      }
      return OpenWorkers;
    }
    return OpenControl;
  }

  // ----- Termination -----

  function Rank(pc: Pc): nat {
    match pc
    case ReadActive => 5
    case Sorting(_) => 4
    case MergePair(_, _, _) => 4
    case BlockSorted(_) => 3
    case CopyPair(_, _, _, _, _) => 3
    case Check => 2
    case PairDone(_, _) => 2
    case ClaimBlock => 1
    case ClaimPair(_) => 1
    case LateReset(_) => 1
    case Finish(_, _) => 1
    case _ => 0
  }

  function RankSum(workers: seq<Pc>): nat {
    if workers == [] then 0 else Rank(workers[0]) + RankSum(workers[1..])
  }

  function FreeCount(table: seq<Block>, limit: nat): nat
    requires limit <= |table|
  {
    if limit == 0 then 0
    else FreeCount(table, limit - 1) + if table[limit - 1].state == FREE then 1 else 0
  }

  lemma {:induction false} RankSumUpdate(workers: seq<Pc>, t: nat, pc: Pc)
    requires t < |workers|
    ensures RankSum(workers[t := pc]) == RankSum(workers) - Rank(workers[t]) + Rank(pc)
  {
    if t == 0 {
      assert workers[t := pc][1..] == workers[1..];
    } else {
      assert workers[t := pc][1..] == workers[1..][t - 1 := pc];
      RankSumUpdate(workers[1..], t - 1, pc);
    }
  }

  lemma {:induction false} FreeCountUpdate(table: seq<Block>, limit: nat, i: nat, state: nat)
    requires i < limit <= |table|
    ensures FreeCount(SetState(table, i, state), limit)
         == FreeCount(table, limit) - (if table[i].state == FREE then 1 else 0) + (if state == FREE then 1 else 0)
  {
    if i < limit - 1 {
      FreeCountUpdate(table, limit - 1, i, state);
    } else {
      FreeCountSame(table, SetState(table, i, state), limit - 1);
    }
  }

  lemma {:induction false} FreeCountSame(a: seq<Block>, b: seq<Block>, limit: nat)
    requires limit <= |a| && limit <= |b| && forall i :: 0 <= i < limit ==> a[i] == b[i]
    ensures FreeCount(a, limit) == FreeCount(b, limit)
  {
    if limit > 0 {
      FreeCountSame(a, b, limit - 1);
    }
  }

  /** How much of the outer loop over the chunks is left. */
  function MainMeasure(s: State): nat {
    5 * |s.todo| + match s.main
                   case Prepare => 2
                   case AtChunkStart => 6
                   case AtChunkEnd => 5
                   case Collect => 4
                   case AtShutdown => 1
                   case Joining => 0
                   case Aborted => 0
  }

  /** How many rounds, and stages of the current round, are left. */
  function StageMeasure(s: State): nat {
    match s.stage
    case SortStage => 4 * s.active + 8
    case RoundStage => 4 * s.active + 3
    case LateStage => 4 * s.active + 2
    case FinishStage(_) =>
      if |s.workers| > 0 && s.workers[0].Finish? then 4 * s.active + 1 else 4 * s.active + 4
    case _ => 0
  }

  /** How much the workers have left to do in the current stage. */
  function WorkMeasure(s: State): nat
    requires s.active <= |s.table|
  {
    RankSum(s.workers) +
    match s.stage
    case SortStage => 4 * FreeCount(s.table, s.active)
    case LateStage => 4 * FreeCount(s.table, s.active / 2)
    case _ => 0
  }

  predicate Smaller(a: State, b: State)
    requires a.active <= |a.table| && b.active <= |b.table|
  {
    || MainMeasure(a) < MainMeasure(b)
    || (MainMeasure(a) == MainMeasure(b) && StageMeasure(a) < StageMeasure(b))
    || (MainMeasure(a) == MainMeasure(b) && StageMeasure(a) == StageMeasure(b) && WorkMeasure(a) < WorkMeasure(b))
  }

  lemma SortDecreases(c: Config, s: State, t: nat, sorted: seq<Record>)
    requires Inv(c, s) && s.stage == SortStage && CanWork(c, s, t, sorted)
    ensures var s' := ApplyWork(c, s, t, sorted); s'.active <= |s'.table| && Smaller(s', s)
  {
    hide Rounds, SortsBlocks, Flatten, Pairs, Offset, Fits, ChunkResult, Merge, Claims, RankSum, FreeCount;
    var pt := s.workers[t];
    assert SortWorker(s.runs, pt);
    HeldIsBusy(s.workers, s.table, s.owner, c.blocks, t);
    match pt {
      case Check => RankSumUpdate(s.workers, t, ClaimBlock);
      case Sorting(b) => RankSumUpdate(s.workers, t, BlockSorted(b));
      case BlockSorted(b) =>
        RankSumUpdate(s.workers, t, ClaimBlock);
        FreeCountUpdate(s.table, s.active, b, DONE);
      case ClaimBlock =>
        var b := FirstFree(s.table, s.active);
        RankSumUpdate(s.workers, t, if b < 0 then AtSorted else Sorting(b));
        if b >= 0 {
          FreeCountUpdate(s.table, s.active, b, BUSY);
        }
    }
  }

  lemma LateDecreases(c: Config, s: State, t: nat, sorted: seq<Record>)
    requires Inv(c, s) && s.stage == LateStage && CanWork(c, s, t, sorted)
    ensures var s' := ApplyWork(c, s, t, sorted); s'.active <= |s'.table| && Smaller(s', s)
  {
    hide Rounds, SortsBlocks, Flatten, Pairs, Offset, Fits, ChunkResult, Merge, Claims, RankSum, FreeCount, MergedPair;
    var pt := s.workers[t];
    assert LateWorker(s.active, s.runs, s.merged, pt);
    HeldIsBusy(s.workers, s.table, s.owner, s.active / 2, t);
    match pt {
      case ClaimPair(a) =>
        var p := FirstFree(s.table, a / 2);
        RankSumUpdate(s.workers, t, if p < 0 then AtMerged(false, a) else MergePair(false, a, p));
        if p >= 0 {
          FreeCountUpdate(s.table, a / 2, p, BUSY);
        }
      case MergePair(_, _, _) => RankSumUpdate(s.workers, t, ApplyWork(c, s, t, sorted).workers[t]);
      case CopyPair(_, a, p, _, _) => RankSumUpdate(s.workers, t, PairDone(a, p));
      case PairDone(a, p) =>
        RankSumUpdate(s.workers, t, ClaimPair(a));
        FreeCountUpdate(s.table, a / 2, p, DONE);
    }
  }

  lemma RoundDecreases(c: Config, s: State, t: nat, sorted: seq<Record>)
    requires Inv(c, s) && s.stage == RoundStage && CanWork(c, s, t, sorted)
    ensures var s' := ApplyWork(c, s, t, sorted); s'.active <= |s'.table| && Smaller(s', s)
  {
    hide Rounds, SortsBlocks, Flatten, Pairs, Offset, Fits, ChunkResult, Merge, Claims, RankSum, FreeCount, MergedPair;
    assert RoundWorker(c, s.active, s.runs, t in s.merged, t, s.workers[t]);
    RankSumUpdate(s.workers, t, ApplyWork(c, s, t, sorted).workers[t]);
  }

  lemma WorkDecreases(c: Config, s: State, t: nat, sorted: seq<Record>)
    requires Inv(c, s) && CanStep(c, s, Work(t, sorted))
    ensures var s' := Apply(c, s, Work(t, sorted)); s'.active <= |s'.table| && Smaller(s', s)
  {
    hide Rounds, SortsBlocks, Flatten, Pairs, Offset, Fits, ChunkResult, Merge, Claims, RankSum, FreeCount, MergedPair;
    var pt := s.workers[t];
    match s.stage {
      case SortStage => SortDecreases(c, s, t, sorted);
      case LateStage => LateDecreases(c, s, t, sorted);
      case RoundStage => RoundDecreases(c, s, t, sorted);
      case FinishStage(e) =>
        assert FinishWorker(c, s.active, s.merged, e, t, pt);
        RankSumUpdate(s.workers, t, AtRoundEnd(e));
      case Idle => assert false;
      case Shutdown =>
        RankSumUpdate(s.workers, t, Exited);
    }
  }

  lemma OpenWorkersDecreases(c: Config, s: State)
    requires Inv(c, s) && CanStep(c, s, OpenWorkers)
    ensures var s' := Apply(c, s, OpenWorkers); s'.active <= |s'.table| && Smaller(s', s)
  {
    hide Rounds, SortsBlocks, Flatten, Pairs, Offset, Fits, ChunkResult, Merge, Claims, RankSum, FreeCount;
    var first := s.workers[0];
    assert WaitsAtWorkers(first);
    assert s.stage == SortStage ==> SortWorker(s.runs, first);
    assert s.stage == RoundStage ==> RoundWorker(c, s.active, s.runs, 0 in s.merged, 0, first);
    assert s.stage == LateStage ==> LateWorker(s.active, s.runs, s.merged, first);
    assert s.stage.FinishStage? ==> FinishWorker(c, s.active, s.merged, s.stage.early, 0, first);
  }

  /** Every step brings the program closer to its end, in a well-founded order. */
  lemma StepDecreases(c: Config, s: State, step: Step)
    requires Inv(c, s) && CanStep(c, s, step)
    ensures var s' := Apply(c, s, step); s'.active <= |s'.table| && Smaller(s', s)
  {
    hide Rounds, SortsBlocks, Flatten, Pairs, Offset, Fits, ChunkResult, Merge, Claims, RankSum, FreeCount;
    match step {
      case MainStep =>
      case OpenControl =>
      case OpenWorkers => OpenWorkersDecreases(c, s);
      case Work(t, sorted) => WorkDecreases(c, s, t, sorted);
    }
  }

  function Prefix(run: nat -> Step, n: nat): (steps: seq<Step>)
    ensures |steps| == n
  {
    seq(n, i requires 0 <= i < n => run(i))
  }

  /** No run goes on for ever. */
  lemma {:induction false} NoEndlessRun(c: Config, s: State, run: nat -> Step)
    requires Inv(c, s)
    ensures exists n: nat :: !Feasible(c, s, Prefix(run, n))
    decreases MainMeasure(s), StageMeasure(s), WorkMeasure(s)
  {
    hide Inv, CanStep, Apply, WorkMeasure, StageMeasure, MainMeasure;
    WellFormedOf(c, s);
    if CanStep(c, s, run(0)) {
      StepKeepsInv(c, s, run(0));
      StepDecreases(c, s, run(0));
      var later := (i: nat) => run(i + 1);
      NoEndlessRun(c, Apply(c, s, run(0)), later);
      var n: nat :| !Feasible(c, Apply(c, s, run(0)), Prefix(later, n));
      assert Prefix(run, n + 1)[1..] == Prefix(later, n);
      assert !Feasible(c, s, Prefix(run, n + 1));
    } else {
      assert !Feasible(c, s, Prefix(run, 1));
    }
  }

  /** And from every reachable state some run leads to the end. */
  lemma {:induction false} Completes(c: Config, s: State) returns (steps: seq<Step>)
    requires Inv(c, s)
    ensures Feasible(c, s, steps)
    ensures var end := Execute(c, s, steps); Finished(end) || end.main == Aborted
    decreases MainMeasure(s), StageMeasure(s), WorkMeasure(s)
  {
    hide Inv, CanStep, Apply, WorkMeasure, StageMeasure, MainMeasure;
    if Finished(s) || s.main == Aborted {
      return [];
    }
    WellFormedOf(c, s);
    var step := NoDeadlock(c, s);
    StepKeepsInv(c, s, step);
    StepDecreases(c, s, step);
    var rest := Completes(c, Apply(c, s, step));
    steps := [step] + rest;
    assert steps[1..] == rest;
  }

  // ----- Every reachable state -----

  /** No two workers get in each other's way. */
  predicate Exclusive(s: State, t: nat, u: nat)
    requires t < |s.workers| && u < |s.workers|
  {
    var pt, pu := s.workers[t], s.workers[u];
    && Apart(Touched(s, pt), Touched(s, pu))
    && (Held(pt) >= 0 ==> Held(pt) != Held(pu))
    && (RewritesTable(t, pt) ==> !UsesTable(pu))
    && (t == 0 && pt.Finish? ==> pu.Finish? || pu.AtRoundEnd?)
    && (WaitsAtWorkers(pt) && WaitsAtWorkers(pu) ==> pt == pu)
  }

  /** A worker is inside its loop exactly while main waits for the end of a chunk. */
  predicate Aligned(s: State, t: nat)
    requires t < |s.workers|
  {
    && (s.main == AtChunkStart || s.main == AtShutdown || s.main == Prepare || s.main == Collect
        ==> s.workers[t] == AtStart)
    && (s.main == AtChunkEnd ==> s.workers[t] != AtStart && s.workers[t] != Exited)
  }

  ghost predicate Safe(c: Config, s: State) {
    && |s.workers| == c.threads
    && (forall t, u :: 0 <= t < c.threads && 0 <= u < c.threads && t != u ==> Exclusive(s, t, u))
    && (forall t :: 0 <= t < c.threads ==> Aligned(s, t))
  }

  lemma InvIsSafe(c: Config, s: State)
    requires Inv(c, s)
    ensures Safe(c, s)
  {
    WellFormedOf(c, s);
    hide Inv, Touched, UsesTable, RewritesTable, WaitsAtWorkers, Apart, Held;
    forall t: nat, u: nat | t < c.threads && u < c.threads && t != u
      ensures Exclusive(s, t, u)
    {
      RaceFree(c, s, t, u);
      if WaitsAtWorkers(s.workers[t]) && WaitsAtWorkers(s.workers[u]) {
        BarrierAgreement(c, s, t, u);
      }
    }
    forall t: nat | t < c.threads
      ensures Aligned(s, t)
    {
      ControlAlignment(c, s, t);
    }
  }

  /** Whatever the workers and main have done so far, in whatever order: no race, no drift
      at the barriers, and, unless all is over, somebody can go on. */
  lemma EveryRun(c: Config, steps: seq<Step>)
    requires ValidConfig(c) && Feasible(c, Start(c), steps)
    ensures var s := Execute(c, Start(c), steps);
      && Safe(c, s)
      && (s.main == Aborted || Finished(s) || exists step :: CanStep(c, s, step))
  {
    hide Inv, Execute, Feasible, CanStep, Safe, Finished;
    StartInv(c);
    RunKeepsInv(c, Start(c), steps);
    var s := Execute(c, Start(c), steps);
    InvIsSafe(c, s);
    if s.main != Aborted && !Finished(s) {
      var step := NoDeadlock(c, s);
    }
  }
}
