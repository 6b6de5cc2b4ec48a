/** Each step of the worker protocol keeps the invariant. */
module WorkerSteps {
  import opened Records
  import opened RunMerging
  import opened Runs
  import opened BlockTable
  import opened WorkerProtocol
  import opened WorkerInvariant

  // ----- The chunk in memory -----

  /** A pair that is not merged yet is still its two runs, where the table says. */
  lemma PairInMemory(buf: seq<Record>, runs: RunList, merged: set<nat>, p: nat)
    requires buf == Flatten(Pairs(runs, merged)) && p !in merged && 2 * p + 1 < |runs|
    ensures var lo, l, r := Offset(runs, 2 * p), |runs[2 * p]|, |runs[2 * p + 1]|;
            && lo + l + r <= |buf|
            && buf[lo..lo + l] == runs[2 * p] && buf[lo + l..lo + l + r] == runs[2 * p + 1]
  {
    PairSlice(runs, merged, p);
    SliceOfSlice(buf, Offset(runs, 2 * p), runs[2 * p], runs[2 * p + 1]);
  }

  /** What a worker reads for such a pair is the merge of the two runs. */
  lemma MergedPairValue(s: State, p: nat)
    requires Layout(s.active, s.table, s.buf, s.runs, s.merged)
    requires p !in s.merged && 2 * p + 1 < s.active
    ensures PairInside(s, p)
    ensures s.table[2 * p].offset == Offset(s.runs, 2 * p)
    ensures MergedPair(s, p) == Merge(s.runs[2 * p], s.runs[2 * p + 1])
  {
    hide Pairs, Flatten, Merge, Offset;
    PairInMemory(s.buf, s.runs, s.merged, p);
    assert s.table[2 * p].size == |s.runs[2 * p]|;
    assert s.table[2 * p + 1].size == |s.runs[2 * p + 1]|;
  }

  /** Copying the private buffer back merges exactly that pair. */
  lemma CopyBackMerges(buf: seq<Record>, runs: RunList, merged: set<nat>, p: nat)
    requires buf == Flatten(Pairs(runs, merged)) && p !in merged && 2 * p + 1 < |runs|
    ensures var tmp := Merge(runs[2 * p], runs[2 * p + 1]);
            && Offset(runs, 2 * p) + |tmp| <= |buf|
            && Splice(buf, Offset(runs, 2 * p), tmp) == Flatten(Pairs(runs, merged + {p}))
  {
    var view := Pairs(runs, merged);
    var tmp := Merge(runs[2 * p], runs[2 * p + 1]);
    PairOffset(runs, merged, p);
    PairUnmerged(runs, merged, p);
    MergePermutes(runs[2 * p], runs[2 * p + 1]);
    FlattenUpdate(view, p, tmp);
    PairsAdd(runs, merged, p);
  }

  /** Sorting block `b` in place replaces run `b`. */
  lemma SortBlockInMemory(buf: seq<Record>, table: seq<Block>, runs: RunList, b: nat, sorted: seq<Record>)
    requires buf == Flatten(runs) && Fits(table, runs) && b < |runs|
    requires table[b].offset + table[b].size <= |buf|
    requires |sorted| == table[b].size
    requires Permutation(sorted, buf[table[b].offset..table[b].offset + table[b].size])
    ensures Permutation(sorted, runs[b])
    ensures Splice(buf, table[b].offset, sorted) == Flatten(runs[b := sorted])
    ensures Fits(table, runs[b := sorted])
  {
    FlattenSlice(runs, b);
    FlattenUpdate(runs, b, sorted);
    forall i | 0 <= i < |runs|
      ensures table[i].offset == Offset(runs[b := sorted], i)
    {
      OffsetPrefix(runs, runs[b := sorted], i);
    }
  }

  // ----- Sorting the blocks -----

  lemma SortStepBlock(c: Config, s: State, t: nat, b: nat, sorted: seq<Record>)
    requires Inv(c, s) && s.stage == SortStage && CanWork(c, s, t, sorted) && s.workers[t] == Sorting(b)
    ensures Inv(c, ApplyWork(c, s, t, sorted))
  {
    hide Rounds, SortsBlocks, Flatten, Pairs, Offset, Fits, ChunkResult, Merge, Slice, Claims, FirstFree;
    HeldIsBusy(s.workers, s.table, s.owner, c.blocks, t);
    SortBlockInMemory(s.buf, s.table, s.runs, b, sorted);
    MoveKeeps(s.workers, s.table, s.owner, c.blocks, t, BlockSorted(b));
    assert BlockRun(c, s.original, s.runs[b], s.table[b].state, b);
    forall u | 0 <= u < |s.workers| && u != t
      ensures SortWorker(s.runs[b := sorted], s.workers[u])
    {
      assert SortWorker(s.runs, s.workers[u]);
      HeldApart(s.workers, s.table, s.owner, c.blocks, t, u);
    }
  }

  lemma SortStepClaim(c: Config, s: State, t: nat, sorted: seq<Record>)
    requires Inv(c, s) && s.stage == SortStage && CanWork(c, s, t, sorted) && s.workers[t] == ClaimBlock
    ensures Inv(c, ApplyWork(c, s, t, sorted))
  {
    hide Rounds, SortsBlocks, Flatten, Pairs, Offset, Fits, ChunkResult, Merge, Slice, Claims, FirstFree;
    var b := FirstFree(s.table, s.active);
    if b < 0 {
      GiveUpKeeps(s.workers, s.table, s.owner, c.blocks, t, AtSorted);
    } else {
      ClaimKeeps(s.workers, s.table, s.owner, c.blocks, t, Sorting(b));
      StatesDontMatter(s.table, s.runs, b, BUSY, 0);
    }
  }

  lemma SortStepMark(c: Config, s: State, t: nat, b: nat, sorted: seq<Record>)
    requires Inv(c, s) && s.stage == SortStage && CanWork(c, s, t, sorted) && s.workers[t] == BlockSorted(b)
    ensures Inv(c, ApplyWork(c, s, t, sorted))
  {
    hide Rounds, SortsBlocks, Flatten, Pairs, Offset, Fits, ChunkResult, Merge, Slice, Claims, FirstFree;
    assert SortWorker(s.runs, s.workers[t]);
    MarkDoneKeeps(s.workers, s.table, s.owner, c.blocks, t, ClaimBlock);
    StatesDontMatter(s.table, s.runs, b, DONE, 0);
    assert BlockRun(c, s.original, s.runs[b], s.table[b].state, b);
  }

  lemma SortStep(c: Config, s: State, t: nat, sorted: seq<Record>)
    requires Inv(c, s) && s.stage == SortStage && CanWork(c, s, t, sorted)
    ensures Inv(c, ApplyWork(c, s, t, sorted))
  {
    hide Rounds, SortsBlocks, Flatten, Pairs, Offset, Fits, ChunkResult, Merge, Slice, Claims, FirstFree;
    assert SortWorker(s.runs, s.workers[t]);
    match s.workers[t] {
      case Check => MoveKeeps(s.workers, s.table, s.owner, c.blocks, t, ClaimBlock);
      case ClaimBlock => SortStepClaim(c, s, t, sorted);
      case BlockSorted(b) => SortStepMark(c, s, t, b, sorted);
      case Sorting(b) => SortStepBlock(c, s, t, b, sorted);
    }
  }

  // ----- An early round, and the start of a late one -----

  lemma RoundStepMerge(c: Config, s: State, t: nat, a: nat, p: nat, sorted: seq<Record>)
    requires Inv(c, s) && s.stage == RoundStage && CanWork(c, s, t, sorted) && s.workers[t] == MergePair(true, a, p)
    ensures Inv(c, ApplyWork(c, s, t, sorted))
  {
    hide Rounds, SortsBlocks, Flatten, Pairs, Offset, Fits, ChunkResult, Merge;
    assert RoundWorker(c, s.active, s.runs, t in s.merged, t, s.workers[t]);
    MergedPairValue(s, p);
  }

  lemma RoundStepCopy(c: Config, s: State, t: nat, sorted: seq<Record>)
    requires Inv(c, s) && s.stage == RoundStage && CanWork(c, s, t, sorted) && s.workers[t].CopyPair?
    ensures Inv(c, ApplyWork(c, s, t, sorted))
  {
    hide Rounds, SortsBlocks, Flatten, Pairs, Offset, Fits, ChunkResult, Merge;
    assert RoundWorker(c, s.active, s.runs, t in s.merged, t, s.workers[t]);
    CopyBackMerges(s.buf, s.runs, s.merged, t);
  }

  lemma RoundStep(c: Config, s: State, t: nat, sorted: seq<Record>)
    requires Inv(c, s) && s.stage == RoundStage && CanWork(c, s, t, sorted)
    ensures Inv(c, ApplyWork(c, s, t, sorted))
  {
    hide Rounds, SortsBlocks, Flatten, Pairs, Offset, Fits, ChunkResult, Merge;
    assert RoundWorker(c, s.active, s.runs, t in s.merged, t, s.workers[t]);
    match s.workers[t] {
      case ReadActive =>
      case MergePair(_, a, p) => RoundStepMerge(c, s, t, a, p, sorted);
      case CopyPair(_, _, _, _, _) => RoundStepCopy(c, s, t, sorted);
      case LateReset(a) =>
        if t == 0 {
          StatesDontMatter(s.table, s.runs, 0, FREE, a / 2);
        }
    }
  }

  // ----- A late round -----

  lemma LateStepClaim(c: Config, s: State, t: nat, a: nat, sorted: seq<Record>)
    requires Inv(c, s) && s.stage == LateStage && CanWork(c, s, t, sorted) && s.workers[t] == ClaimPair(a)
    ensures Inv(c, ApplyWork(c, s, t, sorted))
  {
    hide Rounds, SortsBlocks, Flatten, Pairs, Offset, Fits, ChunkResult, Merge, Claims;
    assert LateWorker(s.active, s.runs, s.merged, s.workers[t]);
    var p := FirstFree(s.table, a / 2);
    if p < 0 {
      GiveUpKeeps(s.workers, s.table, s.owner, a / 2, t, AtMerged(false, a));
    } else {
      ClaimKeeps(s.workers, s.table, s.owner, a / 2, t, MergePair(false, a, p));
      StatesDontMatter(s.table, s.runs, p, BUSY, 0);
    }
  }

  lemma LateStepMerge(c: Config, s: State, t: nat, a: nat, p: nat, sorted: seq<Record>)
    requires Inv(c, s) && s.stage == LateStage && CanWork(c, s, t, sorted) && s.workers[t] == MergePair(false, a, p)
    ensures Inv(c, ApplyWork(c, s, t, sorted))
  {
    hide Rounds, SortsBlocks, Flatten, Pairs, Offset, Fits, ChunkResult, Merge, Claims;
    assert LateWorker(s.active, s.runs, s.merged, s.workers[t]);
    HeldIsBusy(s.workers, s.table, s.owner, a / 2, t);
    MergedPairValue(s, p);
    MoveKeeps(s.workers, s.table, s.owner, a / 2, t, ApplyWork(c, s, t, sorted).workers[t]);
  }

  lemma LateStepCopy(c: Config, s: State, t: nat, p: nat, sorted: seq<Record>)
    requires Inv(c, s) && s.stage == LateStage && CanWork(c, s, t, sorted)
    requires s.workers[t].CopyPair? && s.workers[t].pair == p
    ensures Inv(c, ApplyWork(c, s, t, sorted))
  {
    hide Rounds, SortsBlocks, Flatten, Pairs, Offset, Fits, ChunkResult, Merge, Claims;
    assert LateWorker(s.active, s.runs, s.merged, s.workers[t]);
    HeldIsBusy(s.workers, s.table, s.owner, s.active / 2, t);
    CopyBackMerges(s.buf, s.runs, s.merged, p);
    MoveKeeps(s.workers, s.table, s.owner, s.active / 2, t, PairDone(s.active, p));
    forall u | 0 <= u < |s.workers| && u != t
      ensures LateWorker(s.active, s.runs, s.merged + {p}, s.workers[u])
    {
      assert LateWorker(s.active, s.runs, s.merged, s.workers[u]);
      HeldApart(s.workers, s.table, s.owner, s.active / 2, t, u);
    }
  }

  lemma LateStepMark(c: Config, s: State, t: nat, a: nat, p: nat, sorted: seq<Record>)
    requires Inv(c, s) && s.stage == LateStage && CanWork(c, s, t, sorted) && s.workers[t] == PairDone(a, p)
    ensures Inv(c, ApplyWork(c, s, t, sorted))
  {
    hide Rounds, SortsBlocks, Flatten, Pairs, Offset, Fits, ChunkResult, Merge, Claims;
    assert LateWorker(s.active, s.runs, s.merged, s.workers[t]);
    HeldIsBusy(s.workers, s.table, s.owner, a / 2, t);
    MarkDoneKeeps(s.workers, s.table, s.owner, a / 2, t, ClaimPair(a));
    StatesDontMatter(s.table, s.runs, p, DONE, 0);
  }

  lemma LateStep(c: Config, s: State, t: nat, sorted: seq<Record>)
    requires Inv(c, s) && s.stage == LateStage && CanWork(c, s, t, sorted)
    ensures Inv(c, ApplyWork(c, s, t, sorted))
  {
    hide Rounds, SortsBlocks, Flatten, Pairs, Offset, Fits, ChunkResult, Merge, Claims, FirstFree;
    assert LateWorker(s.active, s.runs, s.merged, s.workers[t]);
    match s.workers[t] {
      case ClaimPair(a) => LateStepClaim(c, s, t, a, sorted);
      case MergePair(_, a, p) => LateStepMerge(c, s, t, a, p, sorted);
      case CopyPair(_, _, p, _, _) => LateStepCopy(c, s, t, p, sorted);
      case PairDone(a, p) => LateStepMark(c, s, t, a, p, sorted);
    }
  }

  // ----- The end of a round -----

  lemma FinishStepCompact(c: Config, s: State, a: nat, sorted: seq<Record>, early: bool)
    requires Inv(c, s) && s.stage == FinishStage(early) && CanWork(c, s, 0, sorted) && s.workers[0] == Finish(early, a)
    ensures Inv(c, ApplyWork(c, s, 0, sorted))
  {
    hide SortsBlocks, Flatten, Pairs, Offset, Fits, ChunkResult, Merge, Compact, Rounds, RoundCount;
    assert FinishWorker(c, s.active, s.merged, early, 0, s.workers[0]);
    CompactFits(s.table, s.runs, s.merged);
    var runs' := Pairs(s.runs, s.merged);
    PairsFlat(runs');
    assert runs' == Round(s.runs, c.threads);
    NextRound(s.runs, c.threads);
  }

  lemma FinishStep(c: Config, s: State, t: nat, sorted: seq<Record>, early: bool)
    requires Inv(c, s) && s.stage == FinishStage(early) && CanWork(c, s, t, sorted)
    ensures Inv(c, ApplyWork(c, s, t, sorted))
  {
    hide Rounds, SortsBlocks, Flatten, Pairs, Offset, Fits, ChunkResult, Merge, Compact;
    assert FinishWorker(c, s.active, s.merged, early, t, s.workers[t]);
    match s.workers[t] {
      case Finish(_, a) =>
        if t == 0 {
          FinishStepCompact(c, s, a, sorted, early);
        }
    }
  }

  lemma WorkKeepsInv(c: Config, s: State, t: nat, sorted: seq<Record>)
    requires Inv(c, s) && CanStep(c, s, Work(t, sorted))
    ensures Inv(c, ApplyWork(c, s, t, sorted))
  {
    hide Rounds, SortsBlocks, Flatten, Pairs, Offset, Fits, ChunkResult, Merge, Compact;
    hide SortInv, RoundInv, LateInv, FinishInv;
    match s.stage {
      case Idle => assert false;
      case SortStage => SortStep(c, s, t, sorted);
      case RoundStage => RoundStep(c, s, t, sorted);
      case LateStage => LateStep(c, s, t, sorted);
      case FinishStage(e) => FinishStep(c, s, t, sorted, e);
      case Shutdown =>
    }
  }
}
