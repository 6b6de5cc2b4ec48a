/** What every reachable state of the worker protocol satisfies, stage by stage. */
module WorkerInvariant {
  import opened Records
  import opened RunMerging
  import opened Runs
  import opened BlockTable
  import opened WorkerProtocol

  // ----- Claiming entries of the table -----

  /** The block or pair a worker has claimed and not yet marked as done, or -1. */
  function Held(pc: Pc): int {
    match pc
    case Sorting(b) => b
    case BlockSorted(b) => b
    case MergePair(false, _, p) => p
    case CopyPair(false, _, p, _, _) => p
    case PairDone(_, p) => p
    case _ => -1
  }

  /** Waits because it found nothing left to claim. */
  predicate FoundNone(pc: Pc) {
    pc.AtSorted? || (pc.AtMerged? && !pc.early)
  }

  /** What worker `t` holds is busy and owned by `t`; one that gave up saw nothing free. */
  predicate Claimant(pc: Pc, t: nat, table: seq<Block>, owner: seq<nat>, limit: nat)
    requires limit <= |table| == |owner|
  {
    && Held(pc) < limit
    && (Held(pc) >= 0 ==> table[Held(pc)].state == BUSY && owner[Held(pc)] == t)
    && (FoundNone(pc) ==> forall i :: 0 <= i < limit ==> table[i].state != FREE)
  }

  /** A busy entry is held by its owner. */
  predicate Claimed(workers: seq<Pc>, block: Block, owner: nat, i: nat) {
    block.state <= DONE && (block.state == BUSY ==> owner < |workers| && Held(workers[owner]) == i)
  }

  /** Busy entries and the workers holding them correspond one to one. */
  predicate Claims(workers: seq<Pc>, table: seq<Block>, owner: seq<nat>, limit: nat)
    requires limit <= |table| == |owner|
  {
    && (forall t :: 0 <= t < |workers| ==> Claimant(workers[t], t, table, owner, limit))
    && (forall i :: 0 <= i < limit ==> Claimed(workers, table[i], owner[i], i))
  }

  lemma HeldIsBusy(workers: seq<Pc>, table: seq<Block>, owner: seq<nat>, limit: nat, t: nat)
    requires limit <= |table| == |owner| && Claims(workers, table, owner, limit) && t < |workers|
    ensures Held(workers[t]) < limit
    ensures Held(workers[t]) >= 0 ==> table[Held(workers[t])].state == BUSY
  {
    assert Claimant(workers[t], t, table, owner, limit);
  }

  lemma HeldApart(workers: seq<Pc>, table: seq<Block>, owner: seq<nat>, limit: nat, t: nat, u: nat)
    requires limit <= |table| == |owner| && Claims(workers, table, owner, limit)
    requires t < |workers| && u < |workers| && t != u && Held(workers[t]) >= 0
    ensures Held(workers[t]) != Held(workers[u])
  {
    assert Claimant(workers[t], t, table, owner, limit);
    assert Claimant(workers[u], u, table, owner, limit);
  }

  lemma ClaimKeeps(workers: seq<Pc>, table: seq<Block>, owner: seq<nat>, limit: nat, t: nat, pc: Pc)
    requires limit <= |table| == |owner| && Claims(workers, table, owner, limit)
    requires t < |workers| && Held(workers[t]) < 0
    requires FirstFree(table, limit) >= 0 && Held(pc) == FirstFree(table, limit) && !FoundNone(pc)
    ensures Claims(workers[t := pc], SetState(table, Held(pc), BUSY), owner[Held(pc) := t], limit)
  {
    var i := Held(pc);
    var workers', table', owner' := workers[t := pc], SetState(table, i, BUSY), owner[i := t];
    forall u | 0 <= u < |workers|
      ensures Claimant(workers'[u], u, table', owner', limit)
    {
      assert Claimant(workers[u], u, table, owner, limit);
    }
    forall j | 0 <= j < limit
      ensures Claimed(workers', table'[j], owner'[j], j)
    {
      assert Claimed(workers, table[j], owner[j], j);
    }
  }

  lemma GiveUpKeeps(workers: seq<Pc>, table: seq<Block>, owner: seq<nat>, limit: nat, t: nat, pc: Pc)
    requires limit <= |table| == |owner| && Claims(workers, table, owner, limit)
    requires t < |workers| && Held(workers[t]) < 0 && FirstFree(table, limit) < 0 && Held(pc) < 0
    ensures Claims(workers[t := pc], table, owner, limit)
  {
    forall j | 0 <= j < limit
      ensures Claimed(workers[t := pc], table[j], owner[j], j)
    {
      assert Claimed(workers, table[j], owner[j], j);
    }
  }

  lemma MoveKeeps(workers: seq<Pc>, table: seq<Block>, owner: seq<nat>, limit: nat, t: nat, pc: Pc)
    requires limit <= |table| == |owner| && Claims(workers, table, owner, limit)
    requires t < |workers| && Held(workers[t]) == Held(pc) && !FoundNone(pc)
    ensures Claims(workers[t := pc], table, owner, limit)
  {
    assert Claimant(workers[t], t, table, owner, limit);
    forall j | 0 <= j < limit
      ensures Claimed(workers[t := pc], table[j], owner[j], j)
    {
      assert Claimed(workers, table[j], owner[j], j);
    }
  }

  lemma MarkDoneKeeps(workers: seq<Pc>, table: seq<Block>, owner: seq<nat>, limit: nat, t: nat, pc: Pc)
    requires limit <= |table| == |owner| && Claims(workers, table, owner, limit)
    requires t < |workers| && 0 <= Held(workers[t]) < |table| && Held(pc) < 0 && !FoundNone(pc)
    ensures Claims(workers[t := pc], SetState(table, Held(workers[t]), DONE), owner, limit)
  {
    var i := Held(workers[t]);
    var workers', table' := workers[t := pc], SetState(table, i, DONE);
    forall u | 0 <= u < |workers|
      ensures Claimant(workers'[u], u, table', owner, limit)
    {
      assert Claimant(workers[u], u, table, owner, limit);
      assert Claimant(workers[t], t, table, owner, limit);
    }
    forall j | 0 <= j < limit
      ensures Claimed(workers', table'[j], owner[j], j)
    {
      assert Claimed(workers, table[j], owner[j], j);
    }
  }

  /** When all have given up, everything is done. */
  lemma AllDone(workers: seq<Pc>, table: seq<Block>, owner: seq<nat>, limit: nat)
    requires limit <= |table| == |owner| && Claims(workers, table, owner, limit) && workers != []
    requires forall t :: 0 <= t < |workers| ==> FoundNone(workers[t])
    ensures forall i :: 0 <= i < limit ==> table[i].state == DONE
  {
    assert Claimant(workers[0], 0, table, owner, limit);
    forall i | 0 <= i < limit
      ensures table[i].state == DONE
    {
      assert Claimed(workers, table[i], owner[i], i);
    }
  }

  // ----- The invariant -----

  /** `blocks` are the blocks of `chunk`, each sorted in some way. */
  ghost predicate SortsBlocks(c: Config, chunk: seq<Record>, blocks: RunList) {
    && |blocks| == c.blocks
    && forall i :: 0 <= i < c.blocks ==> Sorted(blocks[i]) && Permutation(blocks[i], Slice(chunk, c.blocks, i))
  }

  /** What a chunk is allowed to become: its blocks sorted, then the merge rounds. */
  ghost predicate ChunkResult(c: Config, chunk: seq<Record>, result: seq<Record>) {
    && |chunk| >= c.blocks
    && exists blocks: RunList :: SortsBlocks(c, chunk, blocks) && result == Rounds(blocks, c.threads)
  }

  predicate InProgress(main: MainPc) {
    main == AtChunkStart || main == AtChunkEnd || main == Collect
  }

  /** Chunks are neither lost nor reordered, and every collected one has a legal result. */
  ghost predicate Collected(c: Config, s: State) {
    && s.origins + (if InProgress(s.main) then [s.original] else []) + s.todo == c.input
    && |s.origins| == |s.results|
    && forall i :: 0 <= i < |s.results| ==> ChunkResult(c, s.origins[i], s.results[i])
  }

  /** Memory and table agree on the runs of this round, some pairs being merged already. */
  ghost predicate Layout(active: nat, table: seq<Block>, buf: seq<Record>, runs: RunList, merged: set<nat>) {
    && |runs| == active
    && Fits(table, runs)
    && buf == Flatten(Pairs(runs, merged))
  }

  /** The rounds still to come lead where the rounds on the sorted blocks lead. */
  ghost predicate OnTrack(c: Config, chunk: seq<Record>, sortedBlocks: RunList, runs: RunList, rounds: nat) {
    && |chunk| >= c.blocks
    && SortsBlocks(c, chunk, sortedBlocks)
    && |runs| >= 1
    && Rounds(runs, c.threads) == Rounds(sortedBlocks, c.threads)
    && rounds + RoundCount(|runs|) == RoundCount(c.blocks)
  }

  ghost predicate IdleInv(c: Config, s: State) {
    && (forall t :: 0 <= t < |s.workers| ==> s.workers[t] == AtStart)
    && match s.main
       case Prepare => !s.done
       case AtChunkStart =>
         && !s.done && s.phase == 1 && |s.original| >= c.blocks
         && s.merged == {} && s.buf == s.original && s.runs == Blocks(s.original, c.blocks)
         && s.active == c.blocks && c.blocks > 0 && s.table == InitTable(|s.original|, c.blocks)
       case Collect =>
         && !s.done && |s.original| >= c.blocks
         && SortsBlocks(c, s.original, s.sortedBlocks)
         && s.buf == Rounds(s.sortedBlocks, c.threads)
         && s.rounds == RoundCount(c.blocks)
       case AtShutdown => s.done && s.todo == []
       case Aborted => s.todo != [] && |s.todo[0]| < c.blocks
       case _ => false
  }

  predicate SortWorker(runs: RunList, pc: Pc) {
    match pc
    case Check => true
    case ClaimBlock => true
    case Sorting(b) => true
    case BlockSorted(b) => b < |runs| && Sorted(runs[b])
    case AtSorted => true
    case _ => false
  }

  /** Run `i` holds the records of block `i`, and is sorted once the block is done. */
  predicate BlockRun(c: Config, chunk: seq<Record>, run: seq<Record>, state: nat, i: nat)
    requires i < c.blocks
  {
    Permutation(run, Slice(chunk, c.blocks, i)) && (state == DONE ==> Sorted(run))
  }

  ghost predicate SortInv(c: Config, s: State)
    requires WellFormed(c, s)
  {
    && s.phase == 1 && |s.original| >= c.blocks && s.merged == {}
    && s.active == c.blocks && |s.runs| == c.blocks
    && Fits(s.table, s.runs) && s.buf == Flatten(s.runs)
    && Claims(s.workers, s.table, s.owner, c.blocks)
    && (forall t :: 0 <= t < |s.workers| ==> SortWorker(s.runs, s.workers[t]))
    && (forall i :: 0 <= i < c.blocks ==> BlockRun(c, s.original, s.runs[i], s.table[i].state, i))
  }

  /** The private buffer of a worker about to copy pair `p` back. */
  predicate Buffered(runs: RunList, p: nat, lo: nat, tmp: seq<Record>) {
    && 2 * p + 1 < |runs|
    && lo == Offset(runs, 2 * p)
    && tmp == Merge(runs[2 * p], runs[2 * p + 1])
  }

  predicate RoundWorker(c: Config, active: nat, runs: RunList, isMerged: bool, t: nat, pc: Pc) {
    var early := active >= 2 && active / 2 >= c.threads;
    var late := active >= 2 && active / 2 < c.threads;
    match pc
    case ReadActive => !isMerged
    case MergePair(e, a, p) => e && early && a == active && p == t && !isMerged
    case CopyPair(e, a, p, lo, tmp) => e && early && a == active && p == t && !isMerged && Buffered(runs, p, lo, tmp)
    case AtMerged(e, a) => e && early && a == active && isMerged
    case LateReset(a) => late && a == active && !isMerged
    case AtReset(a) => late && a == active && !isMerged
    case AtEnd => active <= 1 && !isMerged
    case _ => false
  }

  predicate AllFree(table: seq<Block>, limit: nat) {
    limit <= |table| && forall i :: 0 <= i < limit ==> table[i].state == FREE
  }

  ghost predicate RoundInv(c: Config, s: State)
    requires WellFormed(c, s)
  {
    && Layout(s.active, s.table, s.buf, s.runs, s.merged)
    && OnTrack(c, s.original, s.sortedBlocks, s.runs, s.rounds)
    && (forall t :: 0 <= t < |s.workers| ==> RoundWorker(c, s.active, s.runs, t in s.merged, t, s.workers[t]))
    && (forall p :: p in s.merged ==> p < c.threads)
    && (c.threads > 0 && s.workers[0].AtReset? ==> AllFree(s.table, s.active / 2))
  }

  predicate LateWorker(active: nat, runs: RunList, merged: set<nat>, pc: Pc) {
    match pc
    case ClaimPair(a) => a == active
    case MergePair(e, a, p) => !e && a == active && p !in merged
    case CopyPair(e, a, p, lo, tmp) => !e && a == active && p !in merged && Buffered(runs, p, lo, tmp)
    case PairDone(a, p) => a == active && p in merged
    case AtMerged(e, a) => !e && a == active
    case _ => false
  }

  ghost predicate LateInv(c: Config, s: State)
    requires WellFormed(c, s)
  {
    && Layout(s.active, s.table, s.buf, s.runs, s.merged)
    && OnTrack(c, s.original, s.sortedBlocks, s.runs, s.rounds)
    && 2 <= s.active && s.active / 2 < c.threads
    && Claims(s.workers, s.table, s.owner, s.active / 2)
    && (forall t :: 0 <= t < |s.workers| ==> LateWorker(s.active, s.runs, s.merged, s.workers[t]))
    && (forall p :: p in s.merged ==> p < s.active / 2 && s.table[p].state != FREE)
    && (forall p :: 0 <= p < s.active / 2 && s.table[p].state == DONE ==> p in s.merged)
  }

  predicate FinishWorker(c: Config, active: nat, merged: set<nat>, early: bool, t: nat, pc: Pc) {
    match pc
    case Finish(e, a) =>
      && e == early && a <= c.blocks
      && (t == 0 ==> a == active && a >= 2 && merged == FirstPairs(MergedPairs(a, c.threads)))
    case AtRoundEnd(e) => e == early && (t == 0 ==> merged == {})
    case _ => false
  }

  ghost predicate FinishInv(c: Config, s: State, early: bool)
    requires WellFormed(c, s)
  {
    && Layout(s.active, s.table, s.buf, s.runs, s.merged)
    && OnTrack(c, s.original, s.sortedBlocks, s.runs, s.rounds)
    && (forall t :: 0 <= t < |s.workers| ==> FinishWorker(c, s.active, s.merged, early, t, s.workers[t]))
  }

  ghost predicate ShutdownInv(s: State) {
    && s.done && s.todo == []
    && (forall t :: 0 <= t < |s.workers| ==> s.workers[t] == Check || s.workers[t] == Exited)
  }

  ghost predicate StageInv(c: Config, s: State)
    requires WellFormed(c, s)
  {
    match s.stage
    case Idle => IdleInv(c, s)
    case SortStage => s.main == AtChunkEnd && !s.done && SortInv(c, s)
    case RoundStage => s.main == AtChunkEnd && !s.done && RoundInv(c, s)
    case LateStage => s.main == AtChunkEnd && !s.done && LateInv(c, s)
    case FinishStage(e) => s.main == AtChunkEnd && !s.done && FinishInv(c, s, e)
    case Shutdown => s.main == Joining && ShutdownInv(s)
  }

  ghost predicate Inv(c: Config, s: State) {
    ValidConfig(c) && WellFormed(c, s) && Collected(c, s) && StageInv(c, s)
  }
}
