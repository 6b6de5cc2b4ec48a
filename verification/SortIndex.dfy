/** What the whole program does to the file: every run rearranges it, and it sorts every
    file exactly when the first merge round has a worker for each pair. */
module SortIndex {
  import opened Records
  import opened RunMerging
  import opened Runs
  import opened BlockTable
  import opened ChunkMerge
  import opened Chunking
  import opened WorkerProtocol
  import opened WorkerInvariant
  import opened WorkerRuns
  import opened WorkerSafety

  /** A run from the start of the program until the workers are gone. */
  predicate CompleteRun(c: Config, steps: seq<Step>)
    requires c.blocks > 0
  {
    Feasible(c, Start(c), steps) && Finished(Execute(c, Start(c), steps))
  }

  /** The data of the file after `merge_sorted_chunks`. */
  function FileResult(c: Config, steps: seq<Step>): seq<Record>
    requires c.blocks > 0 && CompleteRun(c, steps)
  {
    var results := Execute(c, Start(c), steps).results;
    Rounds(results, |results|)
  }

  // ----- One chunk -----

  lemma ChunkPermuted(c: Config, chunk: seq<Record>, result: seq<Record>)
    requires c.blocks > 0 && ChunkResult(c, chunk, result)
    ensures Permutation(result, chunk)
  {
    hide Rounds, Flatten, Slice;
    var blocks: RunList :| SortsBlocks(c, chunk, blocks) && result == Rounds(blocks, c.threads);
    RoundsPermute(blocks, c.threads);
    FlattenPermutes(blocks, Blocks(chunk, c.blocks));
    BlocksFlat(chunk, c.blocks, c.blocks);
  }

  lemma ChunkSorted(c: Config, chunk: seq<Record>, result: seq<Record>)
    requires ChunkResult(c, chunk, result) && c.blocks / 2 <= c.threads
    ensures Sorted(result)
  {
    hide Rounds, Slice;
    var blocks: RunList :| SortsBlocks(c, chunk, blocks) && result == Rounds(blocks, c.threads);
    RoundsSort(blocks, c.threads);
  }

  predicate Descending(s: seq<Record>) {
    forall i, j :: 0 <= i < j < |s| ==> s[i].timeMark > s[j].timeMark
  }

  /** Blocks of a descending chunk never fit together in order. */
  lemma DescendingBlocks(chunk: seq<Record>, blocks: nat, i: nat, a: seq<Record>, b: seq<Record>)
    requires Descending(chunk) && |chunk| >= blocks && i + 1 < blocks
    requires Permutation(a, Slice(chunk, blocks, i)) && Permutation(b, Slice(chunk, blocks, i + 1))
    ensures !Sorted(a + b)
  {
    BlocksBalanced(|chunk|, blocks, i, i + 1);
    BlocksBalanced(|chunk|, blocks, i + 1, i);
    var left, right := Slice(chunk, blocks, i), Slice(chunk, blocks, i + 1);
    PermutationMembers(a, left);
    PermutationMembers(b, right);
    SortedConcat(a, b);
    BlockOffsetMonotone(|chunk|, blocks, i + 2, blocks);
    BlocksEndAtEnd(|chunk|, blocks);
    var x, y := chunk[BlockOffset(|chunk|, blocks, i)], chunk[BlockOffset(|chunk|, blocks, i + 1)];
    assert x == left[0] && y == right[0];
    assert x in a && y in b;
  }

  /** The gap: with more pairs than workers in the first round, pair number `threads` is
      never merged, and a descending chunk ends up unsorted in every run. */
  lemma ChunkUnsorted(c: Config, chunk: seq<Record>, result: seq<Record>)
    requires ChunkResult(c, chunk, result) && c.threads > 0 && c.blocks / 2 > c.threads && Descending(chunk)
    ensures !Sorted(result)
  {
    hide Rounds, Slice, Merge, Descending;
    var blocks: RunList :| SortsBlocks(c, chunk, blocks) && result == Rounds(blocks, c.threads);
    if Sorted(result) {
      RoundsSortedOnlyIf(blocks, c.threads);
      var t := c.threads;
      PairUnmerged(blocks, FirstPairs(MergedPairs(|blocks|, t)), t);
      assert Sorted(Round(blocks, t)[t]);
      DescendingBlocks(chunk, c.blocks, 2 * t, blocks[2 * t], blocks[2 * t + 1]);
    }
  }

  // ----- The whole file -----

  /** Every complete run turns every chunk into a legal result and leaves a permutation of
      the file; the file is sorted when the first round has a worker for every pair. */
  lemma FileOutcome(c: Config, steps: seq<Step>)
    requires ValidConfig(c) && CompleteRun(c, steps)
    ensures var results := Execute(c, Start(c), steps).results;
            && |results| == |c.input|
            && forall i :: 0 <= i < |results| ==> ChunkResult(c, c.input[i], results[i])
    ensures Permutation(FileResult(c, steps), Flatten(c.input))
    ensures c.blocks / 2 <= c.threads ==> Sorted(FileResult(c, steps))
  {
    StartInv(c);
    RunKeepsInv(c, Start(c), steps);
    var end := Execute(c, Start(c), steps);
    EndOfRun(c, end);
    hide Rounds, Flatten, Execute, Feasible, ChunkResult, Inv;
    var results := end.results;
    forall i | 0 <= i < |results|
      ensures Permutation(results[i], c.input[i])
      ensures c.blocks / 2 <= c.threads ==> Sorted(results[i])
    {
      ChunkPermuted(c, c.input[i], results[i]);
      if c.blocks / 2 <= c.threads {
        ChunkSorted(c, c.input[i], results[i]);
      }
    }
    RoundsPermute(results, |results|);
    FlattenPermutes(results, c.input);
    if c.blocks / 2 <= c.threads {
      RoundsSort(results, |results|);
    }
  }

  /** The same for the data of a file cut into chunks of a given capacity. */
  lemma WholeFile(data: seq<Record>, capacity: nat, c: Config, steps: seq<Step>)
    requires capacity > 0 && c.threads > 0 && c.blocks > 0 && c.input == Chunks(data, capacity)
    requires CompleteRun(c, steps)
    ensures Permutation(FileResult(c, steps), data)
    ensures c.blocks / 2 <= c.threads ==> Sorted(FileResult(c, steps))
  {
    hide CompleteRun, FileResult;
    ChunksNotEmpty(data, capacity);
    FileOutcome(c, steps);
    ChunksFlat(data, capacity);
  }

  lemma EndOfRun(c: Config, s: State)
    requires Inv(c, s) && Finished(s)
    ensures |s.results| == |c.input|
    ensures forall i :: 0 <= i < |s.results| ==> ChunkResult(c, c.input[i], s.results[i])
  {
    hide ChunkResult, SortInv, RoundInv, LateInv, FinishInv;
    assert s.origins == c.input;
  }

  // ----- The file itself -----

  /** A table that describes the chunks also describes what became of them. */
  lemma SameChunkTable(c: Config, results: RunList, chunks: seq<Chunk>)
    requires c.blocks > 0 && |results| == |c.input|
    requires forall i :: 0 <= i < |results| ==> ChunkResult(c, c.input[i], results[i])
    requires Describes(chunks, c.input)
    ensures Describes(chunks, results)
  {
    hide ChunkResult, Offset;
    forall i | 0 <= i < |results|
      ensures |results[i]| == |c.input[i]|
    {
      ChunkPermuted(c, c.input[i], results[i]);
      PermutationMembers(results[i], c.input[i]);
    }
    forall i | 0 <= i < |results|
      ensures Offset(results, i) == Offset(c.input, i)
    {
      OffsetPrefix(results, c.input, i);
    }
  }

  /** What main does once the workers are gone: merge the chunks, if there are several. */
  method FinishFile(ghost c: Config, ghost steps: seq<Step>, file: array<Record>, chunks: array<Chunk>, count: nat,
                    ghost total: nat)
    requires ValidConfig(c) && CompleteRun(c, steps) && count == |c.input| && Describes(chunks[..], c.input)
    requires total <= file.Length && file[..total] == Flatten(Execute(c, Start(c), steps).results)
    modifies file, chunks
    ensures file[..total] == FileResult(c, steps) && file[total..] == old(file[total..])
  {
    FileOutcome(c, steps);
    hide Execute, Feasible, Rounds, Flatten, Describes, ChunkResult, CompleteRun, Inv;
    ghost var results := Execute(c, Start(c), steps).results;
    SameChunkTable(c, results, chunks[..]);
    if count > 1 {
      MergeSortedChunks(file, chunks, count, total, results);
    } else {
      LastRun(results, count);
    }
  }

  /** From the chunk loop to the finished file, for data cut by the memory size: whatever
      the workers did, the file ends as a permutation, sorted if the first round has a
      worker for every pair. */
  method MergeFile(ghost data: seq<Record>, ghost c: Config, ghost steps: seq<Step>, file: array<Record>,
                   recordsPerChunk: nat, pageSize: nat, ghost k: nat)
    requires recordsPerChunk > 0 && pageSize == Power2(k) && pageSize > 0
    requires c.threads > 0 && c.blocks > 0 && c.input == Chunks(data, recordsPerChunk) && CompleteRun(c, steps)
    requires file.Length == |data| && file[..] == Flatten(Execute(c, Start(c), steps).results)
    modifies file
    ensures file[..] == FileResult(c, steps) && Permutation(file[..], data)
    ensures c.blocks / 2 <= c.threads ==> Sorted(file[..])
  {
    WholeFile(data, recordsPerChunk, c, steps);
    hide Execute, Feasible, Chunks, Flatten, Describes, Covers, Power2, CompleteRun, FileResult;
    ghost var total := file.Length;
    ghost var was := file[..];
    assert file[..total] == was;
    var chunks, windows := PlanChunks(file.Length, recordsPerChunk, pageSize, k);
    ChunkCount(data, recordsPerChunk);
    ChunksNotEmpty(data, recordsPerChunk);
    var table := new Chunk[|chunks|](i requires 0 <= i < |chunks| => chunks[i]);
    assert table[..] == chunks;
    FinishFile(c, steps, file, table, |chunks|, total);
    assert file[..total] == file[..];
  }

  lemma ChunksNotEmpty(data: seq<Record>, capacity: nat)
    requires capacity > 0
    ensures forall i :: 0 <= i < |Chunks(data, capacity)| ==> Chunks(data, capacity)[i] != []
  {
    hide Chunks;
    forall i | 0 <= i < |Chunks(data, capacity)|
      ensures Chunks(data, capacity)[i] != []
    {
      ChunkSizes(data, capacity, i);
    }
  }

  /** When main records a chunk, the number of rounds is the logarithm of the number of blocks. */
  lemma RoundsPerChunk(c: Config, s: State, k: nat)
    requires Inv(c, s) && s.main == Collect && c.blocks == Power2(k)
    ensures s.rounds == k
    ensures ChunkResult(c, s.original, s.buf)
  {
    hide Rounds, Slice, SortInv, RoundInv, LateInv, FinishInv;
    RoundCountOfPower(k);
  }

  /** The program gives up exactly on files with a chunk too small for its blocks. */
  lemma AbortsIff(c: Config, steps: seq<Step>)
    requires ValidConfig(c) && Feasible(c, Start(c), steps)
    requires var end := Execute(c, Start(c), steps); Finished(end) || end.main == Aborted
    ensures Execute(c, Start(c), steps).main == Aborted <==> exists i :: 0 <= i < |c.input| && |c.input[i]| < c.blocks
  {
    StartInv(c);
    RunKeepsInv(c, Start(c), steps);
    var end := Execute(c, Start(c), steps);
    if end.main == Aborted {
      AbortedState(c, end);
    } else {
      EndOfRun(c, end);
      forall i | 0 <= i < |c.input|
        ensures |c.input[i]| >= c.blocks
      {
        assert ChunkResult(c, c.input[i], end.results[i]);
      }
    }
  }

  lemma AbortedState(c: Config, s: State)
    requires Inv(c, s) && s.main == Aborted
    ensures exists i :: 0 <= i < |c.input| && |c.input[i]| < c.blocks
  {
    hide ChunkResult, SortInv, RoundInv, LateInv, FinishInv;
    assert s.origins + s.todo == c.input;
    assert c.input[|s.origins|] == s.todo[0];
  }

  // ----- When the program sorts -----

  predicate HasSizes(input: RunList, sizes: seq<nat>) {
    |input| == |sizes| && forall i :: 0 <= i < |sizes| ==> |input[i]| == sizes[i]
  }

  /** Every run on every file with chunks of these sizes ends with a sorted file. */
  ghost predicate SortsEveryFile(threads: nat, blocks: nat, sizes: seq<nat>)
    requires blocks > 0
  {
    forall input: RunList, steps: seq<Step> ::
      HasSizes(input, sizes) && CompleteRun(Config(threads, blocks, input), steps)
      ==> Sorted(FileResult(Config(threads, blocks, input), steps))
  }

  function DescendingChunk(n: nat): seq<Record> {
    seq(n, i requires 0 <= i < n => Record((n - i) as real, i))
  }

  function DescendingChunks(sizes: seq<nat>): RunList {
    seq(|sizes|, i requires 0 <= i < |sizes| => DescendingChunk(sizes[i]))
  }

  /** On descending chunks every complete run leaves the file unsorted. */
  lemma UnsortedWitness(c: Config, sizes: seq<nat>, steps: seq<Step>)
    requires ValidConfig(c) && CompleteRun(c, steps) && sizes != []
    requires c.input == DescendingChunks(sizes) && c.blocks / 2 > c.threads
    ensures !Sorted(FileResult(c, steps))
  {
    FileOutcome(c, steps);
    hide Rounds, Execute, Feasible, ChunkResult, CompleteRun;
    var results := Execute(c, Start(c), steps).results;
    if Sorted(Rounds(results, |results|)) {
      RoundsSortedOnlyIf(results, |results|);
      assert Descending(c.input[0]);
      ChunkUnsorted(c, c.input[0], results[0]);
    }
  }

  /** The program sorts every file of these chunk sizes if and only if the first merge
      round has at least as many workers as pairs. */
  lemma SortsEveryFileIff(threads: nat, blocks: nat, sizes: seq<nat>)
    requires threads > 0 && blocks > 0 && sizes != []
    requires forall i :: 0 <= i < |sizes| ==> sizes[i] >= blocks
    ensures SortsEveryFile(threads, blocks, sizes) <==> blocks / 2 <= threads
  {
    hide CompleteRun, FileResult, DescendingChunk;
    if blocks / 2 <= threads {
      forall input: RunList, steps: seq<Step>
        | HasSizes(input, sizes) && CompleteRun(Config(threads, blocks, input), steps)
        ensures Sorted(FileResult(Config(threads, blocks, input), steps))
      {
        FileOutcome(Config(threads, blocks, input), steps);
      }
    } else {
      var c := Config(threads, blocks, DescendingChunks(sizes));
      var steps := SomeCompleteRun(c, sizes);
      UnsortedWitness(c, sizes, steps);
    }
  }

  lemma SomeCompleteRun(c: Config, sizes: seq<nat>) returns (steps: seq<Step>)
    requires c.threads > 0 && c.blocks > 0 && c.input == DescendingChunks(sizes)
    requires forall i :: 0 <= i < |sizes| ==> sizes[i] >= c.blocks
    ensures ValidConfig(c) && HasSizes(c.input, sizes) && CompleteRun(c, steps)
  {
    hide Execute, Feasible;
    StartInv(c);
    steps := Completes(c, Start(c));
    AbortsIff(c, steps);
  }

  /** No command line the program accepts meets that condition: it wants four times as
      many blocks as threads, which leaves the first round with pairs nobody merges. */
  lemma AcceptedNeverSorts(memsize: nat, blocks: int, threads: int, pageSize: nat, sizes: seq<nat>)
    requires pageSize > 0 && Accepts(memsize, blocks, threads, pageSize)
    requires sizes != [] && forall i :: 0 <= i < |sizes| ==> sizes[i] >= blocks
    ensures blocks / 2 > threads > 0
    ensures !SortsEveryFile(threads, blocks, sizes)
  {
    SortsEveryFileIff(threads, blocks, sizes);
  }
}
