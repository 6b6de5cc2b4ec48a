/** The second half of the external sort: the sorted chunks of the file are merged
    pairwise, in the file, while the chunk table is compacted in place.

    The file is an array of its records; `fileOffset` is in bytes, as in the program. */
module ChunkMerge {
  import opened Records
  import opened RunMerging
  import opened Runs

  const HEADER_BYTES: nat := 8
  const RECORD_BYTES: nat := 16

  datatype Chunk = Chunk(fileOffset: nat, records: nat)

  /** The byte position of record `i`. */
  function BytePosition(i: nat): nat {
    HEADER_BYTES + i * RECORD_BYTES
  }

  /** The record a byte position belongs to. */
  function RecordIndex(position: nat): nat {
    if position < HEADER_BYTES then 0 else (position - HEADER_BYTES) / RECORD_BYTES
  }

  /** Records of 16 bytes follow a header of 8. */
  lemma Positions(i: nat)
    ensures BytePosition(0) == 8 && BytePosition(i + 1) == BytePosition(i) + 16
  {
  }

  lemma PositionIndex(i: nat)
    ensures RecordIndex(BytePosition(i)) == i
  {
  }

  /** The first entries of `chunks` describe `runs`, laid end to end from the header on. */
  predicate Describes(chunks: seq<Chunk>, runs: RunList) {
    && |runs| <= |chunks|
    && forall i :: 0 <= i < |runs| ==> chunks[i] == Chunk(BytePosition(Offset(runs, i)), |runs[i]|)
  }

  /** The merge loops over two buffers. */
  method MergeBuffers(l: seq<Record>, r: seq<Record>) returns (out: seq<Record>)
    ensures out == Merge(l, r)
  {
    out := [];
    var i, j := 0, 0;
    MergingStarts(l, r);
    hide Merge, Merging;
    while i < |l| && j < |r|
      invariant i <= |l| && j <= |r|
      invariant Merging(out, l, r, i, j)
    {
      if l[i].timeMark <= r[j].timeMark {
        TakeLeft(out, l, r, i, j);
        out := out + [l[i]];
        i := i + 1;
      } else {
        TakeRight(out, l, r, i, j);
        out := out + [r[j]];
        j := j + 1;
      }
    }
    while i < |l|
      invariant i <= |l| && j <= |r| && (i == |l| || j == |r|)
      invariant Merging(out, l, r, i, j)
    {
      TakeLeft(out, l, r, i, j);
      out := out + [l[i]];
      i := i + 1;
    }
    while j < |r|
      invariant i == |l| && j <= |r|
      invariant Merging(out, l, r, i, j)
    {
      TakeRight(out, l, r, i, j);
      out := out + [r[j]];
      j := j + 1;
    }
    MergingEnds(out, l, r);
  }

  /** Read both chunks, merge them, write the result where the left one starts. */
  method MergeTwoSortedChunks(file: array<Record>, left: Chunk, right: Chunk,
                              ghost l: seq<Record>, ghost r: seq<Record>)
    requires RecordIndex(left.fileOffset) + left.records + right.records <= file.Length
    requires RecordIndex(right.fileOffset) + right.records <= file.Length
    requires l == file[RecordIndex(left.fileOffset)..RecordIndex(left.fileOffset) + left.records]
    requires r == file[RecordIndex(right.fileOffset)..RecordIndex(right.fileOffset) + right.records]
    modifies file
    ensures |Merge(l, r)| == left.records + right.records
    ensures file[..] == Splice(old(file[..]), RecordIndex(left.fileOffset), Merge(l, r))
  {
    hide Merge, RecordIndex, Splice;
    var lo, mid := RecordIndex(left.fileOffset), RecordIndex(right.fileOffset);
    var leftBuf, rightBuf := file[lo..lo + left.records], file[mid..mid + right.records];
    var out := MergeBuffers(leftBuf, rightBuf);
    MergePermutes(leftBuf, rightBuf);
    CopyBack(file, lo, out);
  }

  /** The two chunks of pair `p` as the program finds them in the file. */
  lemma PairInFile(data: seq<Record>, total: nat, runs: RunList, merged: set<nat>, p: nat)
    requires total <= |data| && data[..total] == Flatten(Pairs(runs, merged))
    requires p !in merged && 2 * p + 1 < |runs|
    ensures var lo, mid := Offset(runs, 2 * p), Offset(runs, 2 * p + 1);
            && mid == lo + |runs[2 * p]| && mid + |runs[2 * p + 1]| <= total
            && data[lo..mid] == runs[2 * p] && data[mid..mid + |runs[2 * p + 1]|] == runs[2 * p + 1]
  {
    var both := runs[2 * p] + runs[2 * p + 1];
    var lo, mid := Offset(runs, 2 * p), Offset(runs, 2 * p + 1);
    PairSlice(runs, merged, p);
    hide Pairs, Flatten, Merge;
    assert data[..total][lo..lo + |both|] == data[lo..lo + |both|];
    SliceOfSlice(data, lo, runs[2 * p], runs[2 * p + 1]);
  }

  /** Writing the merged pair back changes that pair only. */
  lemma MergedInFile(data: seq<Record>, total: nat, runs: RunList, merged: set<nat>, p: nat)
    requires total <= |data| && data[..total] == Flatten(Pairs(runs, merged))
    requires p !in merged && 2 * p + 1 < |runs|
    ensures var lo, tmp := Offset(runs, 2 * p), Merge(runs[2 * p], runs[2 * p + 1]);
            && lo + |tmp| <= total
            && Splice(data, lo, tmp)[..total] == Flatten(Pairs(runs, merged + {p}))
            && Splice(data, lo, tmp)[total..] == data[total..]
  {
    var lo, tmp := Offset(runs, 2 * p), Merge(runs[2 * p], runs[2 * p + 1]);
    MergePermutes(runs[2 * p], runs[2 * p + 1]);
    PairOffset(runs, merged, p);
    PairUnmerged(runs, merged, p);
    FlattenUpdate(Pairs(runs, merged), p, tmp);
    PairsAdd(runs, merged, p);
    SplicePrefix(data, total, lo, tmp);
  }

  /** One pass over the chunk table: merge each pair, compact the table behind it. */
  method MergePass(file: array<Record>, chunks: array<Chunk>, count: nat, ghost total: nat, ghost runs: RunList)
    returns (newCount: nat)
    requires count == |runs| && Describes(chunks[..], runs)
    requires total <= file.Length && file[..total] == Flatten(runs)
    modifies file, chunks
    ensures newCount == (count + 1) / 2
    ensures Describes(chunks[..], Pairs(runs, FirstPairs(count / 2)))
    ensures file[..total] == Flatten(Pairs(runs, FirstPairs(count / 2)))
    ensures file[total..] == old(file[total..])
  {
    hide Offset, Pairs, Flatten, BytePosition, RecordIndex, Merge;
    ghost var goal := Pairs(runs, FirstPairs(count / 2));
    ghost var before := chunks[..];
    PairsFlat(runs);
    newCount := 0;
    var i := 0;
    while i < count
      invariant i == 2 * newCount && newCount <= (count + 1) / 2
      invariant forall k :: 0 <= k < newCount ==> chunks[k] == Chunk(BytePosition(Offset(goal, k)), |goal[k]|)
      invariant forall k :: newCount <= k < chunks.Length ==> chunks[k] == before[k]
      invariant file[..total] == Flatten(Pairs(runs, FirstPairs(if i <= count then newCount else count / 2)))
      invariant file[total..] == old(file[total..])
    {
      GoalEntry(before, runs, newCount);
      if i + 1 < count {
        MergeEntry(file, chunks, i, total, runs);
        chunks[newCount] := Chunk(chunks[i].fileOffset, chunks[i].records + chunks[i + 1].records);
      } else {
        chunks[newCount] := chunks[i];
      }
      newCount := newCount + 1;
      i := i + 2;
    }
    assert Pairs(runs, FirstPairs(if i <= count then newCount else count / 2)) == goal;
  }

  /** What the entry of pair `p` has to become. */
  lemma GoalEntry(chunks: seq<Chunk>, runs: RunList, p: nat)
    requires Describes(chunks, runs) && 2 * p < |runs|
    ensures var goal := Pairs(runs, FirstPairs(|runs| / 2));
            Chunk(BytePosition(Offset(goal, p)), |goal[p]|) ==
               if 2 * p + 1 < |runs|
               then Chunk(chunks[2 * p].fileOffset, chunks[2 * p].records + chunks[2 * p + 1].records)
               else chunks[2 * p]
  {
    hide Offset, BytePosition, FirstPairs, Merge, Pairs;
    var merged := FirstPairs(|runs| / 2);
    PairOffset(runs, merged, p);
    PairSize(runs, merged, p);
    assert chunks[2 * p] == Chunk(BytePosition(Offset(runs, 2 * p)), |runs[2 * p]|);
  }

  /** The pass at work on the pair whose left chunk is entry `i`. */
  method MergeEntry(file: array<Record>, chunks: array<Chunk>, i: nat, ghost total: nat, ghost runs: RunList)
    requires i % 2 == 0 && i + 1 < |runs| <= chunks.Length
    requires forall k :: i <= k <= i + 1 ==> chunks[k] == Chunk(BytePosition(Offset(runs, k)), |runs[k]|)
    requires total <= file.Length && file[..total] == Flatten(Pairs(runs, FirstPairs(i / 2)))
    modifies file
    ensures file[..total] == Flatten(Pairs(runs, FirstPairs(i / 2 + 1)))
    ensures file[total..] == old(file[total..])
  {
    hide Offset, Pairs, Flatten, Merge;
    ghost var p := i / 2;
    assert FirstPairs(p + 1) == FirstPairs(p) + {p};
    PairInFile(file[..], total, runs, FirstPairs(p), p);
    MergedInFile(file[..], total, runs, FirstPairs(p), p);
    PositionIndex(Offset(runs, i));
    PositionIndex(Offset(runs, i + 1));
    assert chunks[i].records == |runs[i]| && chunks[i + 1].records == |runs[i + 1]|;
    hide RecordIndex, BytePosition, FirstPairs, Splice;
    MergeTwoSortedChunks(file, chunks[i], chunks[i + 1], runs[i], runs[i + 1]);
  }

  lemma LastRun(runs: RunList, threads: nat)
    requires |runs| <= 1
    ensures Rounds(runs, threads) == Flatten(runs)
  {
    if |runs| == 1 {
      assert Flatten(runs) == runs[0] + Flatten([]);
    }
  }

  /** Merge all chunks into one. */
  method MergeSortedChunks(file: array<Record>, chunks: array<Chunk>, count: nat, ghost total: nat, ghost runs: RunList)
    requires count == |runs| && Describes(chunks[..], runs)
    requires total <= file.Length && file[..total] == Flatten(runs)
    modifies file, chunks
    ensures file[..total] == Rounds(runs, count)
    ensures file[total..] == old(file[total..])
    ensures Permutation(file[..total], old(file[..total]))
    ensures AllSorted(runs) ==> Sorted(file[..total]) && StablyRearranged(file[..total], old(file[..total]))
  {
    hide Offset, Pairs, Flatten, Merge, Sorted, WithKey, Describes, AllSorted;
    ghost var now := runs;
    var left := count;
    while left > 1
      invariant left == |now| <= count && (left == 0 ==> count == 0)
      invariant Describes(chunks[..], now) && file[..total] == Flatten(now)
      invariant file[total..] == old(file[total..])
      invariant Rounds(now, count) == Rounds(runs, count)
    {
      left := MergePass(file, chunks, left, total, now);
      assert FirstPairs(|now| / 2) == FirstPairs(MergedPairs(|now|, count));
      now := Round(now, count);
    }
    assert file[..total] == Rounds(runs, count) by {
      LastRun(now, count);
    }
    RoundsPermute(runs, count);
    if AllSorted(runs) {
      RoundsSort(runs, count);
      forall k: real
        ensures WithKey(Rounds(runs, count), k) == WithKey(Flatten(runs), k)
      {
        RoundsStable(runs, count, k);
      }
    }
  }
}
