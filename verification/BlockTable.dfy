/** The table of blocks of one chunk: how it is laid out, claimed from and compacted. */
module BlockTable {
  import opened Records
  import opened Runs

  /** `state` is 0 for free, 1 for busy and 2 for done. */
  datatype Block = Block(state: nat, offset: nat, size: nat)

  const FREE := 0
  const BUSY := 1
  const DONE := 2

  function BlockSize(n: nat, blocks: nat, i: nat): nat
    requires blocks > 0
  {
    n / blocks + if i < n % blocks then 1 else 0
  }

  function BlockOffset(n: nat, blocks: nat, i: nat): nat
    requires blocks > 0
  {
    if i == 0 then 0 else BlockOffset(n, blocks, i - 1) + BlockSize(n, blocks, i - 1)
  }

  lemma {:induction false} BlockOffsetClosed(n: nat, blocks: nat, i: nat)
    requires blocks > 0
    ensures BlockOffset(n, blocks, i) == i * (n / blocks) + if i < n % blocks then i else n % blocks
  {
    if i > 0 {
      BlockOffsetClosed(n, blocks, i - 1);
      assert i * (n / blocks) == (i - 1) * (n / blocks) + n / blocks;
    }
  }

  lemma {:induction false} BlockOffsetMonotone(n: nat, blocks: nat, i: nat, j: nat)
    requires blocks > 0 && i <= j
    ensures BlockOffset(n, blocks, i) <= BlockOffset(n, blocks, j)
  {
    if i < j {
      BlockOffsetMonotone(n, blocks, i, j - 1);
    }
  }

  /** The last block ends where the chunk ends. */
  lemma BlocksEndAtEnd(n: nat, blocks: nat)
    requires blocks > 0
    ensures BlockOffset(n, blocks, blocks) == n
  {
    BlockOffsetClosed(n, blocks, blocks);
  }

  function InitTable(n: nat, blocks: nat): seq<Block>
    requires blocks > 0
  {
    seq(blocks, i requires 0 <= i < blocks =>
      Block(FREE, BlockOffset(n, blocks, i), BlockSize(n, blocks, i)))
  }

  function Slice(data: seq<Record>, blocks: nat, i: nat): (block: seq<Record>)
    requires i < blocks
    ensures |block| == BlockSize(|data|, blocks, i)
  {
    BlockOffsetMonotone(|data|, blocks, i + 1, blocks);
    BlocksEndAtEnd(|data|, blocks);
    data[BlockOffset(|data|, blocks, i)..BlockOffset(|data|, blocks, i + 1)]
  }

  /** The contents of the blocks a chunk is cut into. */
  function Blocks(data: seq<Record>, blocks: nat): (runs: RunList)
    ensures |runs| == blocks
  {
    seq(blocks, i requires 0 <= i < blocks => Slice(data, blocks, i))
  }

  lemma {:induction false} BlocksOffset(data: seq<Record>, blocks: nat, i: nat)
    requires i <= blocks && blocks > 0
    ensures Offset(Blocks(data, blocks), i) == BlockOffset(|data|, blocks, i)
  {
    if i > 0 {
      BlocksOffset(data, blocks, i - 1);
    }
  }

  /** The blocks tile the chunk: laid end to end they are the chunk. */
  lemma {:induction false} BlocksFlat(data: seq<Record>, blocks: nat, i: nat)
    requires i <= blocks && blocks > 0
    ensures BlockOffset(|data|, blocks, i) <= |data|
    ensures Flatten(Blocks(data, blocks)[..i]) == data[..BlockOffset(|data|, blocks, i)]
    ensures i == blocks ==> Flatten(Blocks(data, blocks)) == data
  {
    BlockOffsetMonotone(|data|, blocks, i, blocks);
    BlocksEndAtEnd(|data|, blocks);
    if i > 0 {
      BlocksFlat(data, blocks, i - 1);
      var runs := Blocks(data, blocks);
      assert runs[..i] == runs[..i - 1] + [runs[i - 1]];
      FlattenAppend(runs[..i - 1], [runs[i - 1]]);
      assert Flatten([runs[i - 1]]) == runs[i - 1] + Flatten([]);
    }
    if i == blocks {
      assert Blocks(data, blocks)[..i] == Blocks(data, blocks);
    }
  }

  /** With at least one record per block no block is empty, and sizes differ by at most one. */
  lemma BlocksBalanced(n: nat, blocks: nat, i: nat, j: nat)
    requires 0 < blocks <= n && i < blocks && j < blocks
    ensures BlockSize(n, blocks, i) >= 1
    ensures BlockSize(n, blocks, i) <= BlockSize(n, blocks, j) + 1
  {
    assert n == blocks * (n / blocks) + n % blocks;
  }

  /** The first entries of the table describe `runs`, laid end to end. */
  predicate Fits(table: seq<Block>, runs: RunList) {
    && |runs| <= |table|
    && forall i :: 0 <= i < |runs| ==>
         table[i].offset == Offset(runs, i) && table[i].size == |runs[i]|
  }

  lemma InitFits(data: seq<Record>, blocks: nat)
    requires blocks > 0
    ensures Fits(InitTable(|data|, blocks), Blocks(data, blocks))
  {
    var table, runs := InitTable(|data|, blocks), Blocks(data, blocks);
    forall i | 0 <= i < blocks
      ensures table[i].offset == Offset(runs, i) && table[i].size == |runs[i]|
    {
      BlocksOffset(data, blocks, i);
      BlockOffsetMonotone(|data|, blocks, i + 1, blocks);
      BlocksEndAtEnd(|data|, blocks);
    }
  }

  /** Entry `p` takes over entries `2p` and `2p+1`; entries past the new count are stale. */
  function Compact(table: seq<Block>, active: nat): (next: seq<Block>)
    requires active <= |table|
    ensures |next| == |table|
  {
    seq(|table|, p requires 0 <= p < |table| =>
      if p >= (active + 1) / 2 then table[p]
      else if 2 * p + 1 < active then Block(FREE, table[2 * p].offset, table[2 * p].size + table[2 * p + 1].size)
      else table[2 * p])
  }

  lemma CompactEntry(table: seq<Block>, active: nat, p: nat)
    requires 2 * p < active <= |table|
    ensures Compact(table, active)[p] ==
            if 2 * p + 1 < active then Block(FREE, table[2 * p].offset, table[2 * p].size + table[2 * p + 1].size)
            else table[2 * p]
  {
  }

  lemma CompactStale(table: seq<Block>, active: nat)
    requires active <= |table|
    ensures forall p :: (active + 1) / 2 <= p < |table| ==> Compact(table, active)[p] == table[p]
  {
  }

  /** Compaction keeps the table a contiguous tiling, whichever pairs were merged. */
  lemma CompactFits(table: seq<Block>, runs: RunList, merged: set<nat>)
    requires Fits(table, runs)
    ensures Fits(Compact(table, |runs|), Pairs(runs, merged))
    ensures Offset(Pairs(runs, merged), (|runs| + 1) / 2) == Offset(runs, |runs|)
  {
    var next, paired := Compact(table, |runs|), Pairs(runs, merged);
    forall p | 0 <= p < |paired|
      ensures next[p].offset == Offset(paired, p) && next[p].size == |paired[p]|
    {
      PairOffset(runs, merged, p);
      PairPermutes(runs, merged, p);
    }
    PairsPermute(runs, merged);
    FlattenLength(runs);
    FlattenLength(paired);
    PermutationMembers(Flatten(paired), Flatten(runs));
  }

  /** The least free entry below `limit`, or -1. */
  function FirstFree(table: seq<Block>, limit: nat): (r: int)
    requires limit <= |table|
    ensures -1 <= r < limit
    ensures r >= 0 ==> table[r].state == FREE
    ensures forall i :: 0 <= i < limit && (r < 0 || i < r) ==> table[i].state != FREE
  {
    if limit == 0 then -1
    else
      var r := FirstFree(table, limit - 1);
      if r >= 0 then r
      else if table[limit - 1].state == FREE then limit - 1
      else -1
  }

  lemma {:induction false} FirstFreeUnique(table: seq<Block>, limit: nat, k: nat)
    requires k < limit <= |table| && table[k].state == FREE
    requires forall i :: 0 <= i < k ==> table[i].state != FREE
    ensures FirstFree(table, limit) == k
  {
    if k < limit - 1 {
      FirstFreeUnique(table, limit - 1, k);
    }
  }

  function SetState(table: seq<Block>, i: nat, state: nat): (next: seq<Block>)
    requires i < |table|
    ensures |next| == |table|
  {
    table[i := table[i].(state := state)]
  }

  function FreeFirst(table: seq<Block>, k: nat): (next: seq<Block>)
    requires k <= |table|
    ensures |next| == |table|
  {
    seq(|table|, i requires 0 <= i < |table| => if i < k then table[i].(state := FREE) else table[i])
  }

  /** Changing states leaves the layout alone. */
  lemma StatesDontMatter(table: seq<Block>, runs: RunList, i: nat, state: nat, k: nat)
    requires Fits(table, runs) && i < |table| && k <= |table|
    ensures Fits(SetState(table, i, state), runs)
    ensures Fits(FreeFirst(table, k), runs)
  {
  }

  /** The part of the shared context that describes the current chunk. */
  class SortContext {
    const blocks: nat
    const blockMap: array<Block>
    var chunkRecords: nat
    var activeBlocks: nat

    ghost predicate Valid()
      reads this
    {
      blockMap.Length == blocks && blocks > 0 && activeBlocks <= blocks
    }

    constructor (blocks: nat)
      requires blocks > 0
      ensures Valid() && this.blocks == blocks && activeBlocks == 0 && fresh(blockMap)
    {
      this.blocks := blocks;
      blockMap := new Block[blocks](i => Block(FREE, 0, 0));
      chunkRecords, activeBlocks := 0, 0;
    }

    /** Lay the blocks out over the chunk; `false` is the program giving up on a chunk
        with fewer records than blocks. */
    method InitBlockMap() returns (ok: bool)
      requires Valid()
      modifies this`activeBlocks, blockMap
      ensures Valid()
      ensures ok <==> chunkRecords == 0 || chunkRecords >= blocks
      ensures chunkRecords == 0 ==> activeBlocks == 0 && blockMap[..] == old(blockMap[..])
      ensures chunkRecords >= blocks ==> activeBlocks == blocks && blockMap[..] == InitTable(chunkRecords, blocks)
      ensures !ok ==> activeBlocks == old(activeBlocks) && blockMap[..] == old(blockMap[..])
    {
      if chunkRecords == 0 {
        activeBlocks := 0;
        return true;
      }
      var baseBlockSize := chunkRecords / blocks;
      var remainder := chunkRecords % blocks;
      assert chunkRecords == blocks * baseBlockSize + remainder;
      if baseBlockSize == 0 {
        return false;
      }
      assert blocks * baseBlockSize >= blocks;
      var offset := 0;
      for i := 0 to blocks
        invariant offset == BlockOffset(chunkRecords, blocks, i)
        invariant forall k :: 0 <= k < i ==> blockMap[k] == InitTable(chunkRecords, blocks)[k]
      {
        var size := baseBlockSize + if i < remainder then 1 else 0;
        blockMap[i] := Block(FREE, offset, size);
        offset := offset + size;
      }
      activeBlocks := blocks;
      assert blockMap[..] == InitTable(chunkRecords, blocks);
      return true;
    }

    /** The body of the mutex section: take the first free entry below `limit`. */
    method Claim(limit: nat) returns (result: int)
      requires Valid() && limit <= blocks
      modifies blockMap
      ensures result == FirstFree(old(blockMap[..]), limit)
      ensures blockMap[..] == if result < 0 then old(blockMap[..]) else SetState(old(blockMap[..]), result, BUSY)
    {
      result := -1;
      var i := 0;
      while i < limit
        invariant 0 <= i <= limit
        invariant blockMap[..] == old(blockMap[..])
        invariant forall k :: 0 <= k < i ==> blockMap[..][k].state != FREE
      {
        if blockMap[i].state == FREE {
          FirstFreeUnique(blockMap[..], limit, i);
          blockMap[i] := Block(BUSY, blockMap[i].offset, blockMap[i].size);
          return i;
        }
        i := i + 1;
      }
    }

    method GetFreeBlockForSort() returns (result: int)
      requires Valid()
      modifies blockMap
      ensures result == FirstFree(old(blockMap[..]), activeBlocks)
      ensures blockMap[..] == if result < 0 then old(blockMap[..]) else SetState(old(blockMap[..]), result, BUSY)
    {
      result := Claim(activeBlocks);
    }

    method GetFreePairForMerge(pairCount: nat) returns (result: int)
      requires Valid() && pairCount <= blocks
      modifies blockMap
      ensures result == FirstFree(old(blockMap[..]), pairCount)
      ensures blockMap[..] == if result < 0 then old(blockMap[..]) else SetState(old(blockMap[..]), result, BUSY)
    {
      result := Claim(pairCount);
    }

    /** Worker 0 before a late round: every pair is up for grabs. */
    method ResetPairs(pairCount: nat)
      requires Valid() && pairCount <= blocks
      modifies blockMap
      ensures blockMap[..] == FreeFirst(old(blockMap[..]), pairCount)
    {
      for i := 0 to pairCount
        invariant forall k :: 0 <= k < i ==> blockMap[k] == old(blockMap[k]).(state := FREE)
        invariant forall k :: i <= k < blocks ==> blockMap[k] == old(blockMap[k])
      {
        blockMap[i] := Block(FREE, blockMap[i].offset, blockMap[i].size);
      }
    }

    /** Worker 0 after a round: compact the table in place. No entry is read after the
        loop has overwritten it. */
    method CompactTable()
      requires Valid()
      modifies this`activeBlocks, blockMap
      ensures Valid()
      ensures blockMap[..] == Compact(old(blockMap[..]), old(activeBlocks))
      ensures activeBlocks == (old(activeBlocks) + 1) / 2
    {
      hide Compact;
      var active := activeBlocks;
      ghost var before := blockMap[..];
      ghost var goal := Compact(before, active);
      var newActive, i := 0, 0;
      while i < active
        invariant i == 2 * newActive && newActive <= (active + 1) / 2
        invariant forall k :: 0 <= k < newActive ==> blockMap[k] == goal[k]
        invariant forall k :: newActive <= k < blocks ==> blockMap[k] == before[k]
      {
        CompactEntry(before, active, newActive);
        if i + 1 < active {
          blockMap[newActive] := Block(FREE, blockMap[i].offset, blockMap[i].size + blockMap[i + 1].size);
        } else {
          blockMap[newActive] := blockMap[i];
        }
        newActive := newActive + 1;
        i := i + 2;
      }
      activeBlocks := newActive;
      CompactStale(before, active);
      assert blockMap[..] == goal;
    }
  }
}
