/** Command-line checks and the arithmetic of the chunking loop. */
module Chunking {
  import opened Arithmetic
  import opened Records
  import opened Runs
  import opened ChunkMerge

  /** Bitwise `a & b`. */
  function BitAnd(a: nat, b: nat): nat {
    if a == 0 || b == 0 then 0
    else 2 * BitAnd(a / 2, b / 2) + if a % 2 == 1 && b % 2 == 1 then 1 else 0
  }

  /** Bitwise `a & ~b`. */
  function BitClear(a: nat, b: nat): nat {
    if a == 0 then 0
    else 2 * BitClear(a / 2, b / 2) + if a % 2 == 1 && b % 2 == 0 then 1 else 0
  }

  predicate IsPowerOfTwo(x: int) {
    x > 0 && BitAnd(x, x - 1) == 0
  }

  lemma {:induction false} BitAndSelf(x: nat)
    ensures BitAnd(x, x) == x
  {
    if x > 0 {
      BitAndSelf(x / 2);
    }
  }

  /** The bit trick accepts exactly the powers of two. */
  lemma {:induction false} PowerOfTwoIff(x: int)
    ensures IsPowerOfTwo(x) <==> exists k: nat :: x == Power2(k)
    decreases if x < 0 then 0 else x
  {
    if x <= 0 {
      forall k: nat ensures x != Power2(k) { RoundCountOfPower(k); }
    } else if x == 1 {
      assert x == Power2(0);
    } else if x % 2 == 1 {
      assert (x - 1) / 2 == x / 2;
      BitAndSelf(x / 2);
      forall k: nat ensures x != Power2(k) { assert k > 0 ==> Power2(k) == 2 * Power2(k - 1); }
    } else {
      assert (x - 1) / 2 == x / 2 - 1;
      PowerOfTwoIff(x / 2);
      if k: nat :| x / 2 == Power2(k) {
        assert x == Power2(k + 1);
      }
      if k: nat :| x == Power2(k) {
        assert k > 0;
        assert Power2(k) == 2 * Power2(k - 1);
        assert x / 2 == Power2(k - 1);
      }
    }
  }

  predicate Accepts(memsize: nat, blocks: int, threads: int, pageSize: nat)
    requires pageSize > 0
  {
    && memsize != 0 && memsize % pageSize == 0
    && IsPowerOfTwo(blocks)
    && threads > 0
    && blocks >= 4 * threads
  }

  /** Accepted are a positive number of whole pages, a power of two of blocks, and at least
      one thread with at least four blocks for each. */
  lemma AcceptsIff(memsize: nat, blocks: int, threads: int, pageSize: nat)
    requires pageSize > 0
    ensures Accepts(memsize, blocks, threads, pageSize) <==>
      && (exists pages: nat :: pages > 0 && memsize == pages * pageSize)
      && (exists k: nat :: blocks == Power2(k))
      && 1 <= threads && threads + threads + threads + threads <= blocks
  {
    PowerOfTwoIff(blocks);
    if memsize % pageSize == 0 && memsize > 0 {
      var pages := memsize / pageSize;
      assert memsize == pages * pageSize && pages > 0;
    }
    if pages: nat :| pages > 0 && memsize == pages * pageSize {
      DivModUnique(memsize, pageSize, pages, 0);
      AtLeast(pages, pageSize);
    }
  }

  /** One page, four blocks and one thread are accepted; two threads are not. */
  lemma AcceptedExample()
    ensures Accepts(4096, 4, 1, 4096) && !Accepts(4096, 4, 2, 4096)
    ensures !Accepts(4096, 6, 1, 4096) && !Accepts(4097, 4, 1, 4096) && !Accepts(0, 4, 1, 4096)
  {
    assert BitAnd(4, 3) == 0;
    assert BitAnd(6, 5) != 0;
  }

  lemma {:induction false} ClearNothing(x: nat)
    ensures BitClear(x, 0) == x
  {
    if x > 0 {
      ClearNothing(x / 2);
    }
  }

  lemma ClearOdd(x: nat, half: nat)
    requires half > 0
    ensures BitClear(x, 2 * half - 1) == 2 * BitClear(x / 2, half - 1)
  {
    DivModUnique(2 * half - 1, 2, half - 1, 1);
  }

  /** Masking with a page size minus one rounds down to a whole page. */
  lemma {:induction false} MaskRoundsDown(x: nat, k: nat)
    ensures Power2(k) > 0
    ensures BitClear(x, Power2(k) - 1) == x - x % Power2(k)
    decreases k
  {
    RoundCountOfPower(k);
    if k == 0 {
      ClearNothing(x);
    } else {
      hide BitClear;
      var half := Power2(k - 1);
      MaskRoundsDown(x / 2, k - 1);
      ClearOdd(x, half);
      ModTwice(x, half);
      assert x == 2 * (x / 2) + x % 2;
    }
  }

  /** The chunks main maps one after the other. */
  function Chunks(data: seq<Record>, capacity: nat): RunList
    requires capacity > 0
    decreases |data|
  {
    if data == [] then []
    else if |data| <= capacity then [data]
    else [data[..capacity]] + Chunks(data[capacity..], capacity)
  }

  /** The chunks tile the data: nothing is lost, repeated or moved. */
  lemma {:induction false} ChunksFlat(data: seq<Record>, capacity: nat)
    requires capacity > 0
    ensures Flatten(Chunks(data, capacity)) == data
    decreases |data|
  {
    if |data| > capacity {
      ChunksFlat(data[capacity..], capacity);
      assert data == data[..capacity] + data[capacity..];
    } else if data != [] {
      assert Flatten([data]) == data + Flatten([]);
    }
  }

  /** All chunks are full except perhaps the last, which is not empty. */
  lemma {:induction false} ChunkSizes(data: seq<Record>, capacity: nat, i: nat)
    requires capacity > 0 && i < |Chunks(data, capacity)|
    ensures capacity * i < |data|
    ensures |Chunks(data, capacity)[i]| == if capacity * (i + 1) <= |data| then capacity else |data| - capacity * i
    decreases |data|
  {
    if i > 0 {
      ChunkSizes(data[capacity..], capacity, i - 1);
      assert capacity * i == capacity * (i - 1) + capacity;
      assert capacity * (i + 1) == capacity * i + capacity;
    }
  }

  /** The loop makes exactly as many chunks as it reserved entries for. */
  lemma {:induction false} ChunkCount(data: seq<Record>, capacity: nat)
    requires capacity > 0
    ensures |Chunks(data, capacity)| == (|data| + capacity - 1) / capacity
    decreases |data|
  {
    var count := |Chunks(data, capacity)|;
    if data != [] {
      ChunkSizes(data, capacity, count - 1);
      assert capacity * (count - 1) == capacity * count - capacity;
    }
    ChunksReachEnd(data, capacity);
    CeilUnique(|data|, capacity, count);
  }

  lemma {:induction false} ChunksReachEnd(data: seq<Record>, capacity: nat)
    requires capacity > 0
    ensures |data| <= capacity * |Chunks(data, capacity)|
    decreases |data|
  {
    if |data| > capacity {
      ChunksReachEnd(data[capacity..], capacity);
      assert capacity * |Chunks(data, capacity)| == capacity + capacity * (|Chunks(data, capacity)| - 1);
    }
  }

  /** The window of the file that main maps for a chunk. */
  datatype Window = Window(mapOffset: nat, delta: nat, mapLength: nat)

  /** The window starts on a page, as late as possible, and covers exactly the gap up to
      the chunk plus the chunk. */
  predicate Covers(w: Window, chunk: Chunk, pageSize: nat)
    requires pageSize > 0
  {
    && w.mapOffset % pageSize == 0
    && w.mapOffset <= chunk.fileOffset < w.mapOffset + pageSize
    && w.mapOffset + w.delta == chunk.fileOffset
    && w.mapOffset + w.mapLength == chunk.fileOffset + chunk.records * RECORD_BYTES
  }

  /** Chunk number `i` in closed form. */
  function ChunkAt(records: nat, capacity: nat, i: nat): Chunk {
    var start := capacity * i;
    Chunk(BytePosition(start), if start + capacity <= records then capacity
                               else if start <= records then records - start else 0)
  }

  method WindowFor(chunk: Chunk, pageSize: nat, ghost k: nat) returns (w: Window)
    requires pageSize == Power2(k) && pageSize > 0
    ensures Covers(w, chunk, pageSize)
  {
    hide BitClear, Power2;
    var chunkDataBytes := chunk.records * RECORD_BYTES;
    var mapOffset := BitClear(chunk.fileOffset, pageSize - 1);
    MaskRoundsDown(chunk.fileOffset, k);
    RoundDown(chunk.fileOffset, pageSize);
    var delta := chunk.fileOffset - mapOffset;
    w := Window(mapOffset, delta, delta + chunkDataBytes);
  }

  /** The chunking loop of main, without the sorting. */
  method PlanChunks(records: nat, recordsPerChunk: nat, pageSize: nat, ghost k: nat)
    returns (chunks: seq<Chunk>, windows: seq<Window>)
    requires recordsPerChunk > 0 && pageSize == Power2(k) && pageSize > 0
    ensures |windows| == |chunks| == (records + recordsPerChunk - 1) / recordsPerChunk
    ensures forall data: seq<Record> :: |data| == records ==> Describes(chunks, Chunks(data, recordsPerChunk))
    ensures forall i :: 0 <= i < |chunks| ==> Covers(windows[i], chunks[i], pageSize)
  {
    hide Chunks, Power2, Describes, Covers;
    chunks, windows := [], [];
    var processed := 0;
    while processed < records
      invariant processed <= records && |windows| == |chunks|
      invariant recordsPerChunk * |chunks| - recordsPerChunk < processed <= recordsPerChunk * |chunks|
      invariant processed < records ==> processed == recordsPerChunk * |chunks|
      invariant forall i :: 0 <= i < |chunks| ==> chunks[i] == ChunkAt(records, recordsPerChunk, i)
      invariant forall i :: 0 <= i < |chunks| ==> Covers(windows[i], chunks[i], pageSize)
    {
      var chunkRecords := records - processed;
      if chunkRecords > recordsPerChunk {
        chunkRecords := recordsPerChunk;
      }
      var chunk := Chunk(HEADER_BYTES + processed * RECORD_BYTES, chunkRecords);
      var w := WindowFor(chunk, pageSize, k);
      assert recordsPerChunk * (|chunks| + 1) == recordsPerChunk * |chunks| + recordsPerChunk;
      chunks, windows := chunks + [chunk], windows + [w];
      processed := processed + chunkRecords;
    }
    CeilUnique(records, recordsPerChunk, |chunks|);
    forall data: seq<Record> | |data| == records
      ensures Describes(chunks, Chunks(data, recordsPerChunk))
    {
      ChunkAtDescribes(data, recordsPerChunk, chunks);
    }
  }

  lemma {:induction false} ChunkStarts(data: seq<Record>, capacity: nat, i: nat)
    requires capacity > 0 && i < |Chunks(data, capacity)|
    ensures Offset(Chunks(data, capacity), i) == capacity * i
    decreases i
  {
    if i > 0 {
      ChunkStarts(data, capacity, i - 1);
      ChunkSizes(data, capacity, i - 1);
      ChunkSizes(data, capacity, i);
      assert capacity * i == capacity * (i - 1) + capacity;
    }
  }

  lemma ChunkAtDescribes(data: seq<Record>, capacity: nat, chunks: seq<Chunk>)
    requires capacity > 0 && |chunks| == (|data| + capacity - 1) / capacity
    requires forall i :: 0 <= i < |chunks| ==> chunks[i] == ChunkAt(|data|, capacity, i)
    ensures Describes(chunks, Chunks(data, capacity))
  {
    var runs := Chunks(data, capacity);
    ChunkCount(data, capacity);
    forall i | 0 <= i < |runs|
      ensures chunks[i] == Chunk(BytePosition(Offset(runs, i)), |runs[i]|)
    {
      ChunkStarts(data, capacity, i);
      ChunkSizes(data, capacity, i);
      assert capacity * (i + 1) == capacity * i + capacity;
    }
  }
}
