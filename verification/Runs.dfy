/** Runs of records laid end to end, and the merge rounds as a sequential function. */
module Runs {
  import opened Records
  import opened RunMerging

  type RunList = seq<seq<Record>>

  function Flatten(runs: RunList): seq<Record> {
    if runs == [] then [] else runs[0] + Flatten(runs[1..])
  }

  /** Where run `i` starts in `Flatten(runs)`. */
  function Offset(runs: RunList, i: nat): nat
    requires i <= |runs|
  {
    if i == 0 then 0 else Offset(runs, i - 1) + |runs[i - 1]|
  }

  predicate AllSorted(runs: RunList) {
    forall i :: 0 <= i < |runs| ==> Sorted(runs[i])
  }

  lemma {:induction false} FlattenAppend(a: RunList, b: RunList)
    ensures Flatten(a + b) == Flatten(a) + Flatten(b)
  {
    if a == [] {
      assert a + b == b;
    } else {
      assert (a + b)[1..] == a[1..] + b;
      FlattenAppend(a[1..], b);
    }
  }

  lemma {:induction false} OffsetPrefix(a: RunList, b: RunList, i: nat)
    requires i <= |a| && i <= |b|
    requires forall j :: 0 <= j < i ==> |a[j]| == |b[j]|
    ensures Offset(a, i) == Offset(b, i)
  {
    if i > 0 {
      OffsetPrefix(a, b, i - 1);
    }
  }

  lemma {:induction false} FlattenLength(runs: RunList)
    ensures |Flatten(runs)| == Offset(runs, |runs|)
    decreases |runs|
  {
    if runs != [] {
      var init := runs[..|runs| - 1];
      var last := runs[|runs| - 1];
      assert runs == init + [last];
      FlattenAppend(init, [last]);
      assert Flatten([last]) == last + Flatten([]);
      FlattenLength(init);
      OffsetPrefix(init, runs, |init|);
    }
  }

  lemma FlattenSplit(runs: RunList, i: nat)
    requires i < |runs|
    ensures Flatten(runs) == Flatten(runs[..i]) + runs[i] + Flatten(runs[i + 1..])
    ensures |Flatten(runs[..i])| == Offset(runs, i)
  {
    assert runs == runs[..i] + runs[i..];
    FlattenAppend(runs[..i], runs[i..]);
    assert runs[i..][1..] == runs[i + 1..];
    FlattenLength(runs[..i]);
    OffsetPrefix(runs[..i], runs, i);
  }

  /** Run `i` is the slice of the flat sequence at its offset. */
  lemma FlattenSlice(runs: RunList, i: nat)
    requires i < |runs|
    ensures Offset(runs, i) + |runs[i]| <= |Flatten(runs)|
    ensures Flatten(runs)[Offset(runs, i)..Offset(runs, i) + |runs[i]|] == runs[i]
  {
    FlattenSplit(runs, i);
  }

  /** Replacing run `i` by another of the same length overwrites just its slice. */
  lemma FlattenUpdate(runs: RunList, i: nat, x: seq<Record>)
    requires i < |runs| && |x| == |runs[i]|
    ensures Offset(runs, i) + |x| <= |Flatten(runs)|
    ensures Flatten(runs[i := x]) == Splice(Flatten(runs), Offset(runs, i), x)
  {
    FlattenSplit(runs, i);
    assert runs[i := x][..i] == runs[..i];
    assert runs[i := x][i + 1..] == runs[i + 1..];
    FlattenSplit(runs[i := x], i);
    SpliceMiddle(Flatten(runs[..i]), runs[i], Flatten(runs[i + 1..]), x);
  }

  /** Different runs occupy disjoint slices. */
  lemma {:induction false} OffsetOrder(runs: RunList, i: nat, j: nat)
    requires i < j <= |runs|
    ensures Offset(runs, i) + |runs[i]| <= Offset(runs, j)
  {
    if i < j - 1 {
      OffsetOrder(runs, i, j - 1);
    }
  }

  lemma {:induction false} FlattenPermutes(a: RunList, b: RunList)
    requires |a| == |b|
    requires forall i :: 0 <= i < |a| ==> Permutation(a[i], b[i])
    ensures Permutation(Flatten(a), Flatten(b))
  {
    if a != [] {
      FlattenPermutes(a[1..], b[1..]);
    }
  }

  lemma {:induction false} FlattenWithKey(a: RunList, b: RunList, k: real)
    requires |a| == |b|
    requires forall i :: 0 <= i < |a| ==> WithKey(a[i], k) == WithKey(b[i], k)
    ensures WithKey(Flatten(a), k) == WithKey(Flatten(b), k)
  {
    if a != [] {
      FlattenWithKey(a[1..], b[1..], k);
      WithKeyAppend(a[0], Flatten(a[1..]), k);
      WithKeyAppend(b[0], Flatten(b[1..]), k);
    }
  }

  /** Adjacent runs paired up: the pairs in `merged` are merged, the others are only
      regarded as one run, and an odd last run is carried over. */
  function Pairs(runs: RunList, merged: set<nat>): (paired: RunList)
    ensures |paired| == (|runs| + 1) / 2
  {
    seq((|runs| + 1) / 2, p requires 0 <= p < (|runs| + 1) / 2 =>
      if 2 * p + 1 == |runs| then runs[2 * p]
      else if p in merged then Merge(runs[2 * p], runs[2 * p + 1])
      else runs[2 * p] + runs[2 * p + 1])
  }

  lemma PairUnmerged(runs: RunList, merged: set<nat>, p: nat)
    requires 2 * p + 1 < |runs| && p !in merged
    ensures Pairs(runs, merged)[p] == runs[2 * p] + runs[2 * p + 1]
  {
  }

  /** Merging one more pair changes that pair and no other. */
  lemma PairsAdd(runs: RunList, merged: set<nat>, p: nat)
    requires 2 * p + 1 < |runs|
    ensures Pairs(runs, merged)[p := Merge(runs[2 * p], runs[2 * p + 1])] == Pairs(runs, merged + {p})
  {
  }

  lemma {:induction false} PairsFlat(runs: RunList)
    ensures Flatten(Pairs(runs, {})) == Flatten(runs)
    decreases |runs|
  {
    if |runs| == 1 {
      assert Pairs(runs, {}) == runs;
    } else if |runs| >= 2 {
      var rest := runs[2..];
      PairsFlat(rest);
      var all, tail := Pairs(runs, {}), Pairs(rest, {});
      forall p | 1 <= p < |all|
        ensures all[p] == tail[p - 1]
      {
        assert rest[2 * (p - 1)] == runs[2 * p];
      }
      assert all[1..] == tail;
      assert Flatten(all) == all[0] + Flatten(tail);
      assert runs[1..][1..] == rest;
      assert Flatten(runs) == runs[0] + (runs[1] + Flatten(rest));
    }
  }

  /** Whatever pairs are merged, each pair holds the records it held. */
  lemma PairPermutes(runs: RunList, merged: set<nat>, p: nat)
    requires p < (|runs| + 1) / 2
    ensures Permutation(Pairs(runs, merged)[p], Pairs(runs, {})[p])
    ensures |Pairs(runs, merged)[p]| == |Pairs(runs, {})[p]|
  {
    if 2 * p + 1 < |runs| {
      MergePermutes(runs[2 * p], runs[2 * p + 1]);
    }
  }

  lemma PairsPermute(runs: RunList, merged: set<nat>)
    ensures Permutation(Flatten(Pairs(runs, merged)), Flatten(runs))
  {
    forall p | 0 <= p < (|runs| + 1) / 2
      ensures Permutation(Pairs(runs, merged)[p], Pairs(runs, {})[p])
    {
      PairPermutes(runs, merged, p);
    }
    FlattenPermutes(Pairs(runs, merged), Pairs(runs, {}));
    PairsFlat(runs);
  }

  lemma PairSize(runs: RunList, merged: set<nat>, p: nat)
    requires 2 * p < |runs|
    ensures |Pairs(runs, merged)[p]| == |runs[2 * p]| + if 2 * p + 1 < |runs| then |runs[2 * p + 1]| else 0
  {
    PairPermutes(runs, merged, p);
  }

  /** Pair `p` starts where its left run starts. */
  lemma {:induction false} PairOffset(runs: RunList, merged: set<nat>, p: nat)
    requires p <= |runs| / 2
    ensures Offset(Pairs(runs, merged), p) == Offset(runs, 2 * p)
  {
    hide Pairs, Merge;
    if p > 0 {
      PairOffset(runs, merged, p - 1);
      PairSize(runs, merged, p - 1);
      assert Offset(runs, 2 * p) == Offset(runs, 2 * p - 1) + |runs[2 * p - 1]|;
      assert Offset(runs, 2 * p - 1) == Offset(runs, 2 * p - 2) + |runs[2 * p - 2]|;
    }
  }

  /** A pair that is not merged yet is its two runs, starting where the left one starts. */
  lemma PairSlice(runs: RunList, merged: set<nat>, p: nat)
    requires p !in merged && 2 * p + 1 < |runs|
    ensures var lo, both, buf := Offset(runs, 2 * p), runs[2 * p] + runs[2 * p + 1], Flatten(Pairs(runs, merged));
            lo + |both| <= |buf| && buf[lo..lo + |both|] == both
  {
    FlattenSlice(Pairs(runs, merged), p);
    PairOffset(runs, merged, p);
    PairUnmerged(runs, merged, p);
  }

  /** How many pairs one round merges: an early round gives worker `t` pair `t` and no
      other, a late round hands out every pair. */
  function MergedPairs(active: nat, threads: nat): nat {
    if active / 2 >= threads then threads else active / 2
  }

  function FirstPairs(k: nat): (first: set<nat>)
    ensures forall p: nat :: p in first <==> p < k
  {
    if k == 0 then {} else FirstPairs(k - 1) + {k - 1}
  }

  function Round(runs: RunList, threads: nat): (next: RunList)
    ensures |next| == (|runs| + 1) / 2
  {
    Pairs(runs, FirstPairs(MergedPairs(|runs|, threads)))
  }

  /** All merge rounds, one after the other. */
  function Rounds(runs: RunList, threads: nat): seq<Record>
    decreases |runs|
  {
    if |runs| == 0 then []
    else if |runs| == 1 then runs[0]
    else Rounds(Round(runs, threads), threads)
  }

  function RoundCount(active: nat): nat {
    if active <= 1 then 0 else 1 + RoundCount((active + 1) / 2)
  }

  function Power2(k: nat): nat {
    if k == 0 then 1 else 2 * Power2(k - 1)
  }

  /** Ceil-halving a power of two ends after its logarithm many rounds. */
  lemma {:induction false} RoundCountOfPower(k: nat)
    ensures RoundCount(Power2(k)) == k
    ensures Power2(k) >= 1
  {
    if k > 0 {
      RoundCountOfPower(k - 1);
      assert (Power2(k) + 1) / 2 == Power2(k - 1);
    }
  }

  lemma NextRound(runs: RunList, threads: nat)
    requires |runs| >= 2
    ensures Rounds(runs, threads) == Rounds(Round(runs, threads), threads)
    ensures RoundCount(|runs|) == 1 + RoundCount(|Round(runs, threads)|)
  {
  }

  lemma {:induction false} RoundsPermute(runs: RunList, threads: nat)
    ensures Permutation(Rounds(runs, threads), Flatten(runs))
    decreases |runs|
  {
    if |runs| == 1 {
      assert Flatten(runs) == runs[0] + Flatten([]);
    } else if |runs| >= 2 {
      RoundsPermute(Round(runs, threads), threads);
      PairsPermute(runs, FirstPairs(MergedPairs(|runs|, threads)));
    }
  }

  /** If the first round has a worker for every pair, so have all later ones, and
      sorted runs end up as one sorted run. */
  lemma {:induction false} RoundsSort(runs: RunList, threads: nat)
    requires AllSorted(runs) && |runs| / 2 <= threads
    ensures Sorted(Rounds(runs, threads))
    decreases |runs|
  {
    if |runs| >= 2 {
      var next := Round(runs, threads);
      forall p | 0 <= p < |next|
        ensures Sorted(next[p])
      {
        if 2 * p + 1 < |runs| {
          assert p in FirstPairs(MergedPairs(|runs|, threads));
          MergeSortedIff(runs[2 * p], runs[2 * p + 1]);
        }
      }
      RoundsSort(next, threads);
    }
  }

  lemma SortedPairOnlyIf(runs: RunList, merged: set<nat>, i: nat)
    requires i < |runs| && Sorted(Pairs(runs, merged)[i / 2])
    ensures Sorted(runs[i])
  {
    var p := i / 2;
    if 2 * p + 1 < |runs| {
      if p in merged {
        MergeSortedIff(runs[2 * p], runs[2 * p + 1]);
      } else {
        SortedConcat(runs[2 * p], runs[2 * p + 1]);
      }
    }
  }

  /** Inversions survive: a sorted result needs sorted runs before every round. */
  lemma {:induction false} RoundsSortedOnlyIf(runs: RunList, threads: nat)
    requires Sorted(Rounds(runs, threads))
    ensures AllSorted(runs)
    ensures |runs| >= 2 ==> AllSorted(Round(runs, threads))
    decreases |runs|
  {
    if |runs| >= 2 {
      var next := Round(runs, threads);
      RoundsSortedOnlyIf(next, threads);
      forall i | 0 <= i < |runs|
        ensures Sorted(runs[i])
      {
        SortedPairOnlyIf(runs, FirstPairs(MergedPairs(|runs|, threads)), i);
      }
    }
  }

  lemma PairStable(runs: RunList, merged: set<nat>, p: nat, k: real)
    requires AllSorted(runs) && 2 * p < |runs| && (2 * p + 1 < |runs| ==> p in merged)
    ensures Sorted(Pairs(runs, merged)[p])
    ensures WithKey(Pairs(runs, merged)[p], k) == WithKey(Pairs(runs, {})[p], k)
  {
    hide Merge, WithKey, Sorted;
    if 2 * p + 1 < |runs| {
      MergeSortedIff(runs[2 * p], runs[2 * p + 1]);
      MergeStable(runs[2 * p], runs[2 * p + 1], k);
      WithKeyAppend(runs[2 * p], runs[2 * p + 1], k);
    }
  }

  /** Merging sorted runs keeps records with equal keys in their original order. */
  lemma {:induction false} RoundsStable(runs: RunList, threads: nat, k: real)
    requires AllSorted(runs) && |runs| / 2 <= threads
    ensures WithKey(Rounds(runs, threads), k) == WithKey(Flatten(runs), k)
    decreases |runs|
  {
    if |runs| == 1 {
      assert Flatten(runs) == runs[0] + Flatten([]);
      assert Flatten(runs) == runs[0];
    } else if |runs| >= 2 {
      var next := Round(runs, threads);
      forall p | 0 <= p < |next|
        ensures Sorted(next[p]) && WithKey(next[p], k) == WithKey(Pairs(runs, {})[p], k)
      {
        PairStable(runs, FirstPairs(MergedPairs(|runs|, threads)), p, k);
      }
      RoundsStable(next, threads, k);
      FlattenWithKey(next, Pairs(runs, {}), k);
      PairsFlat(runs);
    }
  }
}
