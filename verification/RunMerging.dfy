/** The two-run merge, once as a function on sequences and once as the program's
    array algorithm, with what it does to order, contents and equal keys. */
module RunMerging {
  import opened Records

  /** Ties are taken from the left run. */
  function Merge(l: seq<Record>, r: seq<Record>): seq<Record>
    decreases |l| + |r|
  {
    if l == [] then r
    else if r == [] then l
    else if l[0].timeMark <= r[0].timeMark then [l[0]] + Merge(l[1..], r)
    else [r[0]] + Merge(l, r[1..])
  }

  lemma {:induction false} MergePermutes(l: seq<Record>, r: seq<Record>)
    ensures Permutation(Merge(l, r), l + r)
    ensures |Merge(l, r)| == |l| + |r|
    ensures forall x :: x in Merge(l, r) <==> x in l || x in r
    decreases |l| + |r|
  {
    if l == [] {
      assert l + r == r;
    } else if r == [] {
      assert l + r == l;
    } else if l[0].timeMark <= r[0].timeMark {
      MergePermutes(l[1..], r);
      assert l + r == [l[0]] + (l[1..] + r);
    } else {
      MergePermutes(l, r[1..]);
      assert multiset(l + r) == multiset(l) + multiset(r);
      assert r == [r[0]] + r[1..];
    }
    PermutationMembers(Merge(l, r), l + r);
  }

  /** No record of `s` has a key below that of `x`. */
  predicate Below(x: Record, s: seq<Record>) {
    forall y :: y in s ==> x.timeMark <= y.timeMark
  }

  lemma SortedHead(s: seq<Record>)
    requires s != []
    ensures Sorted(s) <==> Sorted(s[1..]) && Below(s[0], s[1..])
    ensures Sorted(s) ==> Below(s[0], s)
  {
    assert s == [s[0]] + s[1..];
    SortedConcat([s[0]], s[1..]);
  }

  lemma BelowMerge(x: Record, l: seq<Record>, r: seq<Record>)
    ensures Below(x, Merge(l, r)) <==> Below(x, l) && Below(x, r)
  {
    MergePermutes(l, r);
  }

  lemma BelowSmaller(x: Record, y: Record, s: seq<Record>)
    requires x.timeMark <= y.timeMark && Below(y, s)
    ensures Below(x, s)
  {
  }

  /** A merge can neither create order out of disordered runs nor destroy it: its
      result is sorted exactly when both runs were. */
  lemma {:induction false} MergeSortedIff(l: seq<Record>, r: seq<Record>)
    ensures Sorted(Merge(l, r)) <==> Sorted(l) && Sorted(r)
    decreases |l| + |r|
  {
    if l != [] && r != [] {
      var m := Merge(l, r);
      SortedHead(l);
      SortedHead(r);
      SortedHead(m);
      if l[0].timeMark <= r[0].timeMark {
        MergeSortedIff(l[1..], r);
        BelowMerge(l[0], l[1..], r);
        assert m[0] == l[0] && m[1..] == Merge(l[1..], r);
        if Sorted(r) {
          BelowSmaller(l[0], r[0], r);
        }
      } else {
        MergeSortedIff(l, r[1..]);
        BelowMerge(r[0], l, r[1..]);
        assert m[0] == r[0] && m[1..] == Merge(l, r[1..]);
        if Sorted(l) {
          BelowSmaller(r[0], l[0], l);
        }
      }
    }
  }

  /** With a sorted left run, equal keys come out left run first, each in its old order. */
  lemma {:induction false} MergeStable(l: seq<Record>, r: seq<Record>, k: real)
    requires Sorted(l)
    ensures WithKey(Merge(l, r), k) == WithKey(l, k) + WithKey(r, k)
    decreases |l| + |r|
  {
    if l != [] && r != [] {
      if l[0].timeMark <= r[0].timeMark {
        MergeStable(l[1..], r, k);
      } else {
        MergeStable(l, r[1..], k);
        if r[0].timeMark == k {
          NoSmallerKey(l, k);
        }
      }
    }
  }

  lemma {:induction false} NoSmallerKey(s: seq<Record>, k: real)
    requires forall x :: x in s ==> k < x.timeMark
    ensures WithKey(s, k) == []
  {
    if s != [] {
      assert s[0] in s;
      NoSmallerKey(s[1..], k);
    }
  }

  /** The state of the merge loops: `i` and `j` records are taken, in `out`, and merging
      what is left completes the merge. */
  predicate Merging(out: seq<Record>, l: seq<Record>, r: seq<Record>, i: nat, j: nat) {
    i <= |l| && j <= |r| && out + Merge(l[i..], r[j..]) == Merge(l, r)
  }

  lemma MergingStarts(l: seq<Record>, r: seq<Record>)
    ensures Merging([], l, r, 0, 0)
  {
    assert l[0..] == l && r[0..] == r;
  }

  lemma MergingEnds(out: seq<Record>, l: seq<Record>, r: seq<Record>)
    requires Merging(out, l, r, |l|, |r|)
    ensures out == Merge(l, r)
  {
  }

  lemma TakeLeft(out: seq<Record>, l: seq<Record>, r: seq<Record>, i: nat, j: nat)
    requires Merging(out, l, r, i, j) && i < |l|
    requires j == |r| || l[i].timeMark <= r[j].timeMark
    ensures Merging(out + [l[i]], l, r, i + 1, j)
  {
    assert l[i..] == [l[i]] + l[i + 1..];
    assert l[i..][1..] == l[i + 1..];
  }

  lemma TakeRight(out: seq<Record>, l: seq<Record>, r: seq<Record>, i: nat, j: nat)
    requires Merging(out, l, r, i, j) && j < |r|
    requires i == |l| || r[j].timeMark < l[i].timeMark
    ensures Merging(out + [r[j]], l, r, i, j + 1)
  {
    assert r[j..] == [r[j]] + r[j + 1..];
    assert r[j..][1..] == r[j + 1..];
  }

  /** The slice of length `|x|` at `lo` replaced by `x`. */
  function Splice(s: seq<Record>, lo: nat, x: seq<Record>): (t: seq<Record>)
    requires lo + |x| <= |s|
    ensures |t| == |s|
    ensures t[lo..lo + |x|] == x
    ensures forall i :: 0 <= i < lo || lo + |x| <= i < |s| ==> t[i] == s[i]
  {
    s[..lo] + x + s[lo + |x|..]
  }

  lemma SliceOfSlice(buf: seq<Record>, lo: nat, a: seq<Record>, b: seq<Record>)
    requires lo + |a| + |b| <= |buf| && buf[lo..lo + |a| + |b|] == a + b
    ensures buf[lo..lo + |a|] == a && buf[lo + |a|..lo + |a| + |b|] == b
  {
    assert buf[lo..lo + |a|] == buf[lo..lo + |a| + |b|][..|a|];
    assert buf[lo + |a|..lo + |a| + |b|] == buf[lo..lo + |a| + |b|][|a|..];
  }

  lemma SpliceMiddle(a: seq<Record>, b: seq<Record>, c: seq<Record>, x: seq<Record>)
    requires |x| == |b|
    ensures Splice(a + b + c, |a|, x) == a + x + c
  {
    assert (a + b + c)[..|a|] == a;
    assert (a + b + c)[|a| + |x|..] == c;
  }

  lemma SplicePrefix(s: seq<Record>, total: nat, lo: nat, x: seq<Record>)
    requires lo + |x| <= total <= |s|
    ensures Splice(s, lo, x)[..total] == Splice(s[..total], lo, x)
    ensures Splice(s, lo, x)[total..] == s[total..]
  {
  }

  /** The merge loops: read both runs, fill a temporary buffer. */
  method MergeIntoBuffer(a: array<Record>, lo: nat, left: nat, right: nat, ghost l: seq<Record>, ghost r: seq<Record>)
    returns (tmp: seq<Record>)
    requires lo + left + right <= a.Length && left == |l| && right == |r|
    requires forall k :: 0 <= k < left ==> a[lo + k] == l[k]
    requires forall k :: 0 <= k < right ==> a[lo + left + k] == r[k]
    ensures tmp == Merge(l, r)
  {
    tmp := [];
    var i, j := 0, 0;
    MergingStarts(l, r);
    hide Merge, Merging;
    while i < left && j < right
      invariant i <= left && j <= right
      invariant Merging(tmp, l, r, i, j)
    {
      var x, y := a[lo + i], a[lo + left + j];
      if x.timeMark <= y.timeMark {
        TakeLeft(tmp, l, r, i, j);
        tmp := tmp + [x];
        i := i + 1;
      } else {
        TakeRight(tmp, l, r, i, j);
        tmp := tmp + [y];
        j := j + 1;
      }
    }
    while i < left
      invariant i <= left && j <= right && (i == left || j == right)
      invariant Merging(tmp, l, r, i, j)
    {
      var x := a[lo + i];
      TakeLeft(tmp, l, r, i, j);
      tmp := tmp + [x];
      i := i + 1;
    }
    while j < right
      invariant i == left && j <= right
      invariant Merging(tmp, l, r, i, j)
    {
      var y := a[lo + left + j];
      TakeRight(tmp, l, r, i, j);
      tmp := tmp + [y];
      j := j + 1;
    }
    MergingEnds(tmp, l, r);
  }

  /** Overwrite `|tmp|` records from `lo` on. */
  method CopyBack(a: array<Record>, lo: nat, tmp: seq<Record>)
    requires lo + |tmp| <= a.Length
    modifies a
    ensures a[..] == Splice(old(a[..]), lo, tmp)
  {
    var k := 0;
    while k < |tmp|
      invariant k <= |tmp|
      invariant forall m :: 0 <= m < k ==> a[lo + m] == tmp[m]
      invariant forall m :: 0 <= m < lo || lo + k <= m < a.Length ==> a[m] == old(a[m])
    {
      a[lo + k] := tmp[k];
      k := k + 1;
    }
    assert a[lo..lo + |tmp|] == tmp;
  }

  /** Merge the adjacent runs of `left` and `right` records that start at `lo`. */
  method MergeTwoRuns(a: array<Record>, lo: nat, left: nat, right: nat)
    requires lo + left + right <= a.Length
    modifies a
    ensures |Merge(old(a[lo..lo + left]), old(a[lo + left..lo + left + right]))| == left + right
    ensures a[..] == Splice(old(a[..]), lo,
                            Merge(old(a[lo..lo + left]), old(a[lo + left..lo + left + right])))
  {
    ghost var l, r := a[lo..lo + left], a[lo + left..lo + left + right];
    var tmp := MergeIntoBuffer(a, lo, left, right, l, r);
    MergePermutes(l, r);
    CopyBack(a, lo, tmp);
  }
}
