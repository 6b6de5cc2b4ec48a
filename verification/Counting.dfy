/** Sums over the threads or processes of a system. */
module Counting {

  function Sum<T>(s: seq<T>, weight: T -> nat): nat {
    if s == [] then 0 else weight(s[0]) + Sum(s[1..], weight)
  }

  lemma {:induction false} SumUpdate<T>(s: seq<T>, i: nat, x: T, weight: T -> nat)
    requires i < |s|
    ensures Sum(s[i := x], weight) == Sum(s, weight) - weight(s[i]) + weight(x)
    ensures weight(s[i]) <= Sum(s, weight)
  {
    if i == 0 {
      assert s[i := x][1..] == s[1..];
    } else {
      assert s[i := x][1..] == s[1..][i - 1 := x];
      SumUpdate(s[1..], i - 1, x, weight);
    }
  }

  lemma {:induction false} SumAppend<T>(s: seq<T>, x: T, weight: T -> nat)
    ensures Sum(s + [x], weight) == Sum(s, weight) + weight(x)
  {
    if s == [] {
      assert s + [x] == [x];
      assert [x][1..] == [];
    } else {
      assert (s + [x])[1..] == s[1..] + [x];
      SumAppend(s[1..], x, weight);
    }
  }

  lemma {:induction false} SumMonotone<T>(a: seq<T>, b: seq<T>, weight: T -> nat)
    requires |a| == |b| && forall i :: 0 <= i < |a| ==> weight(a[i]) <= weight(b[i])
    ensures Sum(a, weight) <= Sum(b, weight)
    ensures (exists i :: 0 <= i < |a| && weight(a[i]) < weight(b[i])) ==> Sum(a, weight) < Sum(b, weight)
  {
    if a != [] {
      SumMonotone(a[1..], b[1..], weight);
      if i :| 0 <= i < |a| && weight(a[i]) < weight(b[i]) {
        assert i > 0 ==> weight(a[1..][i - 1]) < weight(b[1..][i - 1]);
      }
    }
  }

  lemma {:induction false} SumSame<T>(a: seq<T>, b: seq<T>, weight: T -> nat)
    requires |a| == |b| && forall i :: 0 <= i < |a| ==> weight(a[i]) == weight(b[i])
    ensures Sum(a, weight) == Sum(b, weight)
  {
    if a != [] {
      SumSame(a[1..], b[1..], weight);
    }
  }

  lemma {:induction false} SumZero<T>(s: seq<T>, weight: T -> nat)
    requires forall i :: 0 <= i < |s| ==> weight(s[i]) == 0
    ensures Sum(s, weight) == 0
  {
    if s != [] {
      SumZero(s[1..], weight);
    }
  }

  /** Two different members weigh no more than the whole. */
  lemma {:induction false} SumTwo<T>(s: seq<T>, i: nat, j: nat, weight: T -> nat)
    requires i < j < |s|
    ensures weight(s[i]) + weight(s[j]) <= Sum(s, weight)
  {
    if i == 0 {
      SumUpdate(s[1..], j - 1, s[j], weight);
    } else {
      SumTwo(s[1..], i - 1, j - 1, weight);
    }
  }

  lemma {:induction false} SumPositive<T>(s: seq<T>, weight: T -> nat) returns (i: nat)
    requires Sum(s, weight) > 0
    ensures i < |s| && weight(s[i]) > 0
  {
    if weight(s[0]) > 0 {
      i := 0;
    } else {
      var j := SumPositive(s[1..], weight);
      i := j + 1;
    }
  }
}
