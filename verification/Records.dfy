/** Index records, the order they are sorted by, and what "rearranged" means.

    The key is modelled as a `real`: the program only ever compares two keys, and the
    generator emits finite values, so the order is total. */
module Records {

  datatype Record = Record(timeMark: real, recno: nat)

  predicate Sorted(s: seq<Record>) {
    forall i, j :: 0 <= i < j < |s| ==> s[i].timeMark <= s[j].timeMark
  }

  /** Both sequences hold the same records, with the same multiplicities. */
  predicate Permutation(a: seq<Record>, b: seq<Record>) {
    multiset(a) == multiset(b)
  }

  /** The records of `s` whose key is `k`, in the order they have in `s`. */
  function WithKey(s: seq<Record>, k: real): seq<Record> {
    if s == [] then []
    else (if s[0].timeMark == k then [s[0]] else []) + WithKey(s[1..], k)
  }

  /** Records with equal keys keep their relative order. */
  ghost predicate StablyRearranged(a: seq<Record>, b: seq<Record>) {
    forall k: real :: WithKey(a, k) == WithKey(b, k)
  }

  lemma {:induction false} WithKeyAppend(a: seq<Record>, b: seq<Record>, k: real)
    ensures WithKey(a + b, k) == WithKey(a, k) + WithKey(b, k)
  {
    if a == [] {
      assert a + b == b;
    } else {
      assert (a + b)[1..] == a[1..] + b;
      WithKeyAppend(a[1..], b, k);
    }
  }

  lemma PermutationMembers(a: seq<Record>, b: seq<Record>)
    requires Permutation(a, b)
    ensures |a| == |b|
    ensures forall r :: r in a <==> r in b
  {
    assert |multiset(a)| == |multiset(b)|;
    forall r: Record
      ensures r in a <==> r in b
    {
      assert r in a <==> r in multiset(a);
      assert r in b <==> r in multiset(b);
    }
  }

  lemma SortedConcat(a: seq<Record>, b: seq<Record>)
    ensures Sorted(a + b) <==>
            Sorted(a) && Sorted(b) && forall x, y :: x in a && y in b ==> x.timeMark <= y.timeMark
  {
    var s := a + b;
    if Sorted(s) {
      forall i, j | 0 <= i < j < |a|
        ensures a[i].timeMark <= a[j].timeMark
      {
        assert s[i] == a[i] && s[j] == a[j];
      }
      forall i, j | 0 <= i < j < |b|
        ensures b[i].timeMark <= b[j].timeMark
      {
        assert s[|a| + i] == b[i] && s[|a| + j] == b[j];
      }
      forall x, y | x in a && y in b
        ensures x.timeMark <= y.timeMark
      {
        var i :| 0 <= i < |a| && a[i] == x;
        var j :| 0 <= j < |b| && b[j] == y;
        assert s[i] == x && s[|a| + j] == y;
      }
    }
  }
}
