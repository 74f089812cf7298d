/** Duplicate-free sequences. */
module Seqs {

  ghost predicate NoDup<T>(s: seq<T>) {
    forall i, j :: 0 <= i < j < |s| ==> s[i] != s[j]
  }

  lemma {:induction false} NoDupConcat<T>(a: seq<T>, b: seq<T>)
    requires NoDup(a) && NoDup(b)
    requires forall x :: x in a ==> x !in b
    ensures NoDup(a + b)
  {
    forall i, j | 0 <= i < j < |a + b| ensures (a + b)[i] != (a + b)[j] {
      if i < |a| <= j {
        assert a[i] in a && b[j - |a|] in b;
      }
    }
  }

  /** A duplicate-free sequence is no longer than any sequence that lists all its elements. */
  lemma {:induction false} Pigeonhole<T>(s: seq<T>, u: seq<T>)
    requires NoDup(s)
    requires forall x :: x in s ==> x in u
    ensures |s| <= |u|
    decreases |s|
  {
    if s != [] {
      var x := s[|s| - 1];
      var t := s[..|s| - 1];
      assert x in s;
      var k :| 0 <= k < |u| && u[k] == x;
      var v := u[..k] + u[k + 1..];
      forall y | y in t ensures y in v {
        assert y in s;
        var j :| 0 <= j < |u| && u[j] == y;
        assert j != k;
        if j < k { assert v[j] == y; } else { assert v[j - 1] == y; }
      }
      Pigeonhole(t, v);
    }
  }
}
