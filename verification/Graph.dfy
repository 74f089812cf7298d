/** Directed graphs as sets of links: walks, reachability and forests. */
module Graph {

  type Link<T> = (T, T)

  /** `p` walks along at least one link of `E`. */
  ghost predicate Walk<T>(E: set<Link<T>>, p: seq<T>) {
    |p| >= 2 && forall i :: 0 <= i < |p| - 1 ==> (p[i], p[i + 1]) in E
  }

  /** `b` can be reached from `a` along one or more links. */
  ghost predicate Reach<T(!new)>(E: set<Link<T>>, a: T, b: T) {
    exists p: seq<T> :: Walk(E, p) && p[0] == a && p[|p| - 1] == b
  }

  /** Every node has at most one source, and no node reaches itself. */
  ghost predicate Forest<T(!new)>(E: set<Link<T>>) {
    && (forall l, m :: l in E && m in E && l.1 == m.1 ==> l.0 == m.0)
    && (forall x :: !Reach(E, x, x))
  }

  lemma {:induction false} LinkReaches<T(!new)>(E: set<Link<T>>, a: T, b: T)
    requires (a, b) in E
    ensures Reach(E, a, b)
  {
    assert Walk(E, [a, b]);
  }

  lemma {:induction false} ReachExtends<T(!new)>(E: set<Link<T>>, a: T, b: T, c: T)
    requires Reach(E, a, b) && (b, c) in E
    ensures Reach(E, a, c)
  {
    var p :| Walk(E, p) && p[0] == a && p[|p| - 1] == b;
    assert Walk(E, p + [c]);
  }

  lemma {:induction false} ReachTransitive<T(!new)>(E: set<Link<T>>, a: T, b: T, c: T)
    requires Reach(E, a, b) && Reach(E, b, c)
    ensures Reach(E, a, c)
  {
    var p :| Walk(E, p) && p[0] == a && p[|p| - 1] == b;
    var q :| Walk(E, q) && q[0] == b && q[|q| - 1] == c;
    var w := p + q[1..];
    forall i | 0 <= i < |w| - 1 ensures (w[i], w[i + 1]) in E {
      if i >= |p| - 1 {
        var j := i - (|p| - 1);
        assert w[i] == q[j] && w[i + 1] == q[j + 1];
      }
    }
    assert Walk(E, w) && w[0] == a && w[|w| - 1] == c;
  }

  /** Induction along walks: a set that holds every direct successor of `a` and is closed under
      links holds everything `a` reaches. */
  lemma {:induction false} ReachStaysIn<T(!new)>(E: set<Link<T>>, a: T, b: T, S: iset<T>)
    requires Reach(E, a, b)
    requires forall l :: l in E && l.0 == a ==> l.1 in S
    requires forall l :: l in E && l.0 in S ==> l.1 in S
    ensures b in S
  {
    var p :| Walk(E, p) && p[0] == a && p[|p| - 1] == b;
    var i := 1;
    assert (p[0], p[1]) in E;
    while i < |p| - 1
      invariant 1 <= i <= |p| - 1
      invariant p[i] in S
    {
      assert (p[i], p[i + 1]) in E;
      i := i + 1;
    }
  }

  /** The last link of a walk. */
  lemma {:induction false} LastLink<T(!new)>(E: set<Link<T>>, a: T, b: T) returns (c: T)
    requires Reach(E, a, b)
    ensures (c, b) in E && (c == a || Reach(E, a, c))
  {
    var p :| Walk(E, p) && p[0] == a && p[|p| - 1] == b;
    c := p[|p| - 2];
    assert (p[|p| - 2], p[|p| - 1]) in E;
    if |p| > 2 {
      var q := p[..|p| - 1];
      assert Walk(E, q) && q[0] == a && q[|q| - 1] == c;
    }
  }

  /** The first link of a walk. */
  lemma {:induction false} FirstLink<T(!new)>(E: set<Link<T>>, a: T, b: T) returns (c: T)
    requires Reach(E, a, b)
    ensures (a, c) in E && (c == b || Reach(E, c, b))
  {
    var p :| Walk(E, p) && p[0] == a && p[|p| - 1] == b;
    c := p[1];
    assert (p[0], p[1]) in E;
    if |p| > 2 {
      var q := p[1..];
      forall i | 0 <= i < |q| - 1 ensures (q[i], q[i + 1]) in E {
        assert q[i] == p[i + 1] && q[i + 1] == p[i + 2];
      }
      assert Walk(E, q) && q[0] == c && q[|q| - 1] == b;
    }
  }

  lemma {:induction false} ReachMonotone<T(!new)>(E: set<Link<T>>, F: set<Link<T>>, a: T, b: T)
    requires E <= F && Reach(E, a, b)
    ensures Reach(F, a, b)
  {
    var p :| Walk(E, p) && p[0] == a && p[|p| - 1] == b;
    assert Walk(F, p);
  }

  /** Fewer links keep a forest a forest. */
  lemma {:induction false} ForestShrinks<T(!new)>(E: set<Link<T>>, F: set<Link<T>>)
    requires Forest(F) && E <= F
    ensures Forest(E)
  {
    forall x ensures !Reach(E, x, x) {
      if Reach(E, x, x) { ReachMonotone(E, F, x, x); }
    }
  }
}
