/** The delegation ledger: a fixed table of edges from a capability to the capability delegated
    from it, changed in place. */
module Deleg {
  import opened Graph

  /** A capability slot of one process incarnation. */
  datatype Endpoint = Endpoint(proc: nat, id: nat, cap: nat)

  predicate SameProc(e: Endpoint, proc: nat, id: nat) {
    e.proc == proc && e.id == id
  }

  datatype Edge = Edge(parent: Endpoint, child: Endpoint, live: bool)

  const DEAD := Edge(Endpoint(0, 0, 0), Endpoint(0, 0, 0), false)

  // ------------------------------------------------------------- the graph a table stands for

  function Links(es: seq<Edge>): set<Link<Endpoint>> {
    set i | 0 <= i < |es| && es[i].live :: (es[i].parent, es[i].child)
  }

  function LiveCount(es: seq<Edge>): nat {
    if es == [] then 0
    else LiveCount(es[..|es| - 1]) + if es[|es| - 1].live then 1 else 0
  }

  /** The table holds a forest: no two live edges share a child, and there is no cycle. */
  ghost predicate IsForest(es: seq<Edge>) {
    && (forall i, j :: 0 <= i < j < |es| && es[i].live && es[j].live ==> es[i].child != es[j].child)
    && (forall x :: !Reach(Links(es), x, x))
  }

  ghost predicate Names(es: seq<Edge>, proc: nat, id: nat) {
    exists l :: l in Links(es) && (SameProc(l.0, proc, id) || SameProc(l.1, proc, id))
  }

  lemma {:induction false} ForestLinks(es: seq<Edge>)
    requires IsForest(es)
    ensures Forest(Links(es))
  {}

  // ------------------------------------------------------------------- the four operations

  /** Index of the first dead edge, or the table length. */
  function FirstDead(es: seq<Edge>): (i: nat)
    ensures i <= |es|
    ensures i < |es| ==> !es[i].live
    ensures forall j :: 0 <= j < i ==> es[j].live
  {
    if es == [] || !es[0].live then 0
    else
      var r := FirstDead(es[1..]);
      assert forall j :: 1 <= j < r + 1 ==> es[j] == es[1..][j - 1];
      1 + r
  }

  function Recorded(es: seq<Edge>, parent: Endpoint, child: Endpoint): seq<Edge> {
    var i := FirstDead(es);
    if i < |es| then es[i := Edge(parent, child, true)] else es
  }

  /** An edge whose source is the root itself or was derived from it. */
  ghost predicate Doomed(es: seq<Edge>, root: Endpoint, e: Edge) {
    e.live && (e.parent == root || Reach(Links(es), root, e.parent))
  }

  ghost function Revoked(es: seq<Edge>, root: Endpoint): seq<Edge> {
    seq(|es|, i requires 0 <= i < |es| => if Doomed(es, root, es[i]) then es[i].(live := false) else es[i])
  }

  /** The children of the edges that are live in `es` and dead in `es'`, with multiplicity. */
  function Killed(es: seq<Edge>, es': seq<Edge>): multiset<Endpoint>
    requires |es| == |es'|
  {
    if es == [] then multiset{}
    else
      var n := |es| - 1;
      Killed(es[..n], es'[..n])
      + if es[n].live && !es'[n].live then multiset{es[n].child} else multiset{}
  }

  /** Every edge derived from `from` is re-attached to `to`. */
  function Reparented(es: seq<Edge>, from: Endpoint, to: Endpoint): seq<Edge> {
    seq(|es|, j requires 0 <= j < |es| =>
      if es[j].live && es[j].parent == from then es[j].(parent := to) else es[j])
  }

  function SplicedAt(es: seq<Edge>, i: nat, proc: nat, id: nat): (r: seq<Edge>)
    requires i < |es|
    ensures |r| == |es|
  {
    if es[i].live && SameProc(es[i].child, proc, id) then
      var moved := Reparented(es, es[i].child, es[i].parent);
      moved[i := moved[i].(live := false)]
    else es
  }

  function SplicedUpTo(es: seq<Edge>, n: nat, proc: nat, id: nat): (r: seq<Edge>)
    requires n <= |es|
    ensures |r| == |es|
  {
    if n == 0 then es else SplicedAt(SplicedUpTo(es, n - 1, proc, id), n - 1, proc, id)
  }

  function Unrooted(es: seq<Edge>, proc: nat, id: nat): seq<Edge> {
    seq(|es|, j requires 0 <= j < |es| =>
      if SameProc(es[j].parent, proc, id) then es[j].(live := false) else es[j])
  }

  function Spliced(es: seq<Edge>, proc: nat, id: nat): (r: seq<Edge>)
    ensures |r| == |es|
  {
    Unrooted(SplicedUpTo(es, |es|, proc, id), proc, id)
  }

  function Forgotten(es: seq<Edge>, end: Endpoint): (r: seq<Edge>)
    ensures |r| == |es|
  {
    seq(|es|, j requires 0 <= j < |es| =>
      if es[j].parent == end || es[j].child == end then es[j].(live := false) else es[j])
  }

  // ------------------------------------------------------------------- what recording means

  /** A recorded edge adds exactly one link, provided a slot is free; a full table is unchanged. */
  lemma {:induction false} RecordedLinks(es: seq<Edge>, parent: Endpoint, child: Endpoint)
    ensures LiveCount(es) < |es| ==> Links(Recorded(es, parent, child)) == Links(es) + {(parent, child)}
    ensures LiveCount(es) == |es| ==> Recorded(es, parent, child) == es
    ensures LiveCount(Recorded(es, parent, child)) ==
            if LiveCount(es) < |es| then LiveCount(es) + 1 else LiveCount(es)
  {
    CountFullIff(es);
    var i := FirstDead(es);
    if i < |es| {
      var r := Recorded(es, parent, child);
      CountUpdate(es, i, r[i]);
      forall l | l in Links(es) + {(parent, child)} ensures l in Links(r) {
        if l == (parent, child) {
          assert r[i].live;
        } else {
          var j :| 0 <= j < |es| && es[j].live && l == (es[j].parent, es[j].child);
          assert r[j] == es[j];
        }
      }
    }
  }

  /** Delegating to an endpoint no edge names keeps the ledger a forest, and extends
      reachability by that endpoint alone. */
  lemma {:induction false} RecordedForest(es: seq<Edge>, parent: Endpoint, child: Endpoint)
    requires IsForest(es) && LiveCount(es) < |es|
    requires parent != child
    requires forall l :: l in Links(es) ==> l.0 != child && l.1 != child
    ensures IsForest(Recorded(es, parent, child))
    ensures forall x, y :: Reach(Links(Recorded(es, parent, child)), x, y) <==>
              Reach(Links(es), x, y) || (y == child && (x == parent || Reach(Links(es), x, parent)))
  {
    var E := Links(es);
    var F := Links(Recorded(es, parent, child));
    RecordedLinks(es, parent, child);
    forall x, y ensures Reach(F, x, y) <==>
                        Reach(E, x, y) || (y == child && (x == parent || Reach(E, x, parent))) {
      var S := iset z | Reach(E, x, z) || (z == child && (x == parent || Reach(E, x, parent)));
      if Reach(F, x, y) {
        forall l | l in F && (l.0 == x || l.0 in S) ensures l.1 in S {
          if l in E {
            if l.0 == x { LinkReaches(E, l.0, l.1); }
            else { assert l.0 != child; ReachExtends(E, x, l.0, l.1); }
          }
        }
        ReachStaysIn(F, x, y, S);
      }
      if Reach(E, x, y) { ReachMonotone(E, F, x, y); }
      if y == child && (x == parent || Reach(E, x, parent)) {
        LinkReaches(F, parent, child);
        if x != parent { ReachMonotone(E, F, x, parent); ReachExtends(F, x, parent, child); }
      }
    }
    forall x ensures !Reach(F, x, x) {
      if Reach(F, x, x) && Reach(E, child, parent) {
        var c := FirstLink(E, child, parent);
      }
    }
    forall i | 0 <= i < |es| && es[i].live ensures es[i].child != child {
      assert (es[i].parent, es[i].child) in E;
    }
  }

  lemma {:induction false} FirstDeadIs(es: seq<Edge>, i: nat)
    requires i <= |es| && (i < |es| ==> !es[i].live)
    requires forall j :: 0 <= j < i ==> es[j].live
    ensures i == FirstDead(es)
  {
    var f := FirstDead(es);
    assert f < |es| ==> !es[f].live;
    assert i < |es| ==> !es[i].live;
  }

  lemma {:induction false} CountFullIff(es: seq<Edge>)
    ensures LiveCount(es) <= |es|
    ensures LiveCount(es) == |es| <==> FirstDead(es) == |es|
  {
    CountFull(es);
    assert FirstDead(es) < |es| ==> !es[FirstDead(es)].live;
  }

  lemma {:induction false} CountFull(es: seq<Edge>)
    ensures LiveCount(es) <= |es|
    ensures LiveCount(es) == |es| <==> forall i :: 0 <= i < |es| ==> es[i].live
  {
    if es != [] {
      var n := |es| - 1;
      CountFull(es[..n]);
      assert forall i :: 0 <= i < n ==> es[..n][i] == es[i];
    }
  }

  lemma {:induction false} CountUpdate(es: seq<Edge>, i: nat, e: Edge)
    requires i < |es|
    ensures LiveCount(es[i := e]) - LiveCount(es) ==
            (if e.live then 1 else 0) - (if es[i].live then 1 else 0)
  {
    var n := |es| - 1;
    if i == n {
      assert es[i := e][..n] == es[..n];
    } else {
      CountUpdate(es[..n], i, e);
      assert es[i := e][..n] == es[..n][i := e];
    }
  }

  // ------------------------------------------------------------------- what revoking means

  /** Revocation removes every link below the root and no other; the survivors' reachability is
      untouched. */
  lemma {:induction false} RevokedReach(es: seq<Edge>, root: Endpoint)
    ensures forall l :: l in Links(Revoked(es, root)) <==>
              l in Links(es) && l.0 != root && !Reach(Links(es), root, l.0)
    ensures forall x, y :: !Reach(Links(es), root, y) ==>
              (Reach(Links(Revoked(es, root)), x, y) <==> Reach(Links(es), x, y))
    ensures forall y :: !Reach(Links(Revoked(es, root)), root, y)
  {
    var E, F := Links(es), Links(Revoked(es, root));
    var es' := Revoked(es, root);
    forall l | l in E && l.0 != root && !Reach(E, root, l.0) ensures l in F {
      var i :| 0 <= i < |es| && es[i].live && l == (es[i].parent, es[i].child);
      assert es'[i] == es[i];
    }
    forall x, y | !Reach(E, root, y) ensures Reach(F, x, y) <==> Reach(E, x, y) {
      if Reach(F, x, y) { ReachMonotone(F, E, x, y); }
      if Reach(E, x, y) {
        // Everything on the way to a survivor survives.
        var S := iset z | Reach(E, root, z) || Reach(F, x, z);
        forall l | l in E && (l.0 == x || l.0 in S) ensures l.1 in S {
          if l.0 == root { LinkReaches(E, root, l.1); }
          else if Reach(E, root, l.0) { ReachExtends(E, root, l.0, l.1); }
          else if l.0 == x { LinkReaches(F, x, l.1); }
          else { ReachExtends(F, x, l.0, l.1); }
        }
        ReachStaysIn(E, x, y, S);
      }
    }
    forall y ensures !Reach(F, root, y) {
      if Reach(F, root, y) { var c := FirstLink(F, root, y); }
    }
  }

  lemma {:induction false} RevokedForest(es: seq<Edge>, root: Endpoint)
    requires IsForest(es)
    ensures IsForest(Revoked(es, root))
  {
    RevokedReach(es, root);
    ForestLinks(es);
    ForestShrinks(Links(Revoked(es, root)), Links(es));
  }

  // ------------------------------------------------------------------- what splicing means

  /** Contracting one node of a forest: its only source takes over everything below it. */
  lemma {:induction false} ContractReach<T(!new)>(E: set<Link<T>>, F: set<Link<T>>, a: T, d: T)
    requires Forest(E) && (a, d) in E
    requires forall l :: l in F <==>
               (l in E && l.0 != d && l.1 != d) || (l.0 == a && (d, l.1) in E)
    ensures forall x, y :: x != d && y != d ==> (Reach(F, x, y) <==> Reach(E, x, y))
    ensures Forest(F)
    ensures forall l :: l in F ==> l.0 != d && l.1 != d
  {
    LinkReaches(E, a, d);
    assert (d, d) !in E by { if (d, d) in E { LinkReaches(E, d, d); } }
    forall x, y | Reach(F, x, y) ensures Reach(E, x, y) {
      forall l | l in F ensures Reach(E, l.0, l.1) {
        if l in E { LinkReaches(E, l.0, l.1); } else { ReachExtends(E, a, d, l.1); }
      }
      var S := iset z | Reach(E, x, z);
      forall l | l in F && l.0 in S ensures l.1 in S { ReachTransitive(E, x, l.0, l.1); }
      ReachStaysIn(F, x, y, S);
    }
    forall x, y | x != d && y != d && Reach(E, x, y) ensures Reach(F, x, y) {
      var S := iset z | if z == d then x == a || Reach(F, x, a) else Reach(F, x, z);
      forall l | l in E && (l.0 == x || l.0 in S) ensures l.1 in S {
        if l.0 == d {
          assert (a, l.1) in F;
          if x == a { LinkReaches(F, a, l.1); } else { ReachExtends(F, x, a, l.1); }
        } else if l.1 == d {
          assert l.0 == a;
        } else if l.0 == x {
          LinkReaches(F, x, l.1);
        } else {
          ReachExtends(F, x, l.0, l.1);
        }
      }
      ReachStaysIn(E, x, y, S);
    }
  }

  lemma {:induction false} SplicedAtForest(es: seq<Edge>, i: nat, proc: nat, id: nat)
    requires i < |es| && IsForest(es)
    ensures IsForest(SplicedAt(es, i, proc, id))
    ensures forall x, y :: !SameProc(x, proc, id) && !SameProc(y, proc, id) ==>
              (Reach(Links(SplicedAt(es, i, proc, id)), x, y) <==> Reach(Links(es), x, y))
  {
    var r := SplicedAt(es, i, proc, id);
    if es[i].live && SameProc(es[i].child, proc, id) {
      var E, F, a, d := Links(es), Links(r), es[i].parent, es[i].child;
      ForestLinks(es);
      assert (a, d) in E;
      forall l ensures l in F <==> (l in E && l.0 != d && l.1 != d) || (l.0 == a && (d, l.1) in E) {
        SplicedAtLink(es, i, proc, id, l);
      }
      ContractReach(E, F, a, d);
    }
  }

  lemma {:induction false} SplicedAtLink(es: seq<Edge>, i: nat, proc: nat, id: nat, l: Link<Endpoint>)
    requires i < |es| && IsForest(es)
    requires es[i].live && SameProc(es[i].child, proc, id)
    ensures l in Links(SplicedAt(es, i, proc, id)) <==>
            (l in Links(es) && l.0 != es[i].child && l.1 != es[i].child)
            || (l.0 == es[i].parent && (es[i].child, l.1) in Links(es))
  {
    var r, d := SplicedAt(es, i, proc, id), es[i].child;
    if l in Links(r) {
      var j :| 0 <= j < |r| && r[j].live && l == (r[j].parent, r[j].child);
      assert (es[j].parent, es[j].child) in Links(es);
      assert es[j].child != d;
    }
    if l in Links(es) && l.0 != d && l.1 != d {
      var j :| 0 <= j < |es| && es[j].live && l == (es[j].parent, es[j].child);
      assert r[j] == es[j];
    }
    if l.0 == es[i].parent && (d, l.1) in Links(es) {
      var j :| 0 <= j < |es| && es[j].live && (d, l.1) == (es[j].parent, es[j].child);
      if j == i { LinkReaches(Links(es), d, d); }
      assert r[j] == es[j].(parent := es[i].parent);
    }
  }

  lemma {:induction false} SplicedUpToForest(es: seq<Edge>, n: nat, proc: nat, id: nat)
    requires n <= |es| && IsForest(es)
    ensures IsForest(SplicedUpTo(es, n, proc, id))
    ensures forall x, y :: !SameProc(x, proc, id) && !SameProc(y, proc, id) ==>
              (Reach(Links(SplicedUpTo(es, n, proc, id)), x, y) <==> Reach(Links(es), x, y))
    ensures forall i :: 0 <= i < n ==>
              var e := SplicedUpTo(es, n, proc, id)[i]; e.live ==> !SameProc(e.child, proc, id)
  {
    if n > 0 {
      SplicedUpToForest(es, n - 1, proc, id);
      SplicedAtForest(SplicedUpTo(es, n - 1, proc, id), n - 1, proc, id);
    }
  }

  /** Removing a dead process from any forest, in any table layout, leaves a forest that names
      the dead incarnation nowhere, and every survivor still reaches exactly the survivors it
      reached before. */
  lemma {:induction false} SplicedForest(es: seq<Edge>, proc: nat, id: nat)
    requires IsForest(es)
    ensures IsForest(Spliced(es, proc, id))
    ensures !Names(Spliced(es, proc, id), proc, id)
    ensures forall x, y :: !SameProc(x, proc, id) ==>
              (Reach(Links(Spliced(es, proc, id)), x, y) <==>
               Reach(Links(es), x, y) && !SameProc(y, proc, id))
  {
    var mid, r := SplicedUpTo(es, |es|, proc, id), Spliced(es, proc, id);
    var E, F := Links(mid), Links(r);
    SplicedUpToForest(es, |es|, proc, id);
    assert F <= E;
    ForestLinks(mid);
    ForestShrinks(F, E);
    forall l | l in E && !SameProc(l.0, proc, id) ensures l in F {
      var j :| 0 <= j < |mid| && mid[j].live && l == (mid[j].parent, mid[j].child);
      assert r[j] == mid[j];
    }
    forall x, y | !SameProc(x, proc, id)
      ensures Reach(F, x, y) <==> Reach(Links(es), x, y) && !SameProc(y, proc, id)
    {
      if Reach(F, x, y) {
        ReachMonotone(F, E, x, y);
        var c := LastLink(F, x, y);
      }
      if Reach(E, x, y) {
        var S := iset z | Reach(F, x, z) && !SameProc(z, proc, id);
        forall l | l in E && (l.0 == x || l.0 in S) ensures l.1 in S {
          assert l in F;
          if l.0 == x { LinkReaches(F, x, l.1); } else { ReachExtends(F, x, l.0, l.1); }
        }
        ReachStaysIn(E, x, y, S);
      }
    }
  }

  /** The forest precondition cannot be dropped: with two sources into the dead process, splicing
      re-attaches the grandchild to the first of them only, and the second loses it. */
  lemma {:induction false} SplicingNeedsOneSource()
    ensures var a, b, d, c := Endpoint(0, 1, 0), Endpoint(1, 2, 0), Endpoint(2, 3, 0), Endpoint(3, 4, 0);
            var es := [Edge(a, d, true), Edge(b, d, true), Edge(d, c, true)];
            && Reach(Links(es), b, c)
            && !Reach(Links(Spliced(es, 2, 3)), b, c)
            && Reach(Links(Spliced(es, 2, 3)), a, c)
  {
    var a, b, d, c := Endpoint(0, 1, 0), Endpoint(1, 2, 0), Endpoint(2, 3, 0), Endpoint(3, 4, 0);
    var es := [Edge(a, d, true), Edge(b, d, true), Edge(d, c, true)];
    assert es[1].live && es[2].live;
    LinkReaches(Links(es), b, d);
    ReachExtends(Links(es), b, d, c);
    assert SplicedUpTo(es, 0, 2, 3) == es;
    assert Reparented(es, d, a) == [Edge(a, d, true), Edge(b, d, true), Edge(a, c, true)];
    var s1 := SplicedUpTo(es, 1, 2, 3);
    assert s1 == [Edge(a, d, false), Edge(b, d, true), Edge(a, c, true)];
    assert Reparented(s1, d, b) == s1;
    var s2 := SplicedUpTo(es, 2, 2, 3);
    assert s2 == [Edge(a, d, false), Edge(b, d, false), Edge(a, c, true)];
    var r := Spliced(es, 2, 3);
    assert SplicedUpTo(es, 3, 2, 3) == s2;
    assert r == s2;
    assert r[2].live;
    LinkReaches(Links(r), a, c);
    if Reach(Links(r), b, c) { var x := FirstLink(Links(r), b, c); }
  }

  // ------------------------------------------------------------------- what forgetting means

  lemma {:induction false} ForgottenLinks(es: seq<Edge>, end: Endpoint)
    ensures forall l :: l in Links(Forgotten(es, end)) <==> l in Links(es) && l.0 != end && l.1 != end
    ensures IsForest(es) ==> IsForest(Forgotten(es, end))
  {
    var r := Forgotten(es, end);
    forall l | l in Links(es) && l.0 != end && l.1 != end ensures l in Links(r) {
      var j :| 0 <= j < |es| && es[j].live && l == (es[j].parent, es[j].child);
      assert r[j] == es[j];
    }
    if IsForest(es) {
      ForestLinks(es);
      ForestShrinks(Links(r), Links(es));
    }
  }

  // ------------------------------------------------------------------- the table itself

  class Ledger {
    const edges: array<Edge>

    constructor (capacity: nat)
      ensures fresh(edges) && edges.Length == capacity
      ensures forall i :: 0 <= i < capacity ==> edges[i] == DEAD
    {
      edges := new Edge[capacity](_ => DEAD);
    }

    /** The number of live edges. */
    method Len() returns (n: nat)
      ensures n == LiveCount(edges[..])
    {
      n := 0;
      for i := 0 to edges.Length
        invariant n == LiveCount(edges[..i])
      {
        assert edges[..i + 1][..i] == edges[..i];
        if edges[i].live { n := n + 1; }
      }
      assert edges[..edges.Length] == edges[..];
    }

    /** Record a delegation; a full table refuses and records nothing. */
    method Record(parent: Endpoint, child: Endpoint) returns (ok: bool)
      modifies edges
      ensures ok <==> LiveCount(old(edges[..])) < edges.Length
      ensures edges[..] == Recorded(old(edges[..]), parent, child)
    {
      ghost var before := edges[..];
      CountFullIff(before);
      var i := 0;
      while i < edges.Length && edges[i].live
        invariant 0 <= i <= edges.Length
        invariant forall j :: 0 <= j < i ==> edges[j].live
      {
        i := i + 1;
      }
      FirstDeadIs(before, i);
      ok := i < edges.Length;
      if ok {
        edges[i] := Edge(parent, child, true);
      }
    }

    /** Is `end` the root, or among the endpoints reached so far? */
    method IsSource(end: Endpoint, root: Endpoint, out: array<Endpoint>, n: nat) returns (b: bool)
      requires n <= out.Length
      ensures b <==> end == root || end in out[..n]
    {
      b := end == root;
      var k := 0;
      while k < n && !b
        invariant 0 <= k <= n
        invariant b <==> end == root || exists j :: 0 <= j < k && out[j] == end
      {
        b := out[k] == end;
        k := k + 1;
      }
      if b && end != root {
        ghost var j :| 0 <= j < k && out[j] == end;
        assert out[..n][j] == end;
      }
    }

    /** Kill every edge derived from `root`, and report the child of each once.

        The scan repeats until a pass kills nothing; each productive pass kills at least one
        edge, so the number of live edges is the measure. Any graph is accepted. */
    method RevokeFrom(root: Endpoint, out: array<Endpoint>) returns (n: nat)
      requires out.Length >= edges.Length
      requires out as object != edges
      modifies edges, out
      ensures n <= out.Length
      ensures edges[..] == Revoked(old(edges[..]), root)
      ensures multiset(out[..n]) == Killed(old(edges[..]), edges[..])
      ensures LiveCount(edges[..]) + n == LiveCount(old(edges[..]))
      ensures forall k :: n <= k < out.Length ==> out[k] == old(out[k])
    {
      ghost var es := edges[..];
      n := 0;
      CountFull(es);
      NothingKilled(es);
      while true
        invariant n <= out.Length && RevokeInv(es, edges[..], root, out[..n])
        invariant forall k :: n <= k < out.Length ==> out[k] == old(out[k])
        decreases LiveCount(edges[..])
      {
        var progress;
        n, progress := Sweep(es, root, out, n);
        if !progress {
          break;
        }
      }
      FixpointIsRevoked(es, edges[..], root, out[..n]);
    }

    /** One pass over the table. */
    method Sweep(ghost es: seq<Edge>, root: Endpoint, out: array<Endpoint>, n0: nat)
      returns (n: nat, progress: bool)
      requires out as object != edges
      requires n0 <= out.Length && out.Length >= edges.Length && RevokeInv(es, edges[..], root, out[..n0])
      modifies edges, out
      ensures n0 <= n <= out.Length && RevokeInv(es, edges[..], root, out[..n])
      ensures forall k :: n <= k < out.Length ==> out[k] == old(out[k])
      ensures progress ==> LiveCount(edges[..]) < LiveCount(old(edges[..]))
      ensures !progress ==> forall j :: 0 <= j < edges.Length && edges[j].live ==>
                edges[j].parent != root && edges[j].parent !in out[..n]
    {
      n, progress := n0, false;
      var i := 0;
      while i < edges.Length
        invariant 0 <= i <= edges.Length
        invariant n0 <= n <= out.Length && RevokeInv(es, edges[..], root, out[..n])
        invariant forall k :: n <= k < out.Length ==> out[k] == old(out[k])
        invariant LiveCount(edges[..]) + (if progress then 1 else 0) <= LiveCount(old(edges[..]))
        invariant !progress ==> forall j :: 0 <= j < i && edges[j].live ==>
                    edges[j].parent != root && edges[j].parent !in out[..n]
      {
        var e := edges[i];
        var reached := IsSource(e.parent, root, out, n);
        if e.live && reached {
          Kill(es, root, out, n, i);
          n := n + 1;
          progress := true;
        }
        i := i + 1;
      }
    }

    /** Mark edge `i` dead and report its child. */
    method Kill(ghost es: seq<Edge>, root: Endpoint, out: array<Endpoint>, n: nat, i: nat)
      requires out as object != edges
      requires n <= out.Length && out.Length >= edges.Length && RevokeInv(es, edges[..], root, out[..n])
      requires i < edges.Length && edges[i].live
      requires edges[i].parent == root || edges[i].parent in out[..n]
      modifies edges, out
      ensures n < out.Length && RevokeInv(es, edges[..], root, out[..n + 1])
      ensures forall k :: 0 <= k < out.Length && k != n ==> out[k] == old(out[k])
      ensures LiveCount(edges[..]) < LiveCount(old(edges[..]))
    {
      ghost var was, rep := edges[..], out[..n];
      KillOne(es, was, root, rep, i);
      out[n] := edges[i].child;
      edges[i] := edges[i].(live := false);
      assert edges[..] == was[i := was[i].(live := false)];
      assert out[..n + 1] == rep + [was[i].child];
    }

    /** Remove a dead process, re-attaching what it delegated to what it received from. */
    method SpliceOut(proc: nat, id: nat)
      modifies edges
      ensures edges[..] == Spliced(old(edges[..]), proc, id)
    {
      ghost var es := edges[..];
      for i := 0 to edges.Length
        invariant edges[..] == SplicedUpTo(es, i, proc, id)
      {
        ghost var was := edges[..];
        var inc := edges[i];
        if inc.live && SameProc(inc.child, proc, id) {
          for j := 0 to edges.Length
            invariant forall k :: 0 <= k < j ==> edges[k] == Reparented(was, inc.child, inc.parent)[k]
            invariant forall k :: j <= k < edges.Length ==> edges[k] == was[k]
          {
            if edges[j].live && edges[j].parent == inc.child {
              edges[j] := edges[j].(parent := inc.parent);
            }
          }
          assert edges[..] == Reparented(was, inc.child, inc.parent);
          edges[i] := edges[i].(live := false);
        }
      }
      ghost var mid := edges[..];
      for j := 0 to edges.Length
        invariant forall k :: 0 <= k < j ==> edges[k] == Unrooted(mid, proc, id)[k]
        invariant forall k :: j <= k < edges.Length ==> edges[k] == mid[k]
      {
        if edges[j].live && SameProc(edges[j].parent, proc, id) {
          edges[j] := edges[j].(live := false);
        }
      }
      assert edges[..] == Unrooted(mid, proc, id);
    }

    /** Drop every edge naming `end`, at either end. */
    method Forget(end: Endpoint)
      modifies edges
      ensures edges[..] == Forgotten(old(edges[..]), end)
    {
      ghost var es := edges[..];
      for j := 0 to edges.Length
        invariant forall k :: 0 <= k < j ==> edges[k] == Forgotten(es, end)[k]
        invariant forall k :: j <= k < edges.Length ==> edges[k] == es[k]
      {
        if edges[j].live && (edges[j].parent == end || edges[j].child == end) {
          edges[j] := edges[j].(live := false);
        }
      }
      assert edges[..] == Forgotten(es, end);
    }
  }

  // ------------------------------------------------------------------- the fixpoint's invariant

  /** `now` is `es` with some doomed edges killed. */
  ghost predicate Marks(es: seq<Edge>, now: seq<Edge>, root: Endpoint) {
    && |now| == |es|
    && forall i :: 0 <= i < |es| ==>
         now[i] == es[i] || (Doomed(es, root, es[i]) && now[i] == es[i].(live := false))
  }

  /** `rep` lists the children of exactly the edges killed so far, each reached from the root. */
  ghost predicate Reports(es: seq<Edge>, now: seq<Edge>, root: Endpoint, rep: seq<Endpoint>) {
    && |now| == |es|
    && (forall i :: 0 <= i < |es| && es[i].live && !now[i].live ==> es[i].child in rep)
    && (forall r :: r in rep ==> Reach(Links(es), root, r))
    && multiset(rep) == Killed(es, now)
    && LiveCount(now) + |rep| == LiveCount(es)
  }

  /** Part of the way through a revocation. */
  ghost predicate RevokeInv(es: seq<Edge>, now: seq<Edge>, root: Endpoint, rep: seq<Endpoint>) {
    Marks(es, now, root) && Reports(es, now, root, rep)
  }

  lemma {:induction false} NothingKilled(es: seq<Edge>)
    ensures Killed(es, es) == multiset{}
  {
    if es != [] { NothingKilled(es[..|es| - 1]); }
  }

  lemma {:induction false} KilledUpdate(es: seq<Edge>, now: seq<Edge>, now': seq<Edge>, i: nat)
    requires |es| == |now| == |now'| && i < |es|
    requires es[i].live && now[i].live && !now'[i].live
    requires forall j :: 0 <= j < |es| && j != i ==> now'[j] == now[j]
    ensures Killed(es, now') == Killed(es, now) + multiset{es[i].child}
  {
    var n := |es| - 1;
    if i == n {
      assert now'[..n] == now[..n];
    } else {
      KilledUpdate(es[..n], now[..n], now'[..n], i);
    }
  }

  lemma {:induction false} KillOne(es: seq<Edge>, now: seq<Edge>, root: Endpoint, rep: seq<Endpoint>, i: nat)
    requires RevokeInv(es, now, root, rep)
    requires i < |now| && now[i].live && (now[i].parent == root || now[i].parent in rep)
    ensures |rep| < |es|
    ensures RevokeInv(es, now[i := now[i].(live := false)], root, rep + [now[i].child])
    ensures LiveCount(now[i := now[i].(live := false)]) < LiveCount(now)
  {
    var now' := now[i := now[i].(live := false)];
    var child := es[i].child;
    assert now[i] == es[i] && Doomed(es, root, es[i]);
    CountFull(es);
    CountUpdate(now, i, now'[i]);
    KilledUpdate(es, now, now', i);
    assert (es[i].parent, child) in Links(es);
    if es[i].parent == root { LinkReaches(Links(es), root, child); }
    else { ReachExtends(Links(es), root, es[i].parent, child); }
  }

  /** When a pass finds nothing left to kill, everything doomed is dead. */
  lemma {:induction false} FixpointIsRevoked(es: seq<Edge>, now: seq<Edge>, root: Endpoint, rep: seq<Endpoint>)
    requires RevokeInv(es, now, root, rep)
    requires forall j :: 0 <= j < |now| && now[j].live ==> now[j].parent != root && now[j].parent !in rep
    ensures now == Revoked(es, root)
  {
    forall i | 0 <= i < |es| && Doomed(es, root, es[i]) ensures !now[i].live {
      if now[i].live {
        var S := iset z | z in rep;
        forall l | l in Links(es) && (l.0 == root || l.0 in S) ensures l.1 in S {
          var j :| 0 <= j < |es| && es[j].live && l == (es[j].parent, es[j].child);
        }
        ReachStaysIn(Links(es), root, es[i].parent, S);
      }
    }
  }
}
