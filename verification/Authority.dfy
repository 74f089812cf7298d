/** Who may do what, and from whom they got it: every live process's capabilities, the delegation
    ledger the kernel keeps, and the full history the ledger stands in for. */
module Authority {
  import opened Abi
  import opened Basics
  import opened Graph
  import opened Deleg
  import opened Capabilities

  /** How a capability came to be: minted or granted at boot (no parent), or delegated from the
      capability born as `parent`. A birth's position in the history is that capability's stamp;
      a slot refilled after being emptied carries a new one. */
  datatype Birth = Birth(cap: Cap, parent: Option<nat>)

  /** One process-table slot, as far as authority is concerned. */
  datatype Space = Space(live: bool, id: nat, caps: seq<Cap>, stamps: seq<nat>)

  datatype Auth = Auth(spaces: seq<Space>, edges: seq<Edge>, hist: seq<Birth>, nextId: nat)

  // ------------------------------------------------------------------- the history

  /** `child` confers no more than `parent`, over the same thing. */
  predicate Derives(parent: Cap, child: Cap) {
    child.ty == parent.ty && child.obj == parent.obj && Contains(parent.rights, child.rights)
  }

  /** The capability born as `d` descends from the one born as `a`, through any number of
      delegations, whatever became of the capabilities in between. */
  ghost predicate Ancestor(h: seq<Birth>, a: nat, d: nat)
    decreases d
  {
    d < |h| && h[d].parent.Some? && h[d].parent.value < d
    && (h[d].parent.value == a || Ancestor(h, a, h[d].parent.value))
  }

  ghost predicate HistoryOk(h: seq<Birth>) {
    forall k :: 0 <= k < |h| && h[k].parent.Some? ==>
      h[k].parent.value < k && Derives(h[h[k].parent.value].cap, h[k].cap)
  }

  lemma {:induction false} DerivesTransitive(x: Cap, y: Cap, z: Cap)
    requires Derives(x, y) && Derives(y, z)
    ensures Derives(x, z)
  {
    ContainsIsPartialOrder(x.rights, y.rights, z.rights);
  }

  lemma {:induction false} AncestorDerives(h: seq<Birth>, a: nat, d: nat)
    requires HistoryOk(h) && Ancestor(h, a, d)
    ensures a < d < |h| && Derives(h[a].cap, h[d].cap)
    decreases d
  {
    var p := h[d].parent.value;
    if p != a {
      AncestorDerives(h, a, p);
      DerivesTransitive(h[a].cap, h[p].cap, h[d].cap);
    }
  }

  lemma {:induction false} AncestorExtends(h: seq<Birth>, b: Birth, a: nat, d: nat)
    requires d < |h|
    ensures Ancestor(h + [b], a, d) <==> Ancestor(h, a, d)
    decreases d
  {
    if h[d].parent.Some? && h[d].parent.value < d {
      AncestorExtends(h, b, a, h[d].parent.value);
    }
  }

  lemma {:induction false} AncestorBounds(h: seq<Birth>, a: nat, d: nat)
    requires Ancestor(h, a, d)
    ensures a < d < |h|
    decreases d
  {
    if h[d].parent.value != a { AncestorBounds(h, a, h[d].parent.value); }
  }

  /** One more birth: everyone keeps their ancestors, and the newcomer has its parent and its
      parent's ancestors. */
  lemma {:induction false} AncestorBorn(h: seq<Birth>, b: Birth, a: nat, d: nat)
    requires b.parent.Some? ==> b.parent.value < |h|
    requires d <= |h|
    ensures Ancestor(h + [b], a, d) <==>
            if d < |h| then Ancestor(h, a, d)
            else b.parent.Some? && (b.parent.value == a || Ancestor(h, a, b.parent.value))
  {
    if d < |h| { AncestorExtends(h, b, a, d); }
    else if b.parent.Some? { AncestorExtends(h, b, a, b.parent.value); }
  }

  // ------------------------------------------------------------------- capabilities in place

  predicate Occupied(a: Auth, e: Endpoint) {
    && e.proc < |a.spaces| && a.spaces[e.proc].live && a.spaces[e.proc].id == e.id
    && e.cap < |a.spaces[e.proc].caps| && a.spaces[e.proc].caps[e.cap].ty != Null
  }

  function CapAt(a: Auth, e: Endpoint): Cap
    requires Occupied(a, e)
  {
    a.spaces[e.proc].caps[e.cap]
  }

  /** The capability in an occupied slot, as the history knows it. */
  function StampAt(a: Auth, e: Endpoint): nat {
    if e.proc < |a.spaces| && e.cap < |a.spaces[e.proc].stamps| then a.spaces[e.proc].stamps[e.cap] else 0
  }

  // ------------------------------------------------------------------- the invariant

  ghost predicate Shaped(a: Auth) {
    && (forall p :: 0 <= p < |a.spaces| ==> |a.spaces[p].caps| == |a.spaces[p].stamps| == CAP_SLOTS)
    && (forall p :: 0 <= p < |a.spaces| && a.spaces[p].live ==> a.spaces[p].id < a.nextId)
  }

  /** Every capability in place is one the history records, and no two places share a birth. */
  ghost predicate Stamped(a: Auth) {
    && (forall e :: Occupied(a, e) ==> StampAt(a, e) < |a.hist| && a.hist[StampAt(a, e)].cap == CapAt(a, e))
    && (forall e, f :: Occupied(a, e) && Occupied(a, f) && StampAt(a, e) == StampAt(a, f) ==> e == f)
  }

  /** The ledger names only capabilities in place, never loses rights upwards, and is a forest. */
  ghost predicate Named(a: Auth) {
    && IsForest(a.edges)
    && forall l :: l in Links(a.edges) ==>
         Occupied(a, l.0) && Occupied(a, l.1) && Derives(CapAt(a, l.0), CapAt(a, l.1))
  }

  /** A capability naming region `r`. */
  predicate OverRegion(cap: Cap, r: nat) {
    cap.ty == RegionCap && cap.obj == r
  }

  /** The ledger joins two capabilities in place exactly when one descends from the other in the
      full history. While region `r` is being swept, capabilities over it are exempt. */
  ghost predicate TracksBut(a: Auth, sweeping: Option<nat>) {
    forall e, f :: Occupied(a, e) && Occupied(a, f)
                   && (sweeping.Some? ==> !OverRegion(CapAt(a, e), sweeping.value)) ==>
      (Reach(Links(a.edges), e, f) <==> Ancestor(a.hist, StampAt(a, e), StampAt(a, f)))
  }

  /** The capability an endpoint names was delegated, not granted at boot or minted. */
  predicate Given(a: Auth, e: Endpoint) {
    StampAt(a, e) < |a.hist| && a.hist[StampAt(a, e)].parent.Some?
  }

  /** A process that was given a capability has nothing else but what it minted itself: spawning
      hands over at most one, to a process that had none, and only regions are minted. */
  ghost predicate Lone(a: Auth) {
    forall e, f :: Occupied(a, e) && Occupied(a, f) && e.proc == f.proc && e != f && Given(a, e) ==>
      CapAt(a, f).ty == RegionCap && !Given(a, f)
  }

  ghost predicate SoundBut(a: Auth, sweeping: Option<nat>) {
    Shaped(a) && HistoryOk(a.hist) && Stamped(a) && Named(a) && TracksBut(a, sweeping) && Lone(a)
  }

  ghost predicate Sound(a: Auth) {
    SoundBut(a, None)
  }

  /** Whatever is in place in `b` was in place in `a`, with the same history. */
  ghost predicate Keeps(a: Auth, b: Auth) {
    b.hist == a.hist
    && forall e :: Occupied(b, e) ==> Occupied(a, e) && CapAt(b, e) == CapAt(a, e) && StampAt(b, e) == StampAt(a, e)
  }

  lemma {:induction false} KeepsStamped(a: Auth, b: Auth)
    requires Stamped(a) && Lone(a) && Keeps(a, b)
    ensures Stamped(b) && Lone(b)
  {
    hide Occupied, CapAt, StampAt;
  }

  /** Some capabilities are emptied out of their slots, and nothing else about the spaces changes. */
  ghost predicate Less(a: Auth, b: Auth) {
    |b.spaces| == |a.spaces| && b.nextId == a.nextId && Keeps(a, b)
  }

  // ------------------------------------------------------------------- putting a capability in place

  function Placed(sp: Space, c: nat, cap: Cap, stamp: nat): Space
    requires c < |sp.caps| && c < |sp.stamps|
  {
    sp.(caps := sp.caps[c := cap], stamps := sp.stamps[c := stamp])
  }

  /** A capability made from nothing but the authority to make it, in the first free slot. */
  function Minted(a: Auth, p: nat, cap: Cap): Auth
    requires p < |a.spaces| && |a.spaces[p].caps| == |a.spaces[p].stamps| == CAP_SLOTS
  {
    var f := FirstFree(a.spaces[p].caps);
    if cap.ty != Null && f < CAP_SLOTS
    then a.(spaces := a.spaces[p := Placed(a.spaces[p], f, cap, |a.hist|)], hist := a.hist + [Birth(cap, None)])
    else a
  }

  function Blank(id: nat): Space {
    Space(true, id, seq(CAP_SLOTS, _ => EMPTY_CAP), seq(CAP_SLOTS, _ => 0))
  }

  /** An identity used up by a load that failed. */
  function Burned(a: Auth): Auth {
    a.(nextId := a.nextId + 1)
  }

  lemma {:induction false} BurnedSound(a: Auth)
    requires Sound(a)
    ensures Sound(Burned(a))
  {
    hide Reach, Links, IsForest, Derives, Ancestor, Stamped, Lone, Given;
    var b := Burned(a);
    assert forall e :: Occupied(b, e) <==> Occupied(a, e);
    KeepsStamped(a, b);
  }

  /** A new process with no authority at all, under a fresh identity. */
  function Born(a: Auth, p: nat): Auth
    requires p < |a.spaces|
  {
    a.(spaces := a.spaces[p := Blank(a.nextId)], nextId := a.nextId + 1)
  }

  /** A new process whose first slot holds what was delegated to it from slot `c` of process `q`. */
  function Delegated(a: Auth, q: nat, c: nat, p: nat, rights: Rights): Auth
    requires q < |a.spaces| && p < |a.spaces| && c < |a.spaces[q].caps| == |a.spaces[q].stamps|
  {
    var b := Born(a, p);
    var cap := a.spaces[q].caps[c].(rights := rights);
    b.(spaces := b.spaces[p := Placed(b.spaces[p], 0, cap, |a.hist|)],
       edges := Recorded(a.edges, Endpoint(q, a.spaces[q].id, c), Endpoint(p, a.nextId, 0)),
       hist := a.hist + [Birth(cap, Some(a.spaces[q].stamps[c]))])
  }

  // ------------------------------------------------------------------- taking capabilities away

  /** `b` is `a` after revoking everything derived from `root`: the ledger loses every link below
      it, and exactly the slots it reaches are emptied. */
  ghost predicate RevokedFrom(a: Auth, b: Auth, root: Endpoint) {
    && Less(a, b) && Shaped(b)
    && b.edges == Revoked(a.edges, root)
    && forall e :: Occupied(b, e) <==> Occupied(a, e) && !Reach(Links(a.edges), root, e)
  }

  /** One capability emptied, and every edge naming its slot forgotten. */
  function Dropped(a: Auth, p: nat, c: nat): Auth
    requires p < |a.spaces| && c < |a.spaces[p].caps|
  {
    a.(spaces := a.spaces[p := a.spaces[p].(caps := Emptied(a.spaces[p].caps, c))],
       edges := Forgotten(a.edges, Endpoint(p, a.spaces[p].id, c)))
  }

  /** A dead process: its space is no longer anybody's, and the ledger no longer names it. */
  function Died(a: Auth, p: nat): Auth
    requires p < |a.spaces|
  {
    a.(spaces := a.spaces[p := a.spaces[p].(live := false)], edges := Spliced(a.edges, p, a.spaces[p].id))
  }

  // ------------------------------------------------------------------- links carry one kind of authority

  ghost predicate SameKind(a: Auth, e: Endpoint, f: Endpoint) {
    Occupied(a, e) && Occupied(a, f) && CapAt(a, e).ty == CapAt(a, f).ty && CapAt(a, e).obj == CapAt(a, f).obj
  }

  // ------------------------------------------------------------------- one more capability

  /** `b` is `a` with one more capability in place, at `y`, and one more birth. */
  ghost predicate Grows(a: Auth, b: Auth, y: Endpoint, birth: Birth) {
    && Shaped(b) && b.hist == a.hist + [birth]
    && !Occupied(a, y) && Occupied(b, y) && CapAt(b, y) == birth.cap && StampAt(b, y) == |a.hist|
    && (forall e :: Occupied(b, e) <==> Occupied(a, e) || e == y)
    && (forall e :: Occupied(a, e) ==> CapAt(b, e) == CapAt(a, e) && StampAt(b, e) == StampAt(a, e))
  }

  lemma {:induction false} Unlinked(a: Auth, y: Endpoint)
    requires Named(a) && !Occupied(a, y)
    ensures forall l :: l in Links(a.edges) ==> l.0 != y && l.1 != y
    ensures forall e :: !Reach(Links(a.edges), e, y) && !Reach(Links(a.edges), y, e)
  {
    forall e ensures !Reach(Links(a.edges), e, y) && !Reach(Links(a.edges), y, e) {
      if Reach(Links(a.edges), e, y) { var c := LastLink(Links(a.edges), e, y); }
      if Reach(Links(a.edges), y, e) { var c := FirstLink(Links(a.edges), y, e); }
    }
  }

  /** Nobody with process `p` was given anything. */
  ghost predicate Ungiven(a: Auth, p: nat) {
    forall e :: Occupied(a, e) && e.proc == p ==> !Given(a, e)
  }

  lemma {:induction false} GrowsLone(a: Auth, b: Auth, y: Endpoint, birth: Birth)
    requires Stamped(a) && Lone(a) && Grows(a, b, y, birth)
    requires if birth.parent.Some? then forall e :: Occupied(a, e) ==> e.proc != y.proc
             else birth.cap.ty == RegionCap || Ungiven(a, y.proc)
    ensures Lone(b)
  {
    hide Occupied, CapAt, StampAt, Shaped;
    forall e | Occupied(a, e) ensures Given(b, e) <==> Given(a, e) {}
  }

  /** A root birth: the ledger is untouched. */
  lemma {:induction false} RootSound(a: Auth, b: Auth, y: Endpoint, cap: Cap)
    requires Sound(a) && Grows(a, b, y, Birth(cap, None)) && b.edges == a.edges
    requires cap.ty == RegionCap || Ungiven(a, y.proc)
    ensures Sound(b)
  {
    hide Reach, Links, IsForest, Derives, Occupied, CapAt, StampAt, Shaped, Lone, Given;
    Unlinked(a, y);
    GrowsLone(a, b, y, Birth(cap, None));
    forall e, f | Occupied(b, e) && Occupied(b, f)
      ensures Reach(Links(b.edges), e, f) <==> Ancestor(b.hist, StampAt(b, e), StampAt(b, f))
    {
      AncestorBorn(a.hist, Birth(cap, None), StampAt(b, e), StampAt(b, f));
      if e == y && Ancestor(b.hist, StampAt(b, e), StampAt(b, f)) {
        AncestorBounds(b.hist, StampAt(b, e), StampAt(b, f));
      }
    }
  }

  /** A delegation from `x`: the ledger gains the one edge, and joins the newcomer to exactly the
      ancestors of `x` and to `x`. */
  lemma {:induction false} ChildSound(a: Auth, b: Auth, x: Endpoint, y: Endpoint, cap: Cap)
    requires Sound(a) && Occupied(a, x) && Derives(CapAt(a, x), cap)
    requires Grows(a, b, y, Birth(cap, Some(StampAt(a, x))))
    requires LiveCount(a.edges) < |a.edges| && b.edges == Recorded(a.edges, x, y)
    requires forall e :: Occupied(a, e) ==> e.proc != y.proc
    ensures Sound(b)
  {
    hide Reach, Links, IsForest, Derives, Occupied, CapAt, StampAt, Shaped, Recorded, Lone, Given;
    Unlinked(a, y);
    GrowsLone(a, b, y, Birth(cap, Some(StampAt(a, x))));
    RecordedForest(a.edges, x, y);
    RecordedLinks(a.edges, x, y);
    var birth := Birth(cap, Some(StampAt(a, x)));
    forall e, f | Occupied(b, e) && Occupied(b, f)
      ensures Reach(Links(b.edges), e, f) <==> Ancestor(b.hist, StampAt(b, e), StampAt(b, f))
    {
      AncestorBorn(a.hist, birth, StampAt(b, e), StampAt(b, f));
      if e == y && Ancestor(b.hist, StampAt(b, e), StampAt(b, f)) {
        AncestorBounds(b.hist, StampAt(b, e), StampAt(b, f));
      }
    }
  }

  lemma {:induction false} MintedGrows(a: Auth, p: nat, cap: Cap)
    requires Sound(a) && p < |a.spaces| && a.spaces[p].live
    requires cap.ty != Null && FirstFree(a.spaces[p].caps) < CAP_SLOTS
    ensures Grows(a, Minted(a, p, cap), Endpoint(p, a.spaces[p].id, FirstFree(a.spaces[p].caps)), Birth(cap, None))
  {
    hide HistoryOk, Stamped, Named, TracksBut, Lone;
    assert a.spaces[p].caps[FirstFree(a.spaces[p].caps)].ty == Null;
  }

  /** Minting adds one root to the history and nothing to the ledger. */
  lemma {:induction false} MintedSound(a: Auth, p: nat, cap: Cap)
    requires Sound(a) && p < |a.spaces| && a.spaces[p].live
    requires cap.ty == RegionCap || Ungiven(a, p)
    ensures Sound(Minted(a, p, cap))
  {
    hide Sound, Grows, Ungiven;
    assert Shaped(a) by { Unfold(a); }
    if cap.ty != Null && FirstFree(a.spaces[p].caps) < CAP_SLOTS {
      MintedGrows(a, p, cap);
      RootSound(a, Minted(a, p, cap), Endpoint(p, a.spaces[p].id, FirstFree(a.spaces[p].caps)), cap);
    }
  }

  lemma {:induction false} Unfold(a: Auth)
    ensures Sound(a) <==> Shaped(a) && HistoryOk(a.hist) && Stamped(a) && Named(a) && TracksBut(a, None) && Lone(a)
  {}

  /** A process with no capabilities adds nothing to anybody's authority. */
  lemma {:induction false} BornSound(a: Auth, p: nat)
    requires Sound(a) && p < |a.spaces| && !a.spaces[p].live
    ensures Sound(Born(a, p))
  {
    hide Reach, Links, IsForest, Derives, Ancestor, Stamped, Lone, Given, Contains;
    var b := Born(a, p);
    assert forall e :: Occupied(b, e) <==> Occupied(a, e);
    KeepsStamped(a, b);
  }

  lemma {:induction false} BornUngiven(a: Auth, p: nat)
    requires p < |a.spaces|
    ensures Ungiven(Born(a, p), p)
  {}

  lemma {:induction false} MintedUngiven(a: Auth, p: nat, cap: Cap)
    requires Sound(a) && p < |a.spaces| && a.spaces[p].live && Ungiven(a, p)
    ensures Ungiven(Minted(a, p, cap), p)
  {
    hide Named, TracksBut, HistoryOk, Lone;
  }

  /** Spawning with a delegated capability keeps the ledger standing in for the history. */
  lemma {:induction false} DelegatedSound(a: Auth, q: nat, c: nat, p: nat, rights: Rights)
    requires Sound(a) && p < |a.spaces| && !a.spaces[p].live
    requires q < |a.spaces| && c < CAP_SLOTS && Occupied(a, Endpoint(q, a.spaces[q].id, c))
    requires Contains(a.spaces[q].caps[c].rights, rights)
    requires LiveCount(a.edges) < |a.edges|
    ensures Sound(Delegated(a, q, c, p, rights))
  {
    hide Named, TracksBut, HistoryOk, Contains, Recorded, Lone;
    var b := Delegated(a, q, c, p, rights);
    var x, y := Endpoint(q, a.spaces[q].id, c), Endpoint(p, a.nextId, 0);
    var cap := a.spaces[q].caps[c].(rights := rights);
    assert Grows(a, b, y, Birth(cap, Some(StampAt(a, x))));
    ChildSound(a, b, x, y, cap);
  }

  // ------------------------------------------------------------------- revocation

  /** What a revocation reaches is in place, and is exactly what the history says descends from
      the root. */
  lemma {:induction false} StruckAreDescendants(a: Auth, root: Endpoint, e: Endpoint)
    requires Sound(a) && Occupied(a, root)
    ensures Reach(Links(a.edges), root, e) ==> Occupied(a, e)
    ensures Occupied(a, e) ==> (Reach(Links(a.edges), root, e) <==> Ancestor(a.hist, StampAt(a, root), StampAt(a, e)))
  {
    hide Ancestor, Links, IsForest, Derives, Occupied, CapAt, StampAt;
    if Reach(Links(a.edges), root, e) { var c := LastLink(Links(a.edges), root, e); }
  }

  lemma {:induction false} RevokedNamed(a: Auth, b: Auth, root: Endpoint)
    requires Sound(a) && Occupied(a, root) && RevokedFrom(a, b, root)
    ensures Named(b)
  {
    hide Ancestor, Reach, Derives, Occupied, CapAt, StampAt, Links, Revoked, Shaped;
    RevokedReach(a.edges, root);
    RevokedForest(a.edges, root);
    forall l | l in Links(b.edges)
      ensures Occupied(b, l.0) && Occupied(b, l.1) && Derives(CapAt(b, l.0), CapAt(b, l.1))
    {
      if Reach(Links(a.edges), root, l.1) {
        OnlySource(a.edges, root, l);
      }
    }
  }

  /** In a forest, whatever reaches the end of a link starts at it or reaches it. */
  lemma {:induction false} OnlySource(es: seq<Edge>, root: Endpoint, l: Link<Endpoint>)
    requires IsForest(es) && l in Links(es) && Reach(Links(es), root, l.1)
    ensures l.0 == root || Reach(Links(es), root, l.0)
  {
    hide Reach;
    var c := LastLink(Links(es), root, l.1);
    ForestLinks(es);
    assert (c, l.1) in Links(es) && c == l.0;
  }

  /** Revocation empties exactly the surviving descendants and keeps the ledger exact for the rest. */
  lemma {:induction false} RevokedSound(a: Auth, b: Auth, root: Endpoint)
    requires Sound(a) && Occupied(a, root) && RevokedFrom(a, b, root)
    ensures Sound(b)
    ensures forall e :: Occupied(a, e) ==>
              (Occupied(b, e) <==> !Ancestor(a.hist, StampAt(a, root), StampAt(a, e)))
  {
    hide Ancestor, Reach, IsForest, Derives, Occupied, CapAt, StampAt, Links, Revoked, Shaped;
    RevokedNamed(a, b, root);
    KeepsStamped(a, b);
    RevokedReach(a.edges, root);
  }

  /** Empty the slot an endpoint names, if the same process is still there. */
  function Stricken(a: Auth, e: Endpoint): Auth {
    if e.proc < |a.spaces| && a.spaces[e.proc].live && a.spaces[e.proc].id == e.id
    then a.(spaces := a.spaces[e.proc := a.spaces[e.proc].(caps := Emptied(a.spaces[e.proc].caps, e.cap))])
    else a
  }

  function StrickenBy(a: Auth, order: seq<Endpoint>, n: nat): Auth
    requires n <= |order|
  {
    if n == 0 then a else Stricken(StrickenBy(a, order, n - 1), order[n - 1])
  }

  lemma {:induction false} StrickenIs(a: Auth, e: Endpoint)
    requires Shaped(a)
    ensures var b := Stricken(a, e);
            && Less(a, b) && Shaped(b) && b.edges == a.edges
            && forall f :: Occupied(b, f) <==> Occupied(a, f) && f != e
  {}

  lemma {:induction false} StrickenByIs(a: Auth, order: seq<Endpoint>, n: nat)
    requires Shaped(a) && n <= |order|
    ensures var b := StrickenBy(a, order, n);
            && Less(a, b) && Shaped(b) && b.edges == a.edges
            && forall f :: Occupied(b, f) <==> Occupied(a, f) && f !in order[..n]
  {
    hide Occupied, CapAt, StampAt, Stricken, Shaped;
    if n > 0 {
      StrickenByIs(a, order, n - 1);
      StrickenIs(StrickenBy(a, order, n - 1), order[n - 1]);
      assert order[..n] == order[..n - 1] + [order[n - 1]];
    }
  }

  /** What the ledger reports on a revocation is exactly what the root reaches. */
  lemma {:induction false} ReportedAreReached(es: seq<Edge>, root: Endpoint, x: Endpoint)
    ensures x in Killed(es, Revoked(es, root)) <==> Reach(Links(es), root, x)
  {
    hide Reach, Killed, Links;
    KilledChildren(es, Revoked(es, root), x);
    if Reach(Links(es), root, x) {
      var c := LastLink(Links(es), root, x);
      var i := LinkEdge(es, c, x);
      assert Doomed(es, root, es[i]);
      assert KilledAt(es, Revoked(es, root), i, x);
    }
    if i: nat :| KilledAt(es, Revoked(es, root), i, x) {
      EdgeLink(es, i);
      if es[i].parent == root { LinkReaches(Links(es), root, x); }
      else { ReachExtends(Links(es), root, es[i].parent, x); }
    }
  }

  lemma {:induction false} EdgeLink(es: seq<Edge>, i: nat)
    requires i < |es| && es[i].live
    ensures (es[i].parent, es[i].child) in Links(es)
  {}

  lemma {:induction false} LinkEdge(es: seq<Edge>, c: Endpoint, x: Endpoint) returns (i: nat)
    requires (c, x) in Links(es)
    ensures i < |es| && es[i].live && es[i].parent == c && es[i].child == x
  {
    i :| 0 <= i < |es| && es[i].live && (c, x) == (es[i].parent, es[i].child);
  }

  predicate KilledAt(es: seq<Edge>, es': seq<Edge>, i: nat, x: Endpoint)
    requires |es| == |es'|
  {
    i < |es| && es[i].live && !es'[i].live && es[i].child == x
  }

  lemma {:induction false} KilledLast(es: seq<Edge>, es': seq<Edge>, x: Endpoint)
    requires |es| == |es'| > 0
    ensures var n := |es| - 1;
            x in Killed(es, es') <==> x in Killed(es[..n], es'[..n]) || KilledAt(es, es', n, x)
  {}

  lemma {:induction false} KilledBefore(es: seq<Edge>, es': seq<Edge>, i: nat, x: Endpoint)
    requires |es| == |es'| && i < |es| - 1
    ensures KilledAt(es[..|es| - 1], es'[..|es| - 1], i, x) <==> KilledAt(es, es', i, x)
  {}

  lemma {:induction false} KilledChildren(es: seq<Edge>, es': seq<Edge>, x: Endpoint)
    requires |es| == |es'|
    ensures x in Killed(es, es') ==> exists i :: KilledAt(es, es', i, x)
    ensures forall i: nat :: KilledAt(es, es', i, x) ==> x in Killed(es, es')
  {
    if es != [] {
      var n := |es| - 1;
      KilledChildren(es[..n], es'[..n], x);
      KilledLast(es, es', x);
      if i: nat :| KilledAt(es[..n], es'[..n], i, x) { KilledBefore(es, es', i, x); }
      forall i: nat | KilledAt(es, es', i, x) ensures x in Killed(es, es') {
        if i < n { KilledBefore(es, es', i, x); }
      }
    }
  }

  /** Emptying every reported slot, in whatever order, is the revocation. */
  lemma {:induction false} StrickenIsRevoked(a: Auth, root: Endpoint, order: seq<Endpoint>)
    requires Sound(a)
    requires multiset(order) == Killed(a.edges, Revoked(a.edges, root))
    ensures RevokedFrom(a, StrickenBy(a.(edges := Revoked(a.edges, root)), order, |order|), root)
  {
    hide Occupied, CapAt, StampAt, Stricken, Reach, Revoked, Links, StrickenBy, Killed, HistoryOk, Stamped, Named, TracksBut, Lone;
    var c := a.(edges := Revoked(a.edges, root));
    SpacesDecide(a, c);
    StrickenByIs(c, order, |order|);
    assert order[..|order|] == order;
    forall e ensures e in order <==> Reach(Links(a.edges), root, e) {
      ReportedAreReached(a.edges, root, e);
      assert e in order <==> e in multiset(order);
    }
  }

  /** Where capabilities are does not depend on the ledger. */
  lemma {:induction false} SpacesDecide(a: Auth, c: Auth)
    requires c.spaces == a.spaces && c.nextId == a.nextId && Shaped(a)
    ensures Shaped(c)
    ensures forall e :: (Occupied(c, e) <==> Occupied(a, e)) && StampAt(c, e) == StampAt(a, e)
    ensures forall e :: Occupied(a, e) ==> CapAt(c, e) == CapAt(a, e)
  {}

  /** Whoever holds something on the list has nothing else but regions. */
  ghost predicate LoneAmong(a: Auth, order: seq<Endpoint>) {
    forall k, f :: 0 <= k < |order| && Occupied(a, f) && f.proc == order[k].proc && f != order[k] ==>
      CapAt(a, f).ty == RegionCap
  }

  /** What a revocation reaches was given to its holder, who has nothing else but its own mint. */
  lemma {:induction false} ReachedAreLone(a: Auth, root: Endpoint, order: seq<Endpoint>)
    requires Sound(a) && Occupied(a, root)
    requires multiset(order) == Killed(a.edges, Revoked(a.edges, root))
    ensures LoneAmong(a, order)
  {
    hide Reach, Links, IsForest, Derives, Occupied, CapAt, StampAt, Killed, Revoked;
    forall k | 0 <= k < |order| ensures Occupied(a, order[k]) && Given(a, order[k]) {
      assert order[k] in multiset(order);
      ReportedAreReached(a.edges, root, order[k]);
      StruckAreDescendants(a, root, order[k]);
    }
  }

  // ------------------------------------------------------------------- death

  /** A death leaves the ledger exact for the survivors, even where the dead process stood between
      two of them. */
  lemma {:induction false} DiedSound(a: Auth, p: nat)
    requires Sound(a) && p < |a.spaces| && a.spaces[p].live
    ensures Sound(Died(a, p))
  {
    hide Ancestor, Reach, IsForest, Derives, CapAt, StampAt, Spliced, Occupied, Shaped, Links;
    SplicedForest(a.edges, p, a.spaces[p].id);
    DiedLess(a, p);
    KeepsStamped(a, Died(a, p));
    DiedNamed(a, p);
  }

  lemma {:induction false} DiedLess(a: Auth, p: nat)
    requires Shaped(a) && p < |a.spaces| && a.spaces[p].live
    ensures var b := Died(a, p);
            && Less(a, b) && Shaped(b) && b.hist == a.hist && b.edges == Spliced(a.edges, p, a.spaces[p].id)
            && (forall e :: Occupied(b, e) <==> Occupied(a, e) && !SameProc(e, p, a.spaces[p].id))
  {
    hide Spliced;
  }

  lemma {:induction false} DiedNamed(a: Auth, p: nat)
    requires Sound(a) && p < |a.spaces| && a.spaces[p].live
    ensures Named(Died(a, p))
  {
    hide Ancestor, Reach, IsForest, Spliced, TracksBut, HistoryOk, Contains, Stamped, Shaped;
    var b, id := Died(a, p), a.spaces[p].id;
    SplicedForest(a.edges, p, id);
    forall l | l in Links(b.edges)
      ensures Occupied(b, l.0) && Occupied(b, l.1) && Derives(CapAt(b, l.0), CapAt(b, l.1))
    {
      assert !SameProc(l.0, p, id) && !SameProc(l.1, p, id);
      LinkReaches(Links(b.edges), l.0, l.1);
      ReachDerives(a, l.0, l.1);
    }
  }

  lemma {:induction false} ReachDerives(a: Auth, e: Endpoint, f: Endpoint)
    requires Named(a) && Reach(Links(a.edges), e, f)
    ensures Occupied(a, e) && Occupied(a, f) && Derives(CapAt(a, e), CapAt(a, f))
  {
    hide IsForest, Links, Reach, Contains, Occupied, CapAt, Derives;
    var c := FirstLink(Links(a.edges), e, f);
    var S := iset g | Occupied(a, g) && Derives(CapAt(a, e), CapAt(a, g));
    forall l | l in Links(a.edges) && l.0 in S ensures l.1 in S {
      DerivesTransitive(CapAt(a, e), CapAt(a, l.0), CapAt(a, l.1));
    }
    ReachStaysIn(Links(a.edges), e, f, S);
  }

  // ------------------------------------------------------------------- sweeping a region

  /** Forgetting one capability over the region being swept disturbs nothing but capabilities over
      that region. */
  lemma {:induction false} DroppedSound(a: Auth, p: nat, c: nat, r: nat)
    requires SoundBut(a, Some(r)) && p < |a.spaces| && a.spaces[p].live && c < CAP_SLOTS
    requires OverRegion(a.spaces[p].caps[c], r)
    ensures SoundBut(Dropped(a, p, c), Some(r))
  {
    hide Ancestor, Reach, IsForest, Derives, Forgotten, Links, CapAt, StampAt, OverRegion;
    var b := Dropped(a, p, c);
    var y := Endpoint(p, a.spaces[p].id, c);
    DroppedLess(a, p, c);
    KeepsStamped(a, b);
    DroppedWas(a, p, c, r);
    ForgottenLinks(a.edges, y);
    forall e, f | Occupied(b, e) && Occupied(b, f) && !OverRegion(CapAt(b, e), r)
      ensures Reach(Links(b.edges), e, f) <==> Ancestor(b.hist, StampAt(b, e), StampAt(b, f))
    {
      AroundDropped(a, b, r, y, e, f);
    }
  }

  lemma {:induction false} DroppedWas(a: Auth, p: nat, c: nat, r: nat)
    requires Shaped(a) && p < |a.spaces| && a.spaces[p].live && c < CAP_SLOTS
    requires OverRegion(a.spaces[p].caps[c], r)
    ensures var y := Endpoint(p, a.spaces[p].id, c); Occupied(a, y) && OverRegion(CapAt(a, y), r)
  {}

  lemma {:induction false} DroppedLess(a: Auth, p: nat, c: nat)
    requires Shaped(a) && p < |a.spaces| && a.spaces[p].live && c < CAP_SLOTS
    ensures var b, y := Dropped(a, p, c), Endpoint(p, a.spaces[p].id, c);
            Less(a, b) && Shaped(b) && forall e :: Occupied(b, e) <==> Occupied(a, e) && e != y
  {}

  /** A walk from a capability over something else never passes the dropped one. */
  lemma {:induction false} AroundDropped(a: Auth, b: Auth, r: nat, y: Endpoint, e: Endpoint, f: Endpoint)
    requires Named(a) && Occupied(a, e) && !OverRegion(CapAt(a, e), r)
    requires Occupied(a, y) && OverRegion(CapAt(a, y), r)
    requires forall l :: l in Links(b.edges) <==> l in Links(a.edges) && l.0 != y && l.1 != y
    ensures Reach(Links(b.edges), e, f) <==> Reach(Links(a.edges), e, f)
  {
    hide Reach, IsForest, Links;
    var E, F := Links(a.edges), Links(b.edges);
    if Reach(F, e, f) { ReachMonotone(F, E, e, f); }
    if Reach(E, e, f) {
      var S := iset g | Reach(F, e, g) && SameKind(a, e, g);
      forall l | l in E && (l.0 == e || l.0 in S) ensures l.1 in S {
        assert SameKind(a, e, l.1);
        assert l in F;
        if l.0 == e { LinkReaches(F, e, l.1); } else { ReachExtends(F, e, l.0, l.1); }
      }
      ReachStaysIn(E, e, f, S);
    }
  }

  predicate Before(e: Endpoint, p: nat, c: int) {
    e.proc < p || (e.proc == p && e.cap < c)
  }

  /** The sweep of one region over every capability space, slot by slot. */
  ghost function SweptTo(a: Auth, r: nat, p: nat, c: nat): (b: Auth)
    requires p <= |a.spaces|
    ensures |b.spaces| == |a.spaces| && b.hist == a.hist && b.nextId == a.nextId
    ensures forall q :: 0 <= q < |a.spaces| ==>
              b.spaces[q].live == a.spaces[q].live && b.spaces[q].id == a.spaces[q].id && b.spaces[q].stamps == a.spaces[q].stamps
              && |b.spaces[q].caps| == |a.spaces[q].caps|
    decreases p, c
  {
    if c == 0 then
      if p == 0 then a else SweptTo(a, r, p - 1, CAP_SLOTS)
    else
      var b := SweptTo(a, r, p, c - 1);
      if p < |b.spaces| && b.spaces[p].live && c - 1 < |b.spaces[p].caps| && OverRegion(b.spaces[p].caps[c - 1], r)
      then Dropped(b, p, c - 1) else b
  }

  ghost function Swept(a: Auth, r: nat): Auth {
    SweptTo(a, r, |a.spaces|, 0)
  }

  lemma {:induction false} SweptToSound(a: Auth, r: nat, p: nat, c: nat)
    requires p <= |a.spaces| && c <= CAP_SLOTS && SoundBut(a, Some(r))
    ensures SoundBut(SweptTo(a, r, p, c), Some(r))
    ensures var b := SweptTo(a, r, p, c);
            && Less(a, b)
            && (forall e :: Occupied(b, e) <==> Occupied(a, e) && !(OverRegion(CapAt(a, e), r) && Before(e, p, c)))
    decreases p, c
  {
    hide SoundBut, Dropped, OverRegion;
    var b := SweptTo(a, r, p, c);
    SweptShape(a, r);
    if c > 0 {
      SweptToSound(a, r, p, c - 1);
      var m := SweptTo(a, r, p, c - 1);
      SweptShape(m, r);
      SweptNext(a, m, r, p, c);
    } else if p > 0 {
      SweptToSound(a, r, p - 1, CAP_SLOTS);
    }
  }

  lemma {:induction false} SweptShape(a: Auth, r: nat)
    requires SoundBut(a, Some(r))
    ensures Shaped(a)
  {}

  lemma {:induction false} SweptNext(a: Auth, m: Auth, r: nat, p: nat, c: nat)
    requires p <= |a.spaces| && 0 < c <= CAP_SLOTS && SoundBut(m, Some(r)) && Shaped(a)
    requires Less(a, m)
    requires forall e :: Occupied(m, e) <==> Occupied(a, e) && !(OverRegion(CapAt(a, e), r) && Before(e, p, c - 1))
    ensures var b := if p < |m.spaces| && m.spaces[p].live && c - 1 < |m.spaces[p].caps|
                        && OverRegion(m.spaces[p].caps[c - 1], r) then Dropped(m, p, c - 1) else m;
            && SoundBut(b, Some(r)) && Less(a, b)
            && (forall e :: Occupied(b, e) <==> Occupied(a, e) && !(OverRegion(CapAt(a, e), r) && Before(e, p, c)))
  {
    hide SoundBut, Dropped, Forgotten;
    SweptShape(m, r);
    if p < |m.spaces| && m.spaces[p].live && OverRegion(m.spaces[p].caps[c - 1], r) {
      DroppedSound(m, p, c - 1, r);
      DroppedLess(m, p, c - 1);
      assert Occupied(m, Endpoint(p, m.spaces[p].id, c - 1));
    }
  }

  lemma {:induction false} DroppedCaps(a: Auth, p: nat, c: nat, q: nat, k: nat)
    requires p < |a.spaces| && c < |a.spaces[p].caps| && q < |a.spaces| && k < |a.spaces[q].caps|
    ensures |Dropped(a, p, c).spaces| == |a.spaces| && |Dropped(a, p, c).spaces[q].caps| == |a.spaces[q].caps|
    ensures Dropped(a, p, c).spaces[q].caps[k] == if q == p && k == c then EMPTY_CAP else a.spaces[q].caps[k]
  {}

  /** A sweep slot by slot: every live process's capabilities over the region go, and only those. */
  lemma {:induction false} SweptToCaps(a: Auth, r: nat, p: nat, c: nat, q: nat, k: nat)
    requires p <= |a.spaces| && c <= CAP_SLOTS && q < |a.spaces| && k < |a.spaces[q].caps|
    requires forall x :: 0 <= x < |a.spaces| ==> |a.spaces[x].caps| == CAP_SLOTS
    ensures SweptTo(a, r, p, c).spaces[q].caps[k] ==
            if a.spaces[q].live && OverRegion(a.spaces[q].caps[k], r) && (q < p || (q == p && k < c))
            then EMPTY_CAP else a.spaces[q].caps[k]
    decreases p, c
  {
    hide Dropped, OverRegion;
    if c > 0 {
      var b := SweptTo(a, r, p, c - 1);
      SweptToCaps(a, r, p, c - 1, q, k);
      if p < |a.spaces| {
        SweptToCaps(a, r, p, c - 1, p, c - 1);
        DroppedCaps(b, p, c - 1, q, k);
      }
    } else if p > 0 {
      SweptToCaps(a, r, p - 1, CAP_SLOTS, q, k);
    }
  }

  /** `caps'` is `caps` without anything over the regions `gone`. */
  ghost predicate Cut(caps: seq<Cap>, caps': seq<Cap>, gone: iset<nat>) {
    && |caps'| == |caps|
    && forall k :: 0 <= k < |caps| ==>
         caps'[k] == if caps[k].ty == RegionCap && caps[k].obj in gone then EMPTY_CAP else caps[k]
  }

  lemma {:induction false} SweptCaps(a: Auth, r: nat, q: nat)
    requires q < |a.spaces| && forall x :: 0 <= x < |a.spaces| ==> |a.spaces[x].caps| == CAP_SLOTS
    ensures |Swept(a, r).spaces[q].caps| == CAP_SLOTS
    ensures a.spaces[q].live ==> Cut(a.spaces[q].caps, Swept(a, r).spaces[q].caps, iset{r})
  {
    hide SweptTo;
    SweptToCaps(a, r, |a.spaces|, 0, q, 0);
    forall k | 0 <= k < |a.spaces[q].caps|
      ensures Swept(a, r).spaces[q].caps[k] ==
              if a.spaces[q].live && OverRegion(a.spaces[q].caps[k], r) then EMPTY_CAP else a.spaces[q].caps[k]
    {
      SweptToCaps(a, r, |a.spaces|, 0, q, k);
    }
  }

  lemma {:induction false} CutTwice(x: seq<Cap>, y: seq<Cap>, z: seq<Cap>, g: iset<nat>, h: iset<nat>)
    requires Cut(x, y, g) && Cut(y, z, h)
    ensures Cut(x, z, g + h)
  {}

  /** What a cut takes away. */
  lemma {:induction false} CutHolds(caps: seq<Cap>, caps': seq<Cap>, gone: iset<nat>, ty: CapType, obj: nat, need: Rights)
    requires Cut(caps, caps', gone) && ty != Null
    ensures Holds(caps', ty, obj, need) <==> Holds(caps, ty, obj, need) && !(ty == RegionCap && obj in gone)
  {
    hide Contains;
    if Holds(caps', ty, obj, need) {
      var i :| 0 <= i < |caps'| && caps'[i].ty == ty && caps'[i].obj == obj && Contains(caps'[i].rights, need);
      assert caps[i] == caps'[i];
    }
    if Holds(caps, ty, obj, need) && !(ty == RegionCap && obj in gone) {
      var i :| 0 <= i < |caps| && caps[i].ty == ty && caps[i].obj == obj && Contains(caps[i].rights, need);
      assert caps'[i] == caps[i];
    }
  }

  /** A whole sweep: nothing over the region is left, nothing else is touched, and the ledger is
      exact again for everything. */
  lemma {:induction false} SweptSound(a: Auth, r: nat)
    requires Sound(a)
    ensures Sound(Swept(a, r))
    ensures Less(a, Swept(a, r))
    ensures forall e :: Occupied(Swept(a, r), e) <==> Occupied(a, e) && !OverRegion(CapAt(a, e), r)
  {
    hide Reach, Ancestor, Named, Stamped, Shaped, HistoryOk;
    SweptToSound(a, r, |a.spaces|, 0);
  }
}
