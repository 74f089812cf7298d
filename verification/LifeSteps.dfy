/** The kernel entries that take authority away, end processes and begin them keep the invariant. */
module LifeSteps {
  import opened Abi
  import opened Basics
  import opened Capabilities
  import opened Deleg
  import opened Sched
  import opened Machine
  import opened Invariant
  import opened MemorySteps
  import A = Authority
  import M = Memory
  import L = Lifetime
  import P = Plans
  import S = Supply
  import V = Rendezvous
  import R = Regions

  // ------------------------------------------------------------------- losing one capability

  /** Where a process may still read a region, whatever writable window it has is still backed: it
      has only one capability over any region. */
  lemma {:induction false} StillWritable(caps: seq<Cap>, c: nat, r: nat, next: nat)
    requires RegionCapsOk(caps, next)
    requires Holds(caps, RegionCap, r, WRITE) && Holds(Emptied(caps, c), RegionCap, r, READ)
    ensures Holds(Emptied(caps, c), RegionCap, r, WRITE)
  {
    hide Contains;
    var e := Emptied(caps, c);
    var a :| 0 <= a < |e| && e[a].ty == RegionCap && e[a].obj == r && Contains(e[a].rights, READ);
    var b :| 0 <= b < |caps| && caps[b].ty == RegionCap && caps[b].obj == r && Contains(caps[b].rights, WRITE);
    assert a == b && e[a] == caps[a];
  }

  /** What a stripped process keeps, its remaining capabilities still back. */
  lemma {:induction false} StrippedHeld(caps: seq<Cap>, c: nat, sp: M.Space, sp': M.Space, state: V.PState, own: Own,
                                        fired: seq<nat>, next: nat)
    requires Held(caps, sp, state, own, fired, next) && OnlyBar(caps, c)
    requires |sp'.shares| == |sp.shares| == |sp.windows| == |sp'.windows| && |sp'.dma| == |sp.dma|
    requires forall k :: 0 <= k < |sp.shares| ==>
               if LostShares(Emptied(caps, c), sp.shares)[k] then sp'.shares[k] == 0
               else sp'.shares[k] == sp.shares[k] && sp'.windows[k] == sp.windows[k]
    requires forall k :: 0 <= k < |sp.dma| ==>
               if LostRecords(Emptied(caps, c), sp.dma)[k] then sp'.dma[k].region == 0 else sp'.dma[k] == sp.dma[k]
    ensures var e := Emptied(caps, c);
            Held(e, sp', if StrandedByLoss(e, state) then V.Ready else state,
                 own.(bar := if HoldsMmio(e) then own.bar else None, irq := KeptLines(e, own.irq)), fired, next)
  {
    hide Holds, Emptied, HoldsMmio, BarHeld, OnlyBar;
    var e := Emptied(caps, c);
    forall ty, obj, need | ty != Null ensures Holds(e, ty, obj, need) ==> Holds(caps, ty, obj, need) {
      EmptiedKeeps(caps, c, ty, obj, need);
    }
    forall r | Holds(caps, RegionCap, r, WRITE) && Holds(e, RegionCap, r, READ) ensures Holds(e, RegionCap, r, WRITE) {
      StillWritable(caps, c, r, next);
    }
    EmptiedRegions(caps, c, next);
    if HoldsMmio(e) { EmptiedBar(caps, c, own.bar); } else { NoBar(e); }
  }

  lemma {:induction false} NoBar(caps: seq<Cap>)
    ensures BarHeld(caps, None)
  {}

  /** If slot `c` holds a device-window capability, it is the only one. */
  ghost predicate OnlyBar(caps: seq<Cap>, c: nat) {
    c < |caps| && caps[c].ty == Mmio ==> forall d :: 0 <= d < |caps| && d != c ==> caps[d].ty != Mmio
  }

  /** A window that survives the loss of a capability was not resting on it. */
  lemma {:induction false} EmptiedBar(caps: seq<Cap>, c: nat, bar: Option<Bar>)
    requires BarHeld(caps, bar) && OnlyBar(caps, c) && HoldsMmio(Emptied(caps, c))
    ensures BarHeld(Emptied(caps, c), bar)
  {
    hide Contains;
    var e := Emptied(caps, c);
    var d :| 0 <= d < |e| && e[d].ty == Mmio && Contains(e[d].rights, READ);
    if bar.Some? {
      var k :| 0 <= k < |caps| && Shows(caps[k], bar.value);
      assert e[k] == caps[k];
    }
  }

  lemma {:induction false} EmptiedRegions(caps: seq<Cap>, c: nat, next: nat)
    requires RegionCapsOk(caps, next)
    ensures RegionCapsOk(Emptied(caps, c), next)
  {}

  /** The memory half of a strip. */
  ghost function StrippedMem(s: State, p: nat): M.Mem
    requires Sized(s) && p < MAX_PROCS
  {
    var caps := Caps(s, p);
    var m := DropShares(s.mem, p, LostShares(caps, s.mem.spaces[p].shares), SHARE_SLOTS);
    var lost := LostRecords(caps, s.mem.spaces[p].dma);
    if |m.spaces[p].dma| == |lost| then L.Withdrew(m, p, lost) else m
  }

  lemma {:induction false} StrippedMemSound(s: State, ram: set<nat>, p: nat)
    requires Sized(s) && p < MAX_PROCS && M.Sound(s.mem, ram)
    ensures var m, caps, sp := StrippedMem(s, p), Caps(s, p), s.mem.spaces[p];
            && M.Sound(m, ram) && m.nextRegion == s.mem.nextRegion && |m.spaces| == MAX_PROCS
            && (forall j :: 0 <= j < MAX_PROCS && j != p ==> m.spaces[j] == s.mem.spaces[j])
            && m.spaces[p].live == sp.live && m.spaces[p].id == sp.id
            && |m.spaces[p].shares| == |m.spaces[p].windows| == |m.spaces[p].dma| == SHARE_SLOTS
            && (forall k :: 0 <= k < SHARE_SLOTS ==>
                  if LostShares(caps, sp.shares)[k] then m.spaces[p].shares[k] == 0
                  else m.spaces[p].shares[k] == sp.shares[k] && m.spaces[p].windows[k] == sp.windows[k])
            && (forall k :: 0 <= k < SHARE_SLOTS ==>
                  if LostRecords(caps, sp.dma)[k] then m.spaces[p].dma[k].region == 0 else m.spaces[p].dma[k] == sp.dma[k])
  {
    hide M.SoundBut, Holds, L.Withdrew, DropShares;
    var caps := Caps(s, p);
    var drop := LostShares(caps, s.mem.spaces[p].shares);
    DropSharesSound(s.mem, ram, false, p, drop, SHARE_SLOTS);
    var m := DropShares(s.mem, p, drop, SHARE_SLOTS);
    L.WithdrewSound(m, ram, p, LostRecords(caps, s.mem.spaces[p].dma));
  }

  /** `s` is `b` with one capability of process `p` emptied. */
  ghost predicate LostOne(b: State, s: State, p: nat, c: nat) {
    && Sized(b) && p < MAX_PROCS
    && s == b.(auth := b.auth.(spaces := b.auth.spaces[p := b.auth.spaces[p].(caps := Emptied(Caps(b, p), c))]))
  }

  lemma {:induction false} StrippedBody(b: State, s: State, ram: set<nat>, p: nat, c: nat)
    requires Body(b, ram) && LostOne(b, s, p, c) && Live(b, p) && Sized(s) && OnlyBar(Caps(b, p), c)
    ensures Body(Stripped(s, p), ram) && Stripped(s, p).auth == s.auth
    ensures forall j :: 0 <= j < MAX_PROCS && s.rv.ports[j].state.Ready? ==> Stripped(s, p).rv.ports[j] == s.rv.ports[j]
    ensures Stripped(s, p).mode == s.mode && Stripped(s, p).current == s.current
  {
    hide M.SoundBut, V.Sound, QueueIs, Held, Holds, HoldsMmio, StrandedByLoss, KeptLines, OnlyBar;
    StrippedMemSound(s, ram, p);
    var t := Stripped(s, p);
    assert t.mem == StrippedMem(s, p);
    assert HeldAt(b, p);
    StrippedHeld(Caps(b, p), c, b.mem.spaces[p], t.mem.spaces[p], b.rv.ports[p].state, b.own[p], b.fired, b.mem.nextRegion);
    if StrandedByLoss(Caps(s, p), s.rv.ports[p].state) {
      ReadyIsNotStranded(Caps(s, p));
      PortShape(s, p);
      AddQueue(s.run, s.rv.ports, p, t.rv.ports[p]);
      V.CalmSound(s.rv, p, t.rv.ports[p]);
    }
    forall j | 0 <= j < MAX_PROCS ensures HeldAt(t, j) && AgreeAt(t, j) {
      assert HeldAt(b, j) && AgreeAt(b, j);
    }
  }

  lemma {:induction false} ReadyIsNotStranded(caps: seq<Cap>)
    ensures !StrandedByLoss(caps, V.Ready) && !StrandedByLoss(caps, V.Free)
  {}

  /** Whoever holds what `e` names has no other device-window capability. */
  ghost predicate LoneAt(s: State, e: Endpoint) {
    e.proc < |s.auth.spaces| && s.auth.spaces[e.proc].live && s.auth.spaces[e.proc].id == e.id ==> OnlyBar(Caps(s, e.proc), e.cap)
  }

  /** What a revocation reports is, at each step of the way, the only thing of its kind. */
  lemma {:induction false} LoneOnTheWay(a: A.Auth, s: State, order: seq<Endpoint>, n: nat)
    requires A.LoneAmong(a, order) && A.Shaped(a) && n < |order| && s.auth == A.StrickenBy(a, order, n)
    ensures LoneAt(s, order[n])
  {
    hide A.StrickenBy, A.Shaped;
    A.StrickenByIs(a, order, n);
    var e, b := order[n], s.auth;
    if e.proc < |b.spaces| && b.spaces[e.proc].live && b.spaces[e.proc].id == e.id {
      forall d | 0 <= d < |b.spaces[e.proc].caps| && d != e.cap ensures b.spaces[e.proc].caps[d].ty != Mmio {
        var f := Endpoint(e.proc, e.id, d);
        if A.Occupied(b, f) { assert A.CapAt(b, f) == A.CapAt(a, f); }
      }
    }
  }

  lemma {:induction false} RevokeOneBody(s: State, ram: set<nat>, e: Endpoint)
    requires Body(s, ram) && Sized(s) && LoneAt(s, e)
    ensures var t := RevokeOne(s, e);
            && Body(t, ram) && t.auth == A.Stricken(s.auth, e) && t.mode == s.mode && t.current == s.current
            && |t.rv.ports| == |s.rv.ports|
            && forall j :: 0 <= j < MAX_PROCS && s.rv.ports[j].state.Ready? ==> t.rv.ports[j] == s.rv.ports[j]
  {
    hide M.SoundBut, V.Sound, QueueIs, HeldAt, Stripped, Emptied, OnlyBar;
    if e.proc < MAX_PROCS {
      assert AgreeAt(s, e.proc);
      if Live(s, e.proc) && s.auth.spaces[e.proc].id == e.id {
        var t := s.(auth := A.Stricken(s.auth, e));
        EmptiedSize(Caps(s, e.proc), e.cap);
        StrippedBody(s, t, ram, e.proc, e.cap);
      }
    }
  }

  lemma {:induction false} EmptiedSize(caps: seq<Cap>, c: nat)
    ensures |Emptied(caps, c)| == |caps|
  {}

  lemma {:induction false} RevokeToBody(s: State, ram: set<nat>, order: seq<Endpoint>, n: nat)
    requires Body(s, ram) && Sized(s) && n <= |order| && A.LoneAmong(s.auth, order) && A.Shaped(s.auth)
    ensures var t := RevokeTo(s, order, n);
            && Body(t, ram) && t.auth == A.StrickenBy(s.auth, order, n) && t.mode == s.mode && t.current == s.current
            && |t.rv.ports| == |s.rv.ports|
            && forall j :: 0 <= j < MAX_PROCS && s.rv.ports[j].state.Ready? ==> t.rv.ports[j] == s.rv.ports[j]
  {
    hide Body, RevokeOne, A.Stricken, A.LoneAmong, A.Shaped, LoneAt;
    if n > 0 {
      RevokeToBody(s, ram, order, n - 1);
      var t := RevokeTo(s, order, n - 1);
      BodySized(t, ram);
      LoneOnTheWay(s.auth, t, order, n - 1);
      RevokeOneBody(t, ram, order[n - 1]);
    }
  }

  /** What a REVOKE reports is all its holders have, regions apart. */
  lemma {:induction false} RevokeLone(s: State, ram: set<nat>, i: nat, cap: nat, order: seq<Endpoint>)
    requires Core(s, ram) && Sized(s) && i < MAX_PROCS && Live(s, i) && Lookup(Caps(s, i), cap).Some?
    requires Feasible(s, i, Revoke(cap, order))
    ensures var a := s.auth.(edges := Revoked(s.auth.edges, Endpoint(i, s.auth.spaces[i].id, cap)));
            A.LoneAmong(a, order) && A.Shaped(a)
  {
    hide Body, Revoked, Killed, A.Occupied, A.StampAt, A.CapAt, A.HistoryOk, A.Stamped, A.Named, A.TracksBut, A.Lone, A.Shaped;
    var root := Endpoint(i, s.auth.spaces[i].id, cap);
    RootOccupied(s, ram, i, cap);
    A.ReachedAreLone(s.auth, root, order);
    A.SpacesDecide(s.auth, s.auth.(edges := Revoked(s.auth.edges, root)));
  }

  /** Revocation keeps everything, in whatever order the ledger reports. */
  lemma {:induction false} RevokeCore(s: State, ram: set<nat>, i: nat, cap: nat, order: seq<Endpoint>)
    requires Core(s, ram) && i < MAX_PROCS && Receptive(s, i)
    requires Feasible(s, i, Revoke(cap, order))
    ensures Core(RevokeStep(s, i, cap, order), ram)
  {
    hide A.Sound, Body, RevokeTo, Revoked, Killed, A.StrickenBy, A.RevokedFrom, A.LoneAmong, A.Shaped;
    BodySized(s, ram);
    ReturnCore(s, ram, i, NO_CAP, 0, 0);
    if Lookup(Caps(s, i), cap).Some? {
      var root := Endpoint(i, s.auth.spaces[i].id, cap);
      var b := s.(auth := s.auth.(edges := Revoked(s.auth.edges, root)));
      LedgerBody(s, b, ram);
      RevokeLone(s, ram, i, cap, order);
      RevokeToBody(b, ram, order, |order|);
      var t := RevokeTo(b, order, |order|);
      A.StrickenIsRevoked(s.auth, root, order);
      RootOccupied(s, ram, i, cap);
      A.RevokedSound(s.auth, t.auth, root);
      ReturnCore(t, ram, i, OK, 0, 0);
    }
  }

  lemma {:induction false} LedgerBody(s: State, b: State, ram: set<nat>)
    requires Body(s, ram) && b == s.(auth := s.auth.(edges := b.auth.edges))
    ensures Body(b, ram) && Sized(b)
  {
    hide M.SoundBut, V.Sound, QueueIs, Held;
    forall j | 0 <= j < MAX_PROCS ensures HeldAt(b, j) && AgreeAt(b, j) {
      assert HeldAt(s, j) && AgreeAt(s, j);
    }
  }

  lemma {:induction false} RootOccupied(s: State, ram: set<nat>, i: nat, cap: nat)
    requires Body(s, ram) && Sized(s) && i < MAX_PROCS && Live(s, i) && Lookup(Caps(s, i), cap).Some?
    ensures A.Occupied(s.auth, Endpoint(i, s.auth.spaces[i].id, cap))
  {
    hide M.SoundBut, V.Sound, QueueIs, HeldAt;
    assert AgreeAt(s, i);
  }

  /** What REVOKE does to authority, over the whole history: of the capabilities in place, exactly
      the descendants of the named one are gone, however many dead processes stand between; the
      named one stays. */
  lemma {:induction false} RevokeIsExact(s: State, ram: set<nat>, i: nat, cap: nat, order: seq<Endpoint>)
    requires Core(s, ram) && Sized(s) && i < MAX_PROCS && Receptive(s, i)
    requires Feasible(s, i, Revoke(cap, order)) && Lookup(Caps(s, i), cap).Some?
    ensures var t, root := RevokeStep(s, i, cap, order), Endpoint(i, s.auth.spaces[i].id, cap);
            && t.auth.hist == s.auth.hist && A.Occupied(t.auth, root)
            && forall e :: A.Occupied(t.auth, e) <==>
                 A.Occupied(s.auth, e) && !A.Ancestor(s.auth.hist, A.StampAt(s.auth, root), A.StampAt(s.auth, e))
  {
    hide A.Sound, Body, RevokeTo, Revoked, Killed, A.StrickenBy, A.Occupied, A.StampAt, A.Ancestor, A.LoneAmong, A.Shaped;
    BodySized(s, ram);
    var root := Endpoint(i, s.auth.spaces[i].id, cap);
    var b := s.(auth := s.auth.(edges := Revoked(s.auth.edges, root)));
    LedgerBody(s, b, ram);
    RevokeLone(s, ram, i, cap, order);
    RevokeToBody(b, ram, order, |order|);
    A.StrickenIsRevoked(s.auth, root, order);
    RootOccupied(s, ram, i, cap);
    A.RevokedSound(s.auth, RevokeTo(b, order, |order|).auth, root);
    NotOwnAncestor(s.auth.hist, A.StampAt(s.auth, root));
  }

  lemma {:induction false} NotOwnAncestor(h: seq<A.Birth>, a: nat)
    ensures !A.Ancestor(h, a, a)
  {
    if A.Ancestor(h, a, a) { A.AncestorBounds(h, a, a); }
  }

  // ------------------------------------------------------------------- the end of a process

  lemma {:induction false} WithdrewCore(s: State, ram: set<nat>, i: nat)
    requires Core(s, ram) && i < MAX_PROCS && Live(s, i) && Sized(s)
    ensures var w := s.(mem := L.Withdrew(s.mem, i, P.EVERY_SLOT)); Core(w, ram) && Sized(w)
  {
    hide A.Sound, M.SoundBut, Body, L.Withdrew, Holds;
    MemShape(s, ram);
    L.WithdrewSound(s.mem, ram, i, P.EVERY_SLOT);
    var w := s.(mem := L.Withdrew(s.mem, i, P.EVERY_SLOT));
    OneSpaceBody(s, w, ram, i);
    BodySized(w, ram);
  }

  /** Up to the end of its plan, a dying process leaves everything sound, and itself with nothing. */
  lemma {:induction false} DismantledCore(s: State, ram: set<nat>, i: nat)
    requires Core(s, ram) && i < MAX_PROCS && Live(s, i) && Sized(s)
    ensures var w := s.(mem := L.Withdrew(s.mem, i, P.EVERY_SLOT));
            var t := Executed(w, P.TeardownPlan(w.mem, i));
            Core(t, ram) && Sized(t) && P.Stripped(t.mem, i) && t.rv == s.rv && t.run == s.run
  {
    hide A.Sound, M.SoundBut, Body, L.Withdrew, Executed, P.TeardownPlan, R.Phased, P.UnmapsHolders, P.Releases, P.PlanOk, P.Stripped;
    MemShape(s, ram);
    assert AgreeAt(s, i);
    WithdrewCore(s, ram, i);
    var w := s.(mem := L.Withdrew(s.mem, i, P.EVERY_SLOT));
    P.DismantledSound(s.mem, ram, i);
    P.TeardownPlanOk(w.mem, ram, i);
    var plan := P.TeardownPlan(w.mem, i);
    ExecutedCore(w, ram, plan);
    ExecutedPorts(w, plan);
    ExecutedMem(w, plan);
    BodySized(Executed(w, plan), ram);
  }

  lemma {:induction false} ExecutedMem(s: State, plan: seq<R.Step>)
    ensures Executed(s, plan).mem == P.RunPlan(s.mem, plan)
  {}

  lemma {:induction false} BuriedCore(s: State, ram: set<nat>, i: nat)
    requires Core(s, ram) && i < MAX_PROCS && Receptive(s, i) && Sized(s)
    ensures Core(Buried(s, i), ram) && Sized(Buried(s, i)) && !Live(Buried(s, i), i)
    ensures Buried(s, i).rv.ports == s.rv.ports[i := s.rv.ports[i].(state := V.Free)]
  {
    hide A.Sound, M.SoundBut, Body, L.Withdrew, Executed, P.TeardownPlan, P.Stripped, P.Vacated, A.Died;
    DismantledCore(s, ram, i);
    var w := s.(mem := L.Withdrew(s.mem, i, P.EVERY_SLOT));
    var t := Executed(w, P.TeardownPlan(w.mem, i));
    FreedCore(t, ram, i);
  }

  lemma {:induction false} FreedCore(t: State, ram: set<nat>, i: nat)
    requires Core(t, ram) && Sized(t) && i < MAX_PROCS && Live(t, i) && P.Stripped(t.mem, i) && t.rv.ports[i].pending == 0
    ensures var u := t.(mem := P.Vacated(t.mem, i), auth := A.Died(t.auth, i),
                        rv := t.rv.(ports := t.rv.ports[i := t.rv.ports[i].(state := V.Free)]), run := Remove(t.run, i));
            Core(u, ram) && Sized(u)
  {
    hide A.Sound, M.SoundBut, V.Sound, QueueIs, Held, Spliced, L.SetOf;
    var p := t.rv.ports[i].(state := V.Free);
    var u := t.(mem := P.Vacated(t.mem, i), auth := A.Died(t.auth, i),
                rv := t.rv.(ports := t.rv.ports[i := p]), run := Remove(t.run, i));
    assert AgreeAt(t, i);
    P.VacatedSound(t.mem, ram, i);
    A.DiedSound(t.auth, i);
    PortShape(t, i);
    V.CalmSound(t.rv, i, p);
    RemoveQueue(t.run, t.rv.ports, i, p);
    forall j | 0 <= j < MAX_PROCS ensures HeldAt(u, j) && AgreeAt(u, j) {
      assert HeldAt(t, j) && AgreeAt(t, j);
    }
  }

  lemma {:induction false} StrandedPending(t: State, ram: set<nat>)
    requires Body(t, ram) && Sized(t)
    ensures forall j :: 0 <= j < MAX_PROCS && StrandedByDeath(t, j) ==> Live(t, j) && t.rv.ports[j].pending == 0
  {
    hide M.SoundBut, V.Sound, QueueIs, HeldAt, Answerable;
    forall j | 0 <= j < MAX_PROCS && StrandedByDeath(t, j) ensures Live(t, j) && t.rv.ports[j].pending == 0 { PortShape(t, j); }
  }

  /** A process ends and strands nobody. */
  lemma {:induction false} ExitCore(s: State, ram: set<nat>, i: nat)
    requires Core(s, ram) && i < MAX_PROCS && Receptive(s, i) && Sized(s)
    ensures Core(ExitStep(s, i), ram) && Sized(ExitStep(s, i))
  {
    hide A.Sound, M.SoundBut, Body, Buried, WakeRefusedWhere, Answerable;
    BuriedCore(s, ram, i);
    var t := Buried(s, i);
    var wake := seq(MAX_PROCS, j requires 0 <= j < MAX_PROCS => StrandedByDeath(t, j));
    StrandedPending(t, ram);
    WakeRefusedWhereBody(t, ram, wake, MAX_PROCS);
    BodySized(WakeRefusedWhere(t, wake, MAX_PROCS), ram);
  }

  // ------------------------------------------------------------------- the start of a process

  /** A process just built, with nothing but capabilities, has authority for all it has. */
  lemma {:induction false} FreshHeld(caps: seq<Cap>, id: nat, fs: seq<nat>, fired: seq<nat>, next: nat)
    requires RegionCapsOk(caps, next)
    ensures Held(caps, S.Loaded(id, fs), V.Ready, NewOwn(fired), fired, next)
  {
    hide Holds;
  }

  /** Slot `j` gets a process with capabilities placed by `auth`. */
  lemma {:induction false} StartedCore(s: State, ram: set<nat>, j: nat, auth: A.Auth, fs: seq<nat>)
    requires Core(s, ram) && Sized(s) && j < MAX_PROCS && !Live(s, j)
    requires S.Available(s.mem.pool, fs) && |fs| <= MAX_PROC_FRAMES
    requires A.Sound(auth) && |auth.spaces| == MAX_PROCS
    requires forall q :: 0 <= q < MAX_PROCS && q != j ==> auth.spaces[q] == s.auth.spaces[q]
    requires auth.spaces[j].live && auth.spaces[j].id == s.auth.nextId
    requires |auth.spaces[j].caps| == |auth.spaces[j].stamps| == CAP_SLOTS
    requires RegionCapsOk(auth.spaces[j].caps, s.mem.nextRegion)
    ensures var t := Started(s, j, s.auth.nextId, fs).(auth := auth); Core(t, ram) && Sized(t)
  {
    hide M.SoundBut, V.Sound, QueueIs, Held, RegionCapsOk, S.Available, A.HistoryOk, A.Stamped, A.Named, A.TracksBut, A.Lone, NewOwn, S.Loaded, L.SetOf;
    var id := s.auth.nextId;
    var t := Started(s, j, id, fs).(auth := auth);
    forall q | 0 <= q < MAX_PROCS ensures AgreeAt(s, q) && (Live(s, q) ==> s.mem.spaces[q].id < id) {}
    S.LoadSound(s.mem, ram, j, id, fs);
    PortShape(s, j);
    NewPortCalm(s.rv.ports[j], id);
    V.CalmSound(s.rv, j, NewPort(s.rv.ports[j], id));
    AddQueue(s.run, s.rv.ports, j, NewPort(s.rv.ports[j], id));
    FreshHeld(auth.spaces[j].caps, id, fs, s.fired, s.mem.nextRegion);
    NewShapes(id, fs, s.fired);
    forall q | 0 <= q < MAX_PROCS ensures HeldAt(t, q) && AgreeAt(t, q) {
      assert HeldAt(s, q) && AgreeAt(s, q);
    }
  }

  lemma {:induction false} NewPortCalm(p: V.Port, id: nat)
    requires |p.msg| == MAX_MSG_BYTES
    ensures V.Calm(NewPort(p, id)) && NewPort(p, id).state.Ready? && NewPort(p, id).id == id
  {}

  lemma {:induction false} NewShapes(id: nat, fs: seq<nat>, fired: seq<nat>)
    ensures |NewOwn(fired).irq| == |fired|
    ensures var sp := S.Loaded(id, fs);
            sp.live && sp.id == id && |sp.dma| == |sp.shares| == |sp.windows| == SHARE_SLOTS
  {}

  lemma {:induction false} BurnedCore(s: State, ram: set<nat>)
    requires Core(s, ram)
    ensures Core(s.(auth := A.Burned(s.auth)), ram)
  {
    hide A.Sound, M.SoundBut, V.Sound, QueueIs, Held;
    A.BurnedSound(s.auth);
    var t := s.(auth := A.Burned(s.auth));
    forall j | 0 <= j < MAX_PROCS ensures HeldAt(t, j) && AgreeAt(t, j) {
      assert HeldAt(s, j) && AgreeAt(s, j);
    }
  }

  lemma {:induction false} SpawnCore(s: State, ram: set<nat>, i: nat, cap: nat, give: Option<nat>, request: bv64, load: Option<seq<nat>>)
    requires Core(s, ram) && Sized(s) && i < MAX_PROCS && Receptive(s, i)
    requires Feasible(s, i, Spawn(cap, give, request, load))
    ensures Core(SpawnStep(s, i, cap, give, request, load), ram)
  {
    hide A.Sound, Body, Contains, Started, A.Born, A.Delegated, A.Burned, S.Available, Intersect, FromUser;
    ReturnCore(s, ram, i, SPAWN_NO_CAP, 0, 0);
    ReturnCore(s, ram, i, SPAWN_NO_DELEGATE, 0, 0);
    ReturnCore(s, ram, i, SPAWN_NO_SLOT, 0, 0);
    BurnedCore(s, ram);
    ReturnCore(s.(auth := A.Burned(s.auth)), ram, i, SPAWN_NO_MEM, 0, 0);
    var j := FreeSlot(s.rv.ports);
    if j < MAX_PROCS && load.Some? {
      var id := s.auth.nextId;
      if give.None? {
        BornCore(s, ram, j, load.value);
        StartedPort(s, j, id, load.value, A.Born(s.auth, j), i);
        ReturnCore(Started(s, j, id, load.value).(auth := A.Born(s.auth, j)), ram, i, id, 0, 0);
      } else if Lookup(Caps(s, i), give.value).Some? && LiveCount(s.auth.edges) < |s.auth.edges| {
        var rights := Intersect(Caps(s, i)[give.value].rights, FromUser(request));
        DelegatedCore(s, ram, i, give.value, j, rights, load.value);
        var auth := A.Delegated(s.auth, i, give.value, j, rights);
        StartedPort(s, j, id, load.value, auth, i);
        ReturnCore(Started(s, j, id, load.value).(auth := auth), ram, i, id, 0, 0);
      }
    }
  }

  lemma {:induction false} StartedPort(s: State, j: nat, id: nat, fs: seq<nat>, auth: A.Auth, i: nat)
    requires Sized(s) && j < MAX_PROCS && i < MAX_PROCS && i != j
    ensures Started(s, j, id, fs).(auth := auth).rv.ports[i] == s.rv.ports[i] && |Started(s, j, id, fs).rv.ports| == MAX_PROCS
  {}

  lemma {:induction false} BornCore(s: State, ram: set<nat>, j: nat, fs: seq<nat>)
    requires Core(s, ram) && Sized(s) && j < MAX_PROCS && !Live(s, j)
    requires S.Available(s.mem.pool, fs) && |fs| <= MAX_PROC_FRAMES
    ensures Core(Started(s, j, s.auth.nextId, fs).(auth := A.Born(s.auth, j)), ram)
  {
    hide A.Sound, Body, Started, S.Available;
    BodyAgrees(s, ram, j);
    A.BornSound(s.auth, j);
    StartedCore(s, ram, j, A.Born(s.auth, j), fs);
  }

  lemma {:induction false} BodyAgrees(s: State, ram: set<nat>, j: nat)
    requires Body(s, ram) && j < MAX_PROCS
    ensures Sized(s) && AgreeAt(s, j) && HeldAt(s, j)
  {}

  lemma {:induction false} DelegatedCore(s: State, ram: set<nat>, i: nat, c: nat, j: nat, rights: Rights, fs: seq<nat>)
    requires Core(s, ram) && Sized(s) && j < MAX_PROCS && !Live(s, j) && i < MAX_PROCS && Live(s, i)
    requires S.Available(s.mem.pool, fs) && |fs| <= MAX_PROC_FRAMES
    requires Lookup(Caps(s, i), c).Some? && Contains(Caps(s, i)[c].rights, rights) && LiveCount(s.auth.edges) < |s.auth.edges|
    ensures Core(Started(s, j, s.auth.nextId, fs).(auth := A.Delegated(s.auth, i, c, j, rights)), ram)
  {
    hide A.Sound, Body, Started, S.Available, Contains, Recorded, LiveCount;
    BodyAgrees(s, ram, j);
    BodyAgrees(s, ram, i);
    A.DelegatedSound(s.auth, i, c, j, rights);
    StartedCore(s, ram, j, A.Delegated(s.auth, i, c, j, rights), fs);
  }
}
