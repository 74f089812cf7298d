/** The kernel entries that move memory keep the invariant. */
module MemorySteps {
  import opened Abi
  import opened Basics
  import opened Capabilities
  import opened Deleg
  import opened Sched
  import opened Machine
  import opened Invariant
  import A = Authority
  import M = Memory
  import L = Lifetime
  import P = Plans
  import S = Supply
  import V = Rendezvous
  import R = Regions

  /** Memory changed for process `i` only, within the authority it has. */
  lemma {:induction false} OneSpaceBody(s: State, t: State, ram: set<nat>, i: nat)
    requires Body(s, ram) && i < MAX_PROCS && t == s.(mem := t.mem, own := t.own)
    requires M.Sound(t.mem, ram) && t.mem.nextRegion == s.mem.nextRegion
    requires |t.mem.spaces| == |t.own| == MAX_PROCS
    requires forall j :: 0 <= j < MAX_PROCS && j != i ==> t.mem.spaces[j] == s.mem.spaces[j] && t.own[j] == s.own[j]
    requires t.mem.spaces[i].live == s.mem.spaces[i].live && t.mem.spaces[i].id == s.mem.spaces[i].id
    requires t.own[i].irq == s.own[i].irq && (t.own[i].bar == s.own[i].bar || BarHeld(Caps(s, i), t.own[i].bar))
    requires SharesHeld(Caps(s, i), s.mem.spaces[i].shares, s.mem.spaces[i].windows) ==>
               SharesHeld(Caps(s, i), t.mem.spaces[i].shares, t.mem.spaces[i].windows)
    requires RecordsHeld(Caps(s, i), s.mem.spaces[i].dma) ==> RecordsHeld(Caps(s, i), t.mem.spaces[i].dma)
    ensures Body(t, ram)
  {
    hide V.Sound, QueueIs, SharesHeld, RecordsHeld, LinesHeld, RegionCapsOk, WaitHeld, BarHeld, M.Conserved,
      M.RegionsOk, M.WindowsOk, M.RecordsOk, M.DevicesShaped, M.DevicesOk, M.ReachOk, M.OwnersOk, M.QuietOk;
    forall j | 0 <= j < MAX_PROCS ensures HeldAt(t, j) && AgreeAt(t, j) {
      assert HeldAt(s, j) && AgreeAt(s, j);
    }
  }

  lemma {:induction false} MemShape(s: State, ram: set<nat>)
    requires Body(s, ram)
    ensures Sized(s) && M.Sound(s.mem, ram)
    ensures |s.mem.regions| == MAX_REGIONS && |s.mem.spaces| == MAX_PROCS && |s.mem.devs| == MAX_DOMAINS
    ensures forall i :: 0 <= i < MAX_PROCS ==> AgreeAt(s, i)
  {
    hide V.Sound, QueueIs, HeldAt, M.Conserved, M.RegionsOk, M.WindowsOk, M.RecordsOk, M.DevicesShaped, M.DevicesOk,
      M.ReachOk, M.OwnersOk, M.QuietOk;
  }

  // ------------------------------------------------------------------- windows

  /** Dropping some of a process's windows. */
  lemma {:induction false} DropSharesSound(m: M.Mem, ram: set<nat>, stale: bool, p: nat, drop: seq<bool>, n: nat)
    requires M.SoundBut(m, ram, stale) && p < MAX_PROCS && n <= |drop| == SHARE_SLOTS
    ensures var r := DropShares(m, p, drop, n);
            && M.SoundBut(r, ram, stale) && p < |m.spaces|
            && r == m.(spaces := r.spaces) && |r.spaces| == |m.spaces|
            && |r.spaces[p].shares| == |m.spaces[p].shares| == |r.spaces[p].windows| == |m.spaces[p].windows| == SHARE_SLOTS
            && r.spaces == m.spaces[p := m.spaces[p].(shares := r.spaces[p].shares, windows := r.spaces[p].windows)]
            && forall k :: 0 <= k < SHARE_SLOTS ==>
                 if k < n && drop[k] then r.spaces[p].shares[k] == 0
                 else r.spaces[p].shares[k] == m.spaces[p].shares[k] && r.spaces[p].windows[k] == m.spaces[p].windows[k]
  {
    hide M.SoundBut;
    L.ShapeOf(m, ram, stale);
    if n == 0 {
      assert m.spaces == m.spaces[p := m.spaces[p].(shares := m.spaces[p].shares, windows := m.spaces[p].windows)];
    } else {
      DropSharesSound(m, ram, stale, p, drop, n - 1);
      if drop[n - 1] { L.DropShareSound(DropShares(m, p, drop, n - 1), ram, stale, p, n - 1); }
    }
  }

  lemma {:induction false} UnmapRegionCore(s: State, ram: set<nat>, i: nat, cap: nat)
    requires Core(s, ram) && i < MAX_PROCS && Receptive(s, i)
    ensures Core(UnmapRegionStep(s, i, cap), ram)
  {
    hide A.Sound, M.SoundBut, Body, DropShares;
    MemShape(s, ram);
    ReturnCore(s, ram, i, NO_CAP, 0, 0);
    var held := Lookup(Caps(s, i), cap);
    var shares := s.mem.spaces[i].shares;
    if held.Some? && held.value.ty == RegionCap && held.value.obj in shares {
      var drop := SlotsShowing(shares, held.value.obj);
      DropSharesSound(s.mem, ram, false, i, drop, SHARE_SLOTS);
      var t := s.(mem := DropShares(s.mem, i, drop, SHARE_SLOTS));
      OneSpaceBody(s, t, ram, i);
      ReturnBody(t, ram, i, OK, 0, 0);
    }
  }

  lemma {:induction false} ObjectHeld(caps: seq<Cap>, c: nat, ty: CapType, need: Rights)
    requires ObjectOf(caps, c, ty, need).Some? && ty != Null
    ensures Holds(caps, ty, ObjectOf(caps, c, ty, need).value, need)
    ensures c < |caps| && caps[c].ty == ty && caps[c].obj == ObjectOf(caps, c, ty, need).value
    ensures Contains(caps[c].rights, WRITE) ==> Holds(caps, ty, caps[c].obj, WRITE)
  {}

  /** Mapping a region shows exactly the frames the capability's region has, writable only if the
      capability is. */
  lemma {:induction false} MapRegionCore(s: State, ram: set<nat>, i: nat, cap: nat, tables: seq<nat>, installed: bool)
    requires Core(s, ram) && i < MAX_PROCS && Receptive(s, i)
    requires Feasible(s, i, MapRegion(cap, tables, installed))
    ensures Core(MapRegionStep(s, i, cap, tables, installed), ram)
  {
    hide A.Sound, M.SoundBut, Body, Contains, S.Available;
    MemShape(s, ram);
    ReturnCore(s, ram, i, NO_CAP, 0, 0);
    ReturnCore(s, ram, i, NO_MEM, 0, 0);
    var caps := Caps(s, i);
    var id := ObjectOf(caps, cap, RegionCap, READ);
    if id.Some? {
      var at := M.RegionAt(s.mem.regions, id.value);
      var shares := s.mem.spaces[i].shares;
      var k := MapSlot(shares, id.value);
      if at < |s.mem.regions| && k < |shares| {
        ObjectHeld(caps, cap, RegionCap, READ);
        var w := if installed then M.Window(s.mem.regions[at].frames, Contains(caps[cap].rights, WRITE)) else M.NO_WINDOW;
        MapWindowBody(s, ram, i, tables, k, if installed then id.value else shares[k], w);
        var t := s.(mem := L.SetWindow(S.Charged(s.mem, i, tables), i, k, if installed then id.value else shares[k], w));
        ReturnBody(t, ram, i, if installed then ShareVa(k) else NO_MEM, 0, 0);
      }
    }
  }

  lemma {:induction false} MapWindowBody(s: State, ram: set<nat>, i: nat, tables: seq<nat>, k: nat, share: nat, w: M.Window)
    requires Body(s, ram) && i < MAX_PROCS && Live(s, i) && k < SHARE_SLOTS
    requires S.Available(s.mem.pool, tables) && |s.mem.spaces[i].frames| + |tables| <= MAX_PROC_FRAMES
    requires if share == s.mem.spaces[i].shares[k] && w == M.NO_WINDOW then true
             else && M.WindowOk(s.mem.regions, share, w) && Holds(Caps(s, i), RegionCap, share, READ)
                  && (w.writable ==> Holds(Caps(s, i), RegionCap, share, WRITE))
    ensures Body(s.(mem := L.SetWindow(S.Charged(s.mem, i, tables), i, k, share, w)), ram)
  {
    hide A.Sound, M.SoundBut, Body, Holds, M.WindowOk, RecordsHeld, S.Available;
    MemShape(s, ram);
    assert AgreeAt(s, i);
    S.ChargedSound(s.mem, ram, i, tables);
    var m := S.Charged(s.mem, i, tables);
    if share == s.mem.spaces[i].shares[k] && w == M.NO_WINDOW { WindowAt(m, ram, i, k); }
    L.SetWindowSound(m, ram, false, i, k, share, w);
    OneSpaceBody(s, s.(mem := L.SetWindow(m, i, k, share, w)), ram, i);
  }

  lemma {:induction false} WindowAt(m: M.Mem, ram: set<nat>, p: nat, k: nat)
    requires M.Sound(m, ram) && p < MAX_PROCS && k < SHARE_SLOTS
    ensures p < |m.spaces| && k < |m.spaces[p].shares| && M.WindowOk(m.regions, m.spaces[p].shares[k], M.NO_WINDOW)
  {
    hide M.Conserved, M.RegionsOk, M.RecordsOk, M.DevicesShaped, M.DevicesOk, M.ReachOk, M.OwnersOk, M.QuietOk;
    assert M.WindowOk(m.regions, m.spaces[p].shares[k], m.spaces[p].windows[k]);
  }

  lemma {:induction false} MapBarCore(s: State, ram: set<nat>, i: nat, cap: nat, known: bool, tables: seq<nat>, installed: bool, copied: bool)
    requires Core(s, ram) && i < MAX_PROCS && Receptive(s, i)
    requires Feasible(s, i, MapBar(cap, known, tables, installed, copied))
    ensures Core(MapBarStep(s, i, cap, known, tables, installed, copied), ram)
  {
    hide A.Sound, M.SoundBut, Body, Contains, S.Available;
    MemShape(s, ram);
    ReturnCore(s, ram, i, NO_CAP, 0, 0);
    ReturnCore(s, ram, i, NO_MEM, 0, 0);
    var caps := Caps(s, i);
    if cap < |caps| && caps[cap].ty == Mmio && Contains(caps[cap].rights, READ) && known {
      assert AgreeAt(s, i);
      S.ChargedSound(s.mem, ram, i, tables);
      var bar := if installed && copied then Some(Bar(caps[cap].obj, Contains(caps[cap].rights, WRITE))) else None;
      var t := s.(mem := S.Charged(s.mem, i, tables), own := s.own[i := s.own[i].(bar := bar)]);
      assert bar.Some? ==> Shows(caps[cap], bar.value);
      OneSpaceBody(s, t, ram, i);
      ReturnBody(t, ram, i, if !installed then NO_MEM else if copied then OK else FAULT, 0, 0);
    }
  }

  // ------------------------------------------------------------------- device reach

  lemma {:induction false} MapDmaCore(s: State, ram: set<nat>, i: nat, dom: nat, reg: nat)
    requires Core(s, ram) && i < MAX_PROCS && Receptive(s, i)
    ensures Core(MapDmaStep(s, i, dom, reg), ram)
  {
    hide A.Sound, M.SoundBut, Body, Contains, S.MapDma, Holds;
    MemShape(s, ram);
    ReturnCore(s, ram, i, NO_CAP, 0, 0);
    var caps := Caps(s, i);
    var domain, region := ObjectOf(caps, dom, IommuDomain, WRITE), ObjectOf(caps, reg, RegionCap, READ);
    if domain.Some? && region.Some? && TablesSized(s.mem) {
      ObjectHeld(caps, dom, IommuDomain, WRITE);
      ObjectHeld(caps, reg, RegionCap, READ);
      assert AgreeAt(s, i);
      S.MapDmaSound(s.mem, ram, i, domain.value, region.value, caps[reg].rights);
      var out := S.MapDma(s.mem, i, domain.value, region.value, caps[reg].rights);
      var t := s.(mem := out.m);
      OneSpaceBody(s, t, ram, i);
      ReturnBody(t, ram, i, out.ret, 0, 0);
    }
  }

  lemma {:induction false} UnmapDmaCore(s: State, ram: set<nat>, i: nat, dom: nat, reg: nat)
    requires Core(s, ram) && i < MAX_PROCS && Receptive(s, i)
    ensures Core(UnmapDmaStep(s, i, dom, reg), ram)
  {
    hide A.Sound, M.SoundBut, Body, Contains, Holds;
    MemShape(s, ram);
    ReturnCore(s, ram, i, NO_CAP, 0, 0);
    ReturnCore(s, ram, i, NO_MEM, 0, 0);
    var caps := Caps(s, i);
    var domain, region := ObjectOf(caps, dom, IommuDomain, WRITE), ObjectOf(caps, reg, RegionCap, READ);
    if domain.Some? && region.Some? {
      var d, at := M.DomainAt(s.mem.devs, domain.value), M.RegionAt(s.mem.regions, region.value);
      if d < |s.mem.devs| && at < |s.mem.regions| {
        L.UnmapDmaSound(s.mem, ram, i, d, at);
        var t := s.(mem := L.UnmapDma(s.mem, i, d, at));
        OneSpaceBody(s, t, ram, i);
        ReturnBody(t, ram, i, OK, 0, 0);
      }
    }
  }

  // ------------------------------------------------------------------- making a region

  /** One capability over a new region changes no other authority question. */
  lemma {:induction false} InsertedHolds(caps: seq<Cap>, f: nat, cap: Cap, ty: CapType, obj: nat, need: Rights)
    requires f < |caps| && caps[f].ty == Null && ty != Null
    ensures Holds(caps, ty, obj, need) ==> Holds(caps[f := cap], ty, obj, need)
    ensures (cap.ty != ty || cap.obj != obj) ==> (Holds(caps[f := cap], ty, obj, need) <==> Holds(caps, ty, obj, need))
  {
    hide Contains;
    var t := caps[f := cap];
    if Holds(caps, ty, obj, need) {
      var i :| 0 <= i < |caps| && caps[i].ty == ty && caps[i].obj == obj && Contains(caps[i].rights, need);
      assert t[i] == caps[i];
    }
    if Holds(t, ty, obj, need) && (cap.ty != ty || cap.obj != obj) {
      var i :| 0 <= i < |t| && t[i].ty == ty && t[i].obj == obj && Contains(t[i].rights, need);
      assert caps[i] == t[i];
    }
  }

  lemma {:induction false} InsertedHeld(caps: seq<Cap>, f: nat, cap: Cap, sp: M.Space, state: V.PState, own: Own, fired: seq<nat>, next: nat)
    requires Held(caps, sp, state, own, fired, next)
    requires f < |caps| && caps[f].ty == Null && cap.ty == RegionCap && cap.obj == next > 0
    ensures Held(caps[f := cap], sp, state, own, fired, next + 1)
  {
    hide Holds;
    forall ty, obj, need | ty != Null
      ensures Holds(caps, ty, obj, need) ==> Holds(caps[f := cap], ty, obj, need)
      ensures cap.ty != ty ==> (Holds(caps[f := cap], ty, obj, need) <==> Holds(caps, ty, obj, need))
    {
      InsertedHolds(caps, f, cap, ty, obj, need);
    }
    InsertedBar(caps, f, cap, own.bar);
  }

  lemma {:induction false} InsertedBar(caps: seq<Cap>, f: nat, cap: Cap, bar: Option<Bar>)
    requires f < |caps| && caps[f].ty == Null && BarHeld(caps, bar)
    ensures BarHeld(caps[f := cap], bar)
  {
    hide Contains;
    if bar.Some? {
      var c :| 0 <= c < |caps| && Shows(caps[c], bar.value);
      assert caps[f := cap][c] == caps[c];
    }
  }

  lemma {:induction false} LaterHeld(caps: seq<Cap>, sp: M.Space, state: V.PState, own: Own, fired: seq<nat>, next: nat)
    requires Held(caps, sp, state, own, fired, next)
    ensures Held(caps, sp, state, own, fired, next + 1)
  {
    hide SharesHeld, RecordsHeld, WaitHeld, LinesHeld, BarHeld;
  }

  lemma {:induction false} MakeRegionCore(s: State, ram: set<nat>, i: nat, cap: nat, pages: nat, got: seq<nat>)
    requires Core(s, ram) && i < MAX_PROCS && Receptive(s, i)
    requires Feasible(s, i, MakeRegion(cap, pages, got))
    ensures Core(MakeRegionStep(s, i, cap, pages, got), ram)
  {
    hide A.Sound, M.SoundBut, Body, Contains, S.Available, S.WithRegion, A.Minted, FirstFree, CanInsert;
    MemShape(s, ram);
    ReturnCore(s, ram, i, NO_CAP, 0, 0);
    ReturnCore(s, ram, i, NO_MEM, 0, 0);
    var caps := Caps(s, i);
    if MayMint(caps, cap) && 1 <= pages <= REGION_MAX_PAGES {
      var slot := FreeRegionSlot(s.mem.regions);
      var region := Cap(RegionCap, caps[cap].rights, s.mem.nextRegion);
      if slot < |s.mem.regions| && |got| >= pages && CanInsert(caps, region) {
        MintCore(s, ram, i, slot, region, got);
        var t := s.(auth := A.Minted(s.auth, i, region), mem := S.WithRegion(s.mem, i, slot, got));
        ReturnCore(t, ram, i, FirstFree(caps), 0, 0);
      }
    }
  }

  lemma {:induction false} MintCore(s: State, ram: set<nat>, i: nat, slot: nat, region: Cap, got: seq<nat>)
    requires Core(s, ram) && i < MAX_PROCS && Live(s, i) && slot < |s.mem.regions| && !s.mem.regions[slot].live
    requires S.Available(s.mem.pool, got) && 0 < |got| <= REGION_MAX_PAGES
    requires region.ty == RegionCap && region.obj == s.mem.nextRegion && CanInsert(Caps(s, i), region)
    requires Sized(s)
    ensures Core(s.(auth := A.Minted(s.auth, i, region), mem := S.WithRegion(s.mem, i, slot, got)), ram)
  {
    hide A.Sound, M.SoundBut, V.Sound, QueueIs, Held, S.Available;
    L.ShapeOf(s.mem, ram, false);
    assert AgreeAt(s, i);
    S.WithRegionSound(s.mem, ram, i, slot, got);
    A.MintedSound(s.auth, i, region);
    var t := s.(auth := A.Minted(s.auth, i, region), mem := S.WithRegion(s.mem, i, slot, got));
    forall j | 0 <= j < MAX_PROCS ensures HeldAt(t, j) && AgreeAt(t, j) {
      assert HeldAt(s, j) && AgreeAt(s, j);
      if Live(s, j) {
        if j == i {
          var f := FirstFree(Caps(s, i));
          assert Caps(s, i)[f].ty == Null;
          InsertedHeld(Caps(s, i), f, region, s.mem.spaces[j], s.rv.ports[j].state, s.own[j], s.fired, s.mem.nextRegion);
        } else {
          LaterHeld(Caps(s, j), s.mem.spaces[j], s.rv.ports[j].state, s.own[j], s.fired, s.mem.nextRegion);
        }
      }
    }
  }

  // ------------------------------------------------------------------- carrying out a plan

  /** The regions a plan sweeps. */
  ghost function Gone(steps: seq<R.Step>, n: nat): iset<nat>
    requires n <= |steps|
  {
    iset q: nat | R.ForgetCaps(q) in steps[..n]
  }

  lemma {:induction false} SweptByCaps(a: A.Auth, steps: seq<R.Step>, n: nat, q: nat)
    requires n <= |steps| && q < |a.spaces| && forall x :: 0 <= x < |a.spaces| ==> |a.spaces[x].caps| == CAP_SLOTS
    ensures var b := SweptBy(a, steps, n);
            && (forall x :: 0 <= x < |a.spaces| ==> |b.spaces[x].caps| == CAP_SLOTS)
            && b.spaces[q].live == a.spaces[q].live && b.spaces[q].id == a.spaces[q].id && b.spaces[q].stamps == a.spaces[q].stamps
            && b.nextId == a.nextId
            && (a.spaces[q].live ==> A.Cut(a.spaces[q].caps, b.spaces[q].caps, Gone(steps, n)))
  {
    hide A.Cut;
    if n == 0 {
      CutNothing(a.spaces[q].caps, steps);
    } else {
      SweptByCaps(a, steps, n - 1, q);
      assert steps[..n] == steps[..n - 1] + [steps[n - 1]];
      var b := SweptBy(a, steps, n - 1);
      if steps[n - 1].ForgetCaps? {
        var r := steps[n - 1].region;
        forall x | 0 <= x < |b.spaces| ensures |A.Swept(b, r).spaces[x].caps| == CAP_SLOTS { A.SweptCaps(b, r, x); }
        A.SweptCaps(b, r, q);
        if a.spaces[q].live {
          A.CutTwice(a.spaces[q].caps, b.spaces[q].caps, A.Swept(b, r).spaces[q].caps, Gone(steps, n - 1), iset{r});
        }
        assert Gone(steps, n) == Gone(steps, n - 1) + iset{r};
      } else {
        assert Gone(steps, n) == Gone(steps, n - 1);
      }
    }
  }

  lemma {:induction false} CutNothing(caps: seq<Cap>, steps: seq<R.Step>)
    ensures A.Cut(caps, caps, Gone(steps, 0))
  {}

  lemma {:induction false} SweptBySound(a: A.Auth, steps: seq<R.Step>, n: nat)
    requires A.Sound(a) && n <= |steps|
    ensures A.Sound(SweptBy(a, steps, n))
  {
    hide A.Sound, A.Swept;
    if n > 0 {
      SweptBySound(a, steps, n - 1);
      if steps[n - 1].ForgetCaps? { A.SweptSound(SweptBy(a, steps, n - 1), steps[n - 1].region); }
    }
  }

  /** A process keeps exactly the authority it needs through a plan: what loses its capability
      loses its mappings and records too. */
  lemma {:induction false} CutHeld(caps: seq<Cap>, caps': seq<Cap>, gone: iset<nat>, sp: M.Space, sp': M.Space, state: V.PState, own: Own,
                                   fired: seq<nat>, next: nat)
    requires Held(caps, sp, state, own, fired, next) && A.Cut(caps, caps', gone)
    requires |sp'.shares| == |sp.shares| && |sp'.windows| == |sp.windows| && |sp'.dma| == |sp.dma|
    requires forall k :: 0 <= k < |sp.shares| && k < |sp.windows| && sp'.shares[k] != 0 ==>
               sp'.shares[k] == sp.shares[k] && sp'.windows[k] == sp.windows[k] && sp.shares[k] !in gone
    requires forall k :: 0 <= k < |sp.dma| && sp'.dma[k].region != 0 ==> sp'.dma[k] == sp.dma[k] && sp.dma[k].region !in gone
    ensures Held(caps', sp', state, own, fired, next)
  {
    hide Holds, A.Cut;
    forall ty, obj, need | ty != Null
      ensures Holds(caps', ty, obj, need) <==> Holds(caps, ty, obj, need) && !(ty == RegionCap && obj in gone)
    {
      A.CutHolds(caps, caps', gone, ty, obj, need);
    }
    CutRest(caps, caps', gone, next, own.bar);
  }

  lemma {:induction false} CutRest(caps: seq<Cap>, caps': seq<Cap>, gone: iset<nat>, next: nat, bar: Option<Bar>)
    requires A.Cut(caps, caps', gone)
    ensures RegionCapsOk(caps, next) ==> RegionCapsOk(caps', next)
    ensures BarHeld(caps, bar) ==> BarHeld(caps', bar)
  {
    hide Contains;
    if bar.Some? && BarHeld(caps, bar) {
      var c :| 0 <= c < |caps| && Shows(caps[c], bar.value);
      assert caps'[c] == caps[c];
    }
  }

  lemma {:induction false} SpaceThroughPlan(m: M.Mem, n: M.Mem, steps: seq<R.Step>, p: nat)
    requires p < |m.spaces| && P.After(m, n, steps) && P.UnmapsHolders(m, steps)
    requires forall q: nat :: P.Releases(steps, q) <==> R.ForgetCaps(q) in steps
    requires |m.spaces[p].shares| == |m.spaces[p].windows|
    ensures |n.spaces| == |m.spaces|
    ensures var sp, sp' := m.spaces[p], n.spaces[p];
            && sp'.live == sp.live && sp'.id == sp.id && sp'.frames == sp.frames
            && |sp'.shares| == |sp.shares| && |sp'.windows| == |sp.windows| && |sp'.dma| == |sp.dma|
            && (forall k :: 0 <= k < |sp.shares| && k < |sp.windows| && sp'.shares[k] != 0 ==>
                  sp'.shares[k] == sp.shares[k] && sp'.windows[k] == sp.windows[k] && sp.shares[k] !in Gone(steps, |steps|))
            && (forall k :: 0 <= k < |sp.dma| && sp'.dma[k].region != 0 ==>
                  sp'.dma[k] == sp.dma[k] && sp.dma[k].region !in Gone(steps, |steps|))
  {
    hide P.Releases;
    var sp, sp' := m.spaces[p], n.spaces[p];
    assert P.SpaceAfter(sp, sp', p, steps);
    assert steps[..|steps|] == steps;
    forall k: nat | k < |sp.shares| && sp'.shares[k] != 0 ensures sp.shares[k] !in Gone(steps, |steps|) {
      if sp.shares[k] in Gone(steps, |steps|) {
        assert P.Releases(steps, sp.shares[k]);
        UnmapListed(steps, p, k, sp.shares[k]);
      }
    }
  }

  lemma {:induction false} UnmapListed(steps: seq<R.Step>, p: nat, k: nat, r: nat)
    requires R.Unmap(p, k, r) in steps
    ensures R.Unmaps(steps, p, k)
  {
    var j :| 0 <= j < |steps| && steps[j] == R.Unmap(p, k, r);
  }

  ghost predicate PlanFor(m: M.Mem, steps: seq<R.Step>) {
    P.PlanOk(m, steps) && forall q: nat :: P.Releases(steps, q) <==> R.ForgetCaps(q) in steps
  }

  /** Carrying out a region plan keeps everything. */
  lemma {:induction false} ExecutedCore(s: State, ram: set<nat>, plan: seq<R.Step>)
    requires Core(s, ram) && PlanFor(s.mem, plan)
    ensures Core(Executed(s, plan), ram) && P.After(s.mem, Executed(s, plan).mem, plan)
  {
    hide A.Sound, M.SoundBut, V.Sound, QueueIs, Held, P.After, P.RunPlan, SweptBy, R.Phased, P.UnmapsHolders, P.Releases;
    P.EveryStepSound(s.mem, ram, plan, |plan|);
    assert plan[..|plan|] == plan;
    SweptBySound(s.auth, plan, |plan|);
    var t := Executed(s, plan);
    forall j | 0 <= j < MAX_PROCS
      ensures |t.mem.spaces| == MAX_PROCS
      ensures |t.auth.spaces[j].caps| == |t.auth.spaces[j].stamps| == CAP_SLOTS
      ensures |t.mem.spaces[j].dma| == |t.mem.spaces[j].shares| == |t.mem.spaces[j].windows| == SHARE_SLOTS
    {
      SweptByCaps(s.auth, plan, |plan|, j);
      SpaceThroughPlan(s.mem, t.mem, plan, j);
    }
    forall j | 0 <= j < MAX_PROCS ensures HeldAt(t, j) && AgreeAt(t, j) {
      assert HeldAt(s, j) && AgreeAt(s, j);
      SweptByCaps(s.auth, plan, |plan|, j);
      SpaceThroughPlan(s.mem, t.mem, plan, j);
      P.EveryStepSound(s.mem, ram, plan, |plan|);
      PlanNext(s.mem, t.mem, plan);
      if Live(s, j) {
        CutHeld(Caps(s, j), Caps(t, j), Gone(plan, |plan|), s.mem.spaces[j], t.mem.spaces[j], s.rv.ports[j].state, s.own[j],
                s.fired, s.mem.nextRegion);
      }
    }
  }

  lemma {:induction false} PlanNext(m: M.Mem, n: M.Mem, steps: seq<R.Step>)
    requires P.After(m, n, steps)
    ensures n.nextRegion == m.nextRegion
  {}

  lemma {:induction false} FreeRegionCore(s: State, ram: set<nat>, i: nat, cap: nat)
    requires Core(s, ram) && i < MAX_PROCS && Receptive(s, i)
    ensures Core(FreeRegionStep(s, i, cap), ram)
  {
    hide A.Sound, M.SoundBut, Body, Contains, Executed, P.DestroyPlan, R.Phased, P.UnmapsHolders, P.Releases, P.PlanOk;
    MemShape(s, ram);
    ReturnCore(s, ram, i, NO_CAP, 0, 0);
    var id := ObjectOf(Caps(s, i), cap, RegionCap, WRITE);
    if id.Some? {
      var plan := P.DestroyPlan(s.mem, id.value);
      P.DestroyPlanOk(s.mem, ram, id.value);
      ExecutedCore(s, ram, plan);
      ExecutedPorts(s, plan);
      ReturnCore(Executed(s, plan), ram, i, OK, 0, 0);
    }
  }

  lemma {:induction false} ExecutedPorts(s: State, plan: seq<R.Step>)
    ensures Executed(s, plan).rv == s.rv && Executed(s, plan).run == s.run && Executed(s, plan).own == s.own
  {}
}
