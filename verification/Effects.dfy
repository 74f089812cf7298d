/** What single kernel entries promise their caller, and what they promise everyone else. */
module Effects {
  import opened Abi
  import opened Basics
  import opened Capabilities
  import opened Deleg
  import opened Sched
  import opened Machine
  import opened Invariant
  import MS = MemorySteps
  import LS = LifeSteps
  import A = Authority
  import M = Memory
  import L = Lifetime
  import P = Plans
  import S = Supply
  import V = Rendezvous
  import D = Dma
  import R = Regions

  // ------------------------------------------------------------------- regions

  /** MAKE_REGION either mints a capability, in the returned slot, over a new region holding exactly
      the frames taken, with the rights it was made under; or it leaves no trace at all. */
  lemma {:induction false} MakeRegionMintsOrNothing(s: State, ram: set<nat>, i: nat, cap: nat, pages: nat, got: seq<nat>)
    requires Body(s, ram) && Sized(s) && i < MAX_PROCS && Feasible(s, i, MakeRegion(cap, pages, got))
    ensures var t := MakeRegionStep(s, i, cap, pages, got);
            && i < |t.rv.ports| && i < |t.auth.spaces|
            && var r := t.rv.ports[i].r0;
            if r < CAP_SLOTS then
              && cap < CAP_SLOTS && Caps(s, i)[cap].ty == Untyped && Contains(Caps(s, i)[cap].rights, WRITE)
              && |t.auth.spaces[i].caps| == CAP_SLOTS && Caps(s, i)[r].ty == Null
              && Caps(t, i) == Caps(s, i)[r := Cap(RegionCap, Caps(s, i)[cap].rights, s.mem.nextRegion)]
              && M.FramesOf(t.mem.regions, s.mem.nextRegion) == got && |got| == pages
              && t.mem.pool == s.mem.pool - L.SetOf(got)
              && M.RegionAt(s.mem.regions, s.mem.nextRegion) == |s.mem.regions|
            else t == Return(s, i, r)
  {
    hide L.SetOf, Contains, Holds, V.Sound, QueueIs, Held;
    MS.MemShape(s, ram);
    L.ShapeOf(s.mem, ram, false);
    var caps := Caps(s, i);
    var slot := FreeRegionSlot(s.mem.regions);
    FreshRegion(s.mem.regions, s.mem.nextRegion);
    if MayMint(caps, cap) && slot < |s.mem.regions| && |got| >= pages >= 1 {
      NewRegionAt(s.mem.regions, slot, M.Region(true, s.mem.nextRegion, s.mem.spaces[i].id, got));
    }
  }

  lemma {:induction false} FreshRegion(rs: seq<M.Region>, next: nat)
    requires M.RegionsOk(rs, next)
    ensures M.RegionAt(rs, next) == |rs|
  {
  }

  lemma {:induction false} NewRegionAt(rs: seq<M.Region>, i: nat, r: M.Region)
    requires i < |rs| && r.live && r.id != 0 && M.RegionAt(rs, r.id) == |rs|
    ensures M.FramesOf(rs[i := r], r.id) == r.frames
  {
    var ss := rs[i := r];
    var k := M.RegionAt(ss, r.id);
    assert ss[i].live && ss[i].id == r.id;
    assert k < |ss| && ss[k].live && ss[k].id == r.id;
  }

  /** FREE_REGION that succeeds leaves nothing of the region: not the region, no window, no record, no
      capability over it in any live process; and its frames are in the pool, where nothing names them. */
  lemma {:induction false} FreeRegionLeavesNothing(s: State, ram: set<nat>, i: nat, cap: nat)
    requires Core(s, ram) && Sized(s) && i < MAX_PROCS && Receptive(s, i)
    requires FreeRegionStep(s, i, cap).rv.ports[i].r0 == OK
    ensures var t, r := FreeRegionStep(s, i, cap), Caps(s, i)[cap].obj;
            && cap < CAP_SLOTS && M.RegionAt(s.mem.regions, r) < |s.mem.regions|
            && s.mem.regions[M.RegionAt(s.mem.regions, r)].owner == s.mem.spaces[i].id && Holds(Caps(s, i), RegionCap, r, WRITE)
            && M.RegionAt(t.mem.regions, r) == |t.mem.regions|
            && |t.mem.spaces| == |t.auth.spaces| == MAX_PROCS
            && (forall p, k :: 0 <= p < MAX_PROCS && 0 <= k < |t.mem.spaces[p].shares| ==> t.mem.spaces[p].shares[k] != r)
            && (forall p, k :: 0 <= p < MAX_PROCS && 0 <= k < |t.mem.spaces[p].dma| ==> t.mem.spaces[p].dma[k].region != r)
            && (forall p: nat :: p < MAX_PROCS && Live(s, p) ==> NoneOver(t.auth.spaces[p].caps, r))
            && (forall f :: f in M.FramesOf(s.mem.regions, r) ==> f in t.mem.pool)
  {
    hide A.Sound, M.SoundBut, Body, Contains, P.RunPlan, SweptBy, NoneOver, P.DestroyPlan, R.Phased, P.UnmapsHolders, P.Releases, P.PlanOk, M.FramesOf, M.RegionAt;
    MS.MemShape(s, ram);
    var id := ObjectOf(Caps(s, i), cap, RegionCap, WRITE);
    var plan := P.DestroyPlan(s.mem, id.value);
    P.DestroyPlanOk(s.mem, ram, id.value);
    MS.ExecutedCore(s, ram, plan);
    MS.ExecutedPorts(s, plan);
    var t := Executed(s, plan);
    MS.MemShape(t, ram);
    RegionReleased(s, t, ram, plan, id.value);
    forall p: nat | p < MAX_PROCS && Live(s, p) ensures NoneOver(t.auth.spaces[p].caps, id.value) {
      CapsCut(s, ram, plan, id.value, p);
    }
    FramesFreed(s, t, ram, plan, id.value);
  }

  lemma {:induction false} RegionReleased(s: State, t: State, ram: set<nat>, plan: seq<R.Step>, r: nat)
    requires P.After(s.mem, t.mem, plan) && M.Sound(t.mem, ram) && M.Sound(s.mem, ram)
    requires P.Releases(plan, r) && r != 0
    ensures M.RegionAt(t.mem.regions, r) == |t.mem.regions|
    ensures forall p, k :: 0 <= p < |t.mem.spaces| && 0 <= k < |t.mem.spaces[p].shares| ==> t.mem.spaces[p].shares[k] != r
    ensures forall p, k :: 0 <= p < |t.mem.spaces| && 0 <= k < |t.mem.spaces[p].dma| ==> t.mem.spaces[p].dma[k].region != r
  {
    hide P.Releases, M.Conserved, M.DevicesOk, M.RegionsOk, M.OwnersOk, M.DevicesShaped, M.ReachOk, M.QuietOk, P.SpaceAfter;
    forall p, j | 0 <= p < |t.mem.spaces| && 0 <= j < |t.mem.spaces[p].shares| ensures t.mem.spaces[p].shares[j] != r {
      L.ShapeOf(t.mem, ram, false);
      assert M.WindowOk(t.mem.regions, t.mem.spaces[p].shares[j], t.mem.spaces[p].windows[j]);
    }
  }

  /** No capability over region `r`, whatever its rights. */
  ghost predicate NoneOver(caps: seq<Cap>, r: nat) {
    forall need :: !Holds(caps, RegionCap, r, need)
  }

  lemma {:induction false} CapsCut(s: State, ram: set<nat>, plan: seq<R.Step>, r: nat, p: nat)
    requires Sized(s) && Body(s, ram) && p < MAX_PROCS && Live(s, p) && R.ForgetCaps(r) in plan
    ensures |SweptBy(s.auth, plan, |plan|).spaces| == MAX_PROCS
    ensures NoneOver(SweptBy(s.auth, plan, |plan|).spaces[p].caps, r)
  {
    hide SweptBy, A.Cut, Holds, Body, M.SoundBut;
    LS.BodyAgrees(s, ram, p);
    MS.SweptByCaps(s.auth, plan, |plan|, p);
    assert plan[..|plan|] == plan;
    var caps := SweptBy(s.auth, plan, |plan|).spaces[p].caps;
    forall need ensures !Holds(caps, RegionCap, r, need) {
      A.CutHolds(s.auth.spaces[p].caps, caps, MS.Gone(plan, |plan|), RegionCap, r, need);
    }
  }

  /** A frame of a released region can only be in the pool: every frame is somewhere, and the other
      places did not change hands. */
  lemma {:induction false} FramesFreed(s: State, t: State, ram: set<nat>, plan: seq<R.Step>, r: nat)
    requires M.Sound(s.mem, ram) && M.Sound(t.mem, ram) && P.After(s.mem, t.mem, plan)
    requires r != 0 && M.RegionAt(s.mem.regions, r) < |s.mem.regions| && P.Releases(plan, r)
    ensures forall f :: f in M.FramesOf(s.mem.regions, r) ==> f in t.mem.pool
  {
    hide P.Releases, M.DevicesOk, M.OwnersOk, M.DevicesShaped, M.ReachOk, M.QuietOk, M.WindowsOk, M.RecordsOk;
    var i := M.RegionAt(s.mem.regions, r);
    M.RegionFrameIsExclusive(s.mem, ram, i);
    forall f | f in M.FramesOf(s.mem.regions, r) ensures f in t.mem.pool {
      M.CountOne(t.mem, ram, f);
      forall j | 0 <= j < |t.mem.regions| ensures f !in M.Shared(t.mem.regions)[j] {
        assert t.mem.regions[j].live ==> t.mem.regions[j] == s.mem.regions[j];
      }
      NotInSum(M.Shared(t.mem.regions), f);
      forall p | 0 <= p < |t.mem.spaces| ensures f !in M.Held(t.mem.spaces)[p] {
        assert P.SpaceAfter(s.mem.spaces[p], t.mem.spaces[p], p, plan);
      }
      NotInSum(M.Held(t.mem.spaces), f);
    }
  }

  lemma {:induction false} NotInSum(ls: seq<seq<nat>>, f: nat)
    requires forall j :: 0 <= j < |ls| ==> f !in ls[j]
    ensures f !in M.Sum(ls)
  {
    if ls != [] {
      var n := |ls| - 1;
      assert forall j :: 0 <= j < n ==> ls[..n][j] == ls[j];
      NotInSum(ls[..n], f);
    }
  }

  /** UNMAP_REGION that succeeds leaves no slot of the caller showing the region, and touches no
      other slot and nobody else. */
  lemma {:induction false} UnmapRegionLeavesNone(s: State, ram: set<nat>, i: nat, cap: nat)
    requires Core(s, ram) && Sized(s) && i < MAX_PROCS && cap < CAP_SLOTS
    requires UnmapRegionStep(s, i, cap).rv.ports[i].r0 == OK
    ensures var t, r := UnmapRegionStep(s, i, cap), Caps(s, i)[cap].obj;
            && |t.mem.spaces| == MAX_PROCS && |t.mem.spaces[i].shares| == |t.mem.spaces[i].windows| == SHARE_SLOTS
            && (forall k :: 0 <= k < SHARE_SLOTS ==>
                  if s.mem.spaces[i].shares[k] == r then t.mem.spaces[i].shares[k] == 0
                  else t.mem.spaces[i].shares[k] == s.mem.spaces[i].shares[k] && t.mem.spaces[i].windows[k] == s.mem.spaces[i].windows[k])
            && (forall j :: 0 <= j < MAX_PROCS && j != i ==> t.mem.spaces[j] == s.mem.spaces[j])
  {
    hide A.Sound, M.SoundBut, Body, DropShares;
    MS.MemShape(s, ram);
    var drop := SlotsShowing(s.mem.spaces[i].shares, Caps(s, i)[cap].obj);
    MS.DropSharesSound(s.mem, ram, false, i, drop, SHARE_SLOTS);
  }

  /** MAP_REGION that returns an address shows the caller, in the slot of that address, exactly the
      region's frames, writable exactly when the capability used carries WRITE; no other slot of
      anybody changes. One that runs out of memory on the way leaves that slot showing nothing. */
  lemma {:induction false} MapRegionShows(s: State, ram: set<nat>, i: nat, cap: nat, tables: seq<nat>, installed: bool)
    requires Core(s, ram) && Sized(s) && i < MAX_PROCS && cap < CAP_SLOTS
    ensures var t, c := MapRegionStep(s, i, cap, tables, installed), Caps(s, i)[cap];
            && |t.mem.spaces| == MAX_PROCS
            && (forall j :: 0 <= j < MAX_PROCS && j != i ==> t.mem.spaces[j] == s.mem.spaces[j])
            && |t.mem.spaces[i].shares| == |t.mem.spaces[i].windows| == SHARE_SLOTS
            && (t.mem != s.mem ==> Holds(Caps(s, i), RegionCap, c.obj, READ))
            && forall k :: 0 <= k < SHARE_SLOTS ==>
                 var share, w := t.mem.spaces[i].shares[k], t.mem.spaces[i].windows[k];
                 if t.rv.ports[i].r0 == ShareVa(k)
                 then share == c.obj && w.frames == M.FramesOf(s.mem.regions, c.obj) && (w.writable <==> Contains(c.rights, WRITE))
                 else share == s.mem.spaces[i].shares[k] && (w == s.mem.spaces[i].windows[k] || w == M.NO_WINDOW)
  {
    hide A.Sound, M.SoundBut, Body, Contains, M.RegionAt, MapSlot;
    MS.MemShape(s, ram);
  }

  // ------------------------------------------------------------------- delegation

  /** Every capability among `caps` is the one handed over, with exactly the rights that both it and
      the request confer. */
  ghost predicate OnlyHanded(caps: seq<Cap>, held: Option<Cap>, word: bv64) {
    forall c :: 0 <= c < |caps| && caps[c].ty != Null ==>
      && held.Some? && caps[c].ty == held.value.ty && caps[c].obj == held.value.obj
      && forall need :: Contains(caps[c].rights, need) <==> Contains(held.value.rights, need) && Contains(FromUser(word), need)
  }

  /** SPAWN gives nobody anything but a process that did not exist, and that process only what the
      caller named, attenuated to what it asked for. */
  lemma {:induction false} SpawnHandsOver(s: State, ram: set<nat>, i: nat, cap: nat, give: Option<nat>, request: bv64, load: Option<seq<nat>>, p: nat)
    requires Core(s, ram) && Sized(s) && i < MAX_PROCS && p < MAX_PROCS
    ensures var t := SpawnStep(s, i, cap, give, request, load);
            && |t.auth.spaces| == |t.rv.ports| == MAX_PROCS
            && (t.auth.spaces[p] != s.auth.spaces[p] ==>
                  && s.rv.ports[p].state.Free? && t.rv.ports[p].state.Ready? && t.rv.ports[p].id == t.auth.spaces[p].id == s.auth.nextId
                  && cap < CAP_SLOTS && Caps(s, i)[cap].ty == Untyped && Contains(Caps(s, i)[cap].rights, WRITE) && p in t.run.q
                  && OnlyHanded(t.auth.spaces[p].caps, if give.Some? then Lookup(Caps(s, i), give.value) else None, request))
  {
    hide A.Sound, M.SoundBut, Body, Contains, FromUser, Intersect, S.Load, NewOwn, Recorded, LiveCount, FreeSlot;
    if give.Some? && Lookup(Caps(s, i), give.value).Some? {
      forall need ensures Contains(Intersect(Caps(s, i)[give.value].rights, FromUser(request)), need) <==>
                          Contains(Caps(s, i)[give.value].rights, need) && Contains(FromUser(request), need) {
        IntersectIsMeet(Caps(s, i)[give.value].rights, FromUser(request), need);
      }
    }
  }

  // ------------------------------------------------------------------- device reach

  /** From slot `first` of domain `d` on, exactly the frames `fs` with exactly this access, over
      entries that were absent, and every other entry of every domain as it was; for None, every
      entry as it was. */
  ghost predicate Installed(was: seq<D.Device>, now: seq<D.Device>, first: Option<nat>, d: nat, fs: seq<nat>, rights: Rights) {
    && |now| == |was|
    && (first.Some? ==> d < |was| && |was[d].leaves| == D.L1_SLOTS && D.FreeRun(was[d].leaves, first.value, |fs|))
    && forall e, a :: 0 <= e < |was| && 0 <= a < D.L1_SLOTS ==>
         && |was[e].leaves| == |now[e].leaves| == D.L1_SLOTS
         && now[e].leaves[a] ==
            if first.Some? && e == d && first.value <= a < first.value + |fs| then D.LeafFor(fs[a - first.value], rights)
            else was[e].leaves[a]
  }

  /** MAP_DMA returns the address at which it put exactly the region's frames with exactly the
      capability's access; refused or rolled back, it has changed no entry of any table. */
  lemma {:induction false} MapDmaInstalls(m: M.Mem, ram: set<nat>, p: nat, domain: nat, region: nat, rights: Rights)
    returns (first: Option<nat>)
    requires M.Sound(m, ram) && p < |m.spaces| && m.spaces[p].live
    ensures M.Shaped(m) && M.RegionsOk(m.regions, m.nextRegion)
    ensures forall d :: 0 <= d < |m.devs| ==> |m.devs[d].leaves| == D.L1_SLOTS
    ensures var out := S.MapDma(m, p, domain, region, rights);
            && Installed(m.devs, out.m.devs, first, M.DomainAt(m.devs, domain), M.FramesOf(m.regions, region), rights)
            && if first.Some? then out.ret == first.value * S.PAGE_SIZE else out.ret == NO_MEM || out.ret == NO_CAP
  {
    hide M.SoundBut, D.MapPages, D.FindRun, S.FreeRecord, D.LeafFor, D.MapPre, D.DeviceOk, M.Shaped, M.RegionsOk;
    S.LeafTables(m, ram);
    L.ShapeOf(m, ram, false);
    ShapedOf(m, ram);
    var d, i := M.DomainAt(m.devs, domain), M.RegionAt(m.regions, region);
    first := None;
    if d < |m.devs| && i < |m.regions| {
      var fs := m.regions[i].frames;
      HasPages(m, ram, i);
      S.FindRunRoom(m.devs[d].leaves, |fs|);
      var run := D.FindRun(m.devs[d].leaves, |fs|, D.FIRST_SLOT, 0);
      if run.Some? {
        S.InstallPre(m, ram, d, i, run.value);
        S.MapTables(m.devs[d], fs, rights, run.value);
        if m.devs[d].table && S.FreeRecord(m.spaces[p].dma) < |m.spaces[p].dma| && D.MapPages(m.devs[d], fs, rights, run.value, 0).ok {
          first := run;
        }
      }
    }
  }

  lemma {:induction false} ShapedOf(m: M.Mem, ram: set<nat>)
    requires M.Sound(m, ram)
    ensures M.Shaped(m) && M.RegionsOk(m.regions, m.nextRegion)
  {
    hide M.Conserved, M.DevicesOk, M.OwnersOk, M.DevicesShaped, M.ReachOk, M.QuietOk, M.WindowsOk, M.RecordsOk;
  }

  lemma {:induction false} HasPages(m: M.Mem, ram: set<nat>, i: nat)
    requires M.Sound(m, ram) && i < |m.regions| && m.regions[i].live
    ensures 0 < |m.regions[i].frames|
  {
    hide M.Conserved, M.DevicesOk, M.OwnersOk, M.DevicesShaped, M.ReachOk, M.QuietOk, M.WindowsOk, M.RecordsOk;
  }

  // ------------------------------------------------------------------- the device window

  /** MAP_BAR that succeeds shows the caller exactly what the capability used names, writable exactly
      when the capability is; one refused for want of authority or of such a window changes nothing;
      one that fails on the way leaves no window, not even an earlier one. Page-table frames taken
      are the caller's either way, and nobody else is touched. */
  lemma {:induction false} MapBarShows(s: State, ram: set<nat>, i: nat, cap: nat, known: bool, tables: seq<nat>, installed: bool, copied: bool)
    requires Core(s, ram) && Sized(s) && i < MAX_PROCS
    ensures var t := MapBarStep(s, i, cap, known, tables, installed, copied);
            && |t.own| == |t.mem.spaces| == |t.rv.ports| == MAX_PROCS && t.auth == s.auth && t.mem.regions == s.mem.regions
            && (forall j :: 0 <= j < MAX_PROCS && j != i ==> t.own[j] == s.own[j] && t.mem.spaces[j] == s.mem.spaces[j])
            && var r := t.rv.ports[i].r0;
            && (r == OK ==>
                  && cap < CAP_SLOTS && t.own[i].bar.Some? && Shows(Caps(s, i)[cap], t.own[i].bar.value)
                  && (t.own[i].bar.value.writable <==> Contains(Caps(s, i)[cap].rights, WRITE)))
            && (r != OK ==> t.own[i].bar == None || t == Return(s, i, r))
            && (t == Return(s, i, r)
                || (t.mem.pool == s.mem.pool - L.SetOf(tables) && t.mem.spaces[i].frames == s.mem.spaces[i].frames + tables))
            && (t.own[i].bar != s.own[i].bar ==> HoldsMmio(Caps(s, i)))
  {
    hide A.Sound, M.SoundBut, Body, Contains, L.SetOf;
    MS.MemShape(s, ram);
  }

  // ------------------------------------------------------------------- interrupts

  /** What POLL_IRQ and WAIT_IRQ return is what they mark collected, on that line only; afterwards
      nothing is pending there. */
  lemma {:induction false} CollectedIsReturned(s: State, i: nat, cap: nat, line: nat)
    requires Sized(s) && i < MAX_PROCS && s.rv.ports[i].state.Ready?
    requires ObjectOf(Caps(s, i), cap, Irq, READ) == Some(line) && line < MAX_IRQ_LINES
    ensures var t := PollStep(s, i, cap);
            && Sized(t) && t.own[i].irq[line].returned == s.own[i].irq[line].returned + t.rv.ports[i].r0
            && t.own[i].irq[line].pending == 0
            && forall l :: 0 <= l < MAX_IRQ_LINES && l != line ==> t.own[i].irq[l] == s.own[i].irq[l]
    ensures var t := WaitStep(s, i, cap);
            && Sized(t) && (forall l :: 0 <= l < MAX_IRQ_LINES && l != line ==> t.own[i].irq[l] == s.own[i].irq[l])
            && (Delivers(line) && t.rv.ports[i].state.Ready? ==>
                  && t.rv.ports[i].r0 > 0 && t.own[i].irq[line].pending == 0
                  && t.own[i].irq[line].returned == s.own[i].irq[line].returned + t.rv.ports[i].r0)
            && (!t.rv.ports[i].state.Ready? ==>
                  t.rv.ports[i].state == V.BlockedIrq(line) && s.own[i].irq[line].pending == 0)
  {
    hide Holds;
  }

  /** An interrupt wakes a waiter with everything it was owed, counting this one. */
  lemma {:induction false} WokenIsCredited(s: State, line: nat, i: nat)
    requires Sized(s) && i < MAX_PROCS && line < MAX_IRQ_LINES
    requires s.rv.ports[i].state == V.BlockedIrq(line) && Holds(Caps(s, i), Irq, line, READ)
    ensures var t, l := CreditOne(s, line, i), s.own[i].irq[line];
            && Sized(t) && t.rv.ports[i].state.Ready? && i in t.run.q && t.own[i].irq[line].pending == 0
            && t.own[i].irq[line].returned == l.returned + t.rv.ports[i].r0
            && (l.pending < U64_MAX ==> t.rv.ports[i].r0 == l.pending + 1)
            && forall k :: 0 <= k < MAX_IRQ_LINES && k != line ==> t.own[i].irq[k] == s.own[i].irq[k]
  {
    hide Holds;
  }

  // ------------------------------------------------------------------- nobody is stranded

  /** After a death, whoever is still blocked in SEND or RECV has another live process that could
      answer; and those woken are told so in exactly the registers their call returns. */
  lemma {:induction false} ExitStrandsNobody(s: State, ram: set<nat>, i: nat, j: nat)
    requires Core(s, ram) && Sized(s) && i < MAX_PROCS && Receptive(s, i) && j < MAX_PROCS && j != i
    ensures var t := ExitStep(s, i);
            && Sized(t) && t.rv.ports[j].id == s.rv.ports[j].id
            && (t.rv.ports[j].state.BlockedSend? ==> Answerable(t, j, t.rv.ports[j].state.ep, READ))
            && (t.rv.ports[j].state.BlockedRecv? ==> Answerable(t, j, t.rv.ports[j].state.ep, WRITE))
            && (t.rv.ports[j] != s.rv.ports[j] ==>
                  && t.rv.ports[j].state.Ready? && t.rv.ports[j].r0 == NO_CAP && j in t.run.q
                  && if s.rv.ports[j].state.BlockedRecv? then t.rv.ports[j].r1 == 0 && t.rv.ports[j].r2 == 0
                     else t.rv.ports[j].r1 == s.rv.ports[j].r1 && t.rv.ports[j].r2 == s.rv.ports[j].r2)
  {
    hide A.Sound, M.SoundBut, Body, Buried, Holds, WakeRefusedWhere;
    LS.BuriedCore(s, ram, i);
    var b := Buried(s, i);
    var wake := seq(MAX_PROCS, k requires 0 <= k < MAX_PROCS => StrandedByDeath(b, k));
    LS.StrandedPending(b, ram);
    WakeRefusedWhereBody(b, ram, wake, MAX_PROCS);
    BodySized(WakeRefusedWhere(b, wake, MAX_PROCS), ram);
    WokenPort(b, wake, MAX_PROCS, j);
    StillLive(b, wake, MAX_PROCS);
    SameAnswers(b, ExitStep(s, i));
    assert b.rv.ports[j] == s.rv.ports[j];
  }

  lemma {:induction false} SameAnswers(b: State, t: State)
    requires Sized(b) && Sized(t) && t.auth == b.auth && forall k :: 0 <= k < MAX_PROCS ==> Live(t, k) == Live(b, k)
    ensures forall j, ep: nat, need :: Answerable(b, j, ep, need) ==> Answerable(t, j, ep, need)
  {
    hide Holds;
    forall j, ep: nat, need | Answerable(b, j, ep, need) ensures Answerable(t, j, ep, need) {
      var k :| 0 <= k < MAX_PROCS && k != j && Live(b, k) && Holds(Caps(b, k), EndpointCap, ep, need);
      assert Live(t, k) && Holds(Caps(t, k), EndpointCap, ep, need);
    }
  }

  lemma {:induction false} StillLive(s: State, wake: seq<bool>, n: nat)
    requires n <= |wake| <= |s.rv.ports| && forall k :: 0 <= k < |wake| && wake[k] ==> Live(s, k)
    ensures var t := WakeRefusedWhere(s, wake, n);
            t.auth == s.auth && forall k :: 0 <= k < |s.rv.ports| ==> Live(t, k) == Live(s, k)
  {
    if n > 0 { StillLive(s, wake, n - 1); }
  }

  lemma {:induction false} WokenPort(s: State, wake: seq<bool>, n: nat, j: nat)
    requires n <= |wake| <= |s.rv.ports| && j < |wake|
    ensures var t, p := WakeRefusedWhere(s, wake, n), s.rv.ports[j];
            if j < n && wake[j] then
              && t.rv.ports[j] == (if p.state.BlockedRecv? then p.(r0 := NO_CAP, r1 := 0, r2 := 0) else p.(r0 := NO_CAP)).(state := V.Ready, pending := 0)
              && j in t.run.q
            else t.rv.ports[j] == p
  {
    if n > 0 { WokenPort(s, wake, n - 1, j); }
  }
}
