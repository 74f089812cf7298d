/** The calls that give devices reach and take it back: MAP_DMA and UNMAP_DMA, each with exactly when it
    is refused and exactly what it leaves in the tables. */
module Drivers {
  import opened Abi
  import opened Basics
  import opened Capabilities
  import opened Deleg
  import opened Machine
  import opened Invariant
  import opened Runs
  import opened Calls
  import opened Making
  import opened Tenure
  import A = Authority
  import M = Memory
  import L = Lifetime
  import S = Supply
  import V = Rendezvous
  import D = Dma
  import I = Iommu

  // ------------------------------------------------------------------- taking frames away from a device

  ghost function All(fs: seq<nat>): iset<nat> {
    iset f | f in fs
  }

  /** `e` is `d` without these frames: exactly their entries, mappings and grants are gone, and nothing is
      cached that was not. */
  ghost predicate Cleared(d: D.Device, e: D.Device, fs: iset<nat>) {
    && e.id == d.id && e.table == d.table && e.tlb <= d.tlb && |e.leaves| == |d.leaves|
    && (forall a :: 0 <= a < |d.leaves| ==>
          e.leaves[a] == if d.leaves[a].Present? && d.leaves[a].frame in fs then D.Absent else d.leaves[a])
    && (forall a :: a in e.dom.maps <==> a in d.dom.maps && d.dom.maps[a].frame !in fs)
    && (forall a :: a in e.dom.maps ==> e.dom.maps[a] == d.dom.maps[a])
    && (forall f :: f in e.dom.grants <==> f in d.dom.grants && f !in fs)
    && (forall f :: f in e.dom.grants ==> e.dom.grants[f] == d.dom.grants[f])
  }

  lemma {:induction false} ClearedNothing(d: D.Device)
    ensures Cleared(d, d, iset{}) && Cleared(d, D.Invalidate(d), iset{})
  {}

  lemma {:induction false} ClearedTwice(d: D.Device, e: D.Device, f: D.Device, fs: iset<nat>, gs: iset<nat>)
    requires Cleared(d, e, fs) && Cleared(e, f, gs)
    ensures Cleared(d, f, fs + gs)
  {}

  lemma {:induction false} WithdrawClears(d: D.Device, fs: seq<nat>)
    ensures Cleared(d, D.Withdraw(d, fs, |fs|), All(fs))
    ensures Cleared(d, D.Invalidate(D.Withdraw(d, fs, |fs|)), All(fs))
  {
    hide D.Withdraw;
    D.WithdrawIs(d, fs, |fs|);
    assert fs[..|fs|] == fs;
  }

  // ------------------------------------------------------------------- UNMAP_DMA

  /** Domain slot `d` is claimed under this identity. */
  predicate IsDomain(devs: seq<D.Device>, d: nat, id: nat) {
    d < |devs| && id != 0 && devs[d].id == id
  }

  predicate NoneClaimed(devs: seq<D.Device>) {
    forall d :: 0 <= d < |devs| ==> devs[d].id == 0
  }

  /** Only process `i` and domain `d` are different, and what the caller is told. */
  ghost predicate OneDriver(s: State, u: State, i: nat, d: nat, r0: nat) {
    && i < |s.mem.spaces| == |u.mem.spaces| && d < |s.mem.devs| == |u.mem.devs| && i < |s.rv.ports|
    && u == s.(mem := u.mem, rv := s.rv.(ports := s.rv.ports[i := s.rv.ports[i].(r0 := r0)]))
    && u.mem == s.mem.(devs := s.mem.devs[d := u.mem.devs[d]],
                       spaces := s.mem.spaces[i := s.mem.spaces[i].(dma := u.mem.spaces[i].dma)])
    && |u.mem.spaces[i].dma| == |s.mem.spaces[i].dma|
  }

  /** Region slot `at` is withdrawn from domain `d`: the domain keeps nothing of its frames and its unit
      nothing at all, and the caller's records of that pair are gone. */
  ghost predicate Undriven(s: State, u: State, i: nat, d: nat, at: nat) {
    && OneDriver(s, u, i, d, OK) && at < |s.mem.regions|
    && Cleared(s.mem.devs[d], u.mem.devs[d], All(s.mem.regions[at].frames)) && u.mem.devs[d].tlb == {}
    && var was, now := s.mem.spaces[i].dma, u.mem.spaces[i].dma;
    forall k :: 0 <= k < |was| ==>
      now[k] == if was[k].region == s.mem.regions[at].id && was[k].domain == s.mem.devs[d].id then M.NO_RECORD else was[k]
  }

  /** UNMAP_DMA: refused without both authorities, then where no domain is claimed at all, then where the
      one named is not or the region is gone; otherwise the region is withdrawn. */
  ghost predicate UnmapDmaContract(s: State, u: State, i: nat, dom: nat, reg: nat) {
    && i < |s.auth.spaces|
    && var caps := Caps(s, i);
    if !Carries(caps, dom, IommuDomain, WRITE) || !Carries(caps, reg, RegionCap, READ) then OnlyTold(s, u, i, NO_CAP)
    else if NoneClaimed(s.mem.devs) then OnlyTold(s, u, i, NO_MEM)
    else if || (forall d :: !IsDomain(s.mem.devs, d, caps[dom].obj)) || (forall k :: !IsRegion(s.mem.regions, k, caps[reg].obj))
    then OnlyTold(s, u, i, NO_CAP)
    else forall d: nat, at: nat :: IsDomain(s.mem.devs, d, caps[dom].obj) && IsRegion(s.mem.regions, at, caps[reg].obj) ==>
           Undriven(s, u, i, d, at)
  }

  lemma {:induction false} UnmapDmaDoes(s: State, ram: set<nat>, dom: nat, reg: nat, taken: bool)
    requires Inv(s, ram) && Enabled(s, Syscall(UnmapDma(dom, reg), taken))
    ensures UnmapDmaContract(s, Step(s, Syscall(UnmapDma(dom, reg), taken)), s.current, dom, reg)
  {
    hide Body, A.Sound, Sized, Step, Ended, UnmapDmaContract, UnmapDmaStep;
    EntryEnds(s, ram, UnmapDma(dom, reg), taken);
    CallerReady(s, ram);
    RegionsApart(s, ram);
    DomainsApart(s, ram);
    UnmapDmaTakes(s, s.current, dom, reg);
    RunsOn(s, ram, UnmapDmaStep(s, s.current, dom, reg), Step(s, Syscall(UnmapDma(dom, reg), taken)));
  }

  ghost predicate Apart(devs: seq<D.Device>) {
    forall d, e :: 0 <= d < e < |devs| && devs[d].id != 0 ==> devs[d].id != devs[e].id
  }

  lemma {:induction false} DomainsApart(s: State, ram: set<nat>)
    requires Inv(s, ram)
    ensures Apart(s.mem.devs)
  {
    hide A.Sound, V.Sound, Coherent, Backed, M.WindowsOk, M.RecordsOk, M.DevicesOk, M.RegionsOk, M.ReachOk, M.QuietOk, M.Conserved, M.OwnersOk;
  }

  lemma {:induction false} DomainFound(devs: seq<D.Device>, id: nat)
    requires Apart(devs)
    ensures forall d: nat :: IsDomain(devs, d, id) <==> d == M.DomainAt(devs, id) < |devs|
  {}

  lemma {:induction false} UnmapDmaTakes(s: State, i: nat, dom: nat, reg: nat)
    requires Sized(s) && i < MAX_PROCS && Receptive(s, i) && M.RegionsOk(s.mem.regions, s.mem.nextRegion) && Apart(s.mem.devs)
    ensures var t := UnmapDmaStep(s, i, dom, reg);
            && UnmapDmaContract(s, t, i, dom, reg)
            && t.run == s.run && t.mode == s.mode && t.current == s.current
            && i < |t.rv.ports| && t.rv.ports[i].pending == 0
  {
    hide Contains, M.RegionAt, M.DomainAt, L.UnmapDma, Undriven, Apart;
    var caps := Caps(s, i);
    if Carries(caps, dom, IommuDomain, WRITE) && Carries(caps, reg, RegionCap, READ) {
      DomainFound(s.mem.devs, caps[dom].obj);
      RegionFound(s.mem.regions, s.mem.nextRegion, caps[reg].obj);
      var d, at := M.DomainAt(s.mem.devs, caps[dom].obj), M.RegionAt(s.mem.regions, caps[reg].obj);
      if d < |s.mem.devs| && at < |s.mem.regions| {
        assert IsDomain(s.mem.devs, d, caps[dom].obj) && IsRegion(s.mem.regions, at, caps[reg].obj);
        Withdrawn(s, i, d, at);
      }
    }
  }

  lemma {:induction false} Withdrawn(s: State, i: nat, d: nat, at: nat)
    requires Sized(s) && i < MAX_PROCS && d < |s.mem.devs| && at < |s.mem.regions|
    ensures Undriven(s, Return(s.(mem := L.UnmapDma(s.mem, i, d, at)), i, OK), i, d, at)
  {
    hide D.Withdraw, Cleared;
    WithdrawClears(s.mem.devs[d], s.mem.regions[at].frames);
    var t := L.UnmapDma(s.mem, i, d, at);
    assert t.spaces[i] == s.mem.spaces[i].(dma := t.spaces[i].dma);
  }

  // ------------------------------------------------------------------- MAP_DMA

  /** The lowest run of `n` absent entries starts at `first`. */
  ghost predicate LowestRun(leaves: seq<D.Leaf>, first: nat, n: nat)
    requires |leaves| == D.L1_SLOTS
  {
    D.FreeRun(leaves, first, n) && forall f: nat :: f < first ==> !D.FreeRun(leaves, f, n)
  }

  ghost predicate FirstEmptyRecord(dma: seq<M.Record>, k: nat) {
    k < |dma| && dma[k].region == 0 && forall j :: 0 <= j < k ==> dma[j].region != 0
  }

  /** Domain `e` is `d` with these frames mapped from slot `first` on, in table and model, and nothing else
      changed; with None, with nothing changed in table, model mappings or cache. */
  ghost predicate Driven(d: D.Device, e: D.Device, first: Option<nat>, fs: seq<nat>, rights: Rights) {
    && e.id == d.id && e.table == d.table && e.tlb == d.tlb && |e.leaves| == |d.leaves|
    && (forall a :: 0 <= a < |d.leaves| ==>
          e.leaves[a] == if first.Some? && first.value <= a < first.value + |fs|
                         then D.Present(fs[a - first.value], Contains(rights, READ), Contains(rights, WRITE)) else d.leaves[a])
    && (forall a :: a in e.dom.maps <==> a in d.dom.maps || (first.Some? && first.value <= a < first.value + |fs|))
    && (forall a :: a in e.dom.maps ==>
          e.dom.maps[a] == if first.Some? && first.value <= a < first.value + |fs| then I.Target(fs[a - first.value], rights)
                           else d.dom.maps[a])
  }

  /** MAP_DMA past its authority checks, on domain slot `d`. */
  ghost predicate MapDmaOn(s: State, u: State, i: nat, d: nat, region: nat, rights: Rights)
    requires i < |s.mem.spaces| && d < |s.mem.devs|
  {
    var dev, dma := s.mem.devs[d], s.mem.spaces[i].dma;
    && |dev.leaves| == D.L1_SLOTS
    && if !dev.table then OnlyTold(s, u, i, NO_MEM)
       else if forall k :: !IsRegion(s.mem.regions, k, region) then OnlyTold(s, u, i, NO_CAP)
       else forall at: nat :: IsRegion(s.mem.regions, at, region) ==>
              var fs := s.mem.regions[at].frames;
              if (forall f: nat :: !D.FreeRun(dev.leaves, f, |fs|)) || (forall k :: 0 <= k < |dma| ==> dma[k].region != 0)
              then OnlyTold(s, u, i, NO_MEM)
              else if |dev.dom.maps| + |fs| > D.MAP_ROOM
              then OneDriver(s, u, i, d, NO_CAP) && u.mem.spaces == s.mem.spaces && Driven(dev, u.mem.devs[d], None, fs, rights)
              else forall first: nat, k: nat :: LowestRun(dev.leaves, first, |fs|) && FirstEmptyRecord(dma, k) ==>
                     && OneDriver(s, u, i, d, first * 4096) && Driven(dev, u.mem.devs[d], Some(first), fs, rights)
                     && u.mem.spaces[i].dma == dma[k := M.Record(region, dev.id)]
  }

  /** MAP_DMA: refused without both authorities, then where no domain is claimed at all or the one named is
      not, where it has no table, where the region is gone, for want of a run of free entries or of a
      record, and where the domain's mappings are too many, which leaves every table and model mapping as
      it was; otherwise exactly the region's frames are mapped with exactly the capability's rights. */
  ghost predicate MapDmaContract(s: State, u: State, i: nat, dom: nat, reg: nat) {
    && i < |s.auth.spaces| && i < |s.mem.spaces|
    && var caps := Caps(s, i);
    if !Carries(caps, dom, IommuDomain, WRITE) || !Carries(caps, reg, RegionCap, READ) then OnlyTold(s, u, i, NO_CAP)
    else if NoneClaimed(s.mem.devs) then OnlyTold(s, u, i, NO_MEM)
    else if forall d :: !IsDomain(s.mem.devs, d, caps[dom].obj) then OnlyTold(s, u, i, NO_CAP)
    else forall d: nat :: IsDomain(s.mem.devs, d, caps[dom].obj) ==> MapDmaOn(s, u, i, d, caps[reg].obj, caps[reg].rights)
  }

  /** In any state a run reaches, where everyone who commands a device owns what it maps. */
  lemma {:induction false} MapDmaDoes(s: State, ram: set<nat>, dom: nat, reg: nat, taken: bool)
    requires Inv(s, ram) && Enabled(s, Syscall(MapDma(dom, reg), taken)) && Tenured(s.auth, s.mem)
    ensures MapDmaContract(s, Step(s, Syscall(MapDma(dom, reg), taken)), s.current, dom, reg)
  {
    hide Body, A.Sound, Sized, Step, Ended, MapDmaContract, MapDmaStep, Tenured;
    EntryEnds(s, ram, MapDma(dom, reg), taken);
    CallerReady(s, ram);
    MapDmaGives(s, ram, s.current, dom, reg);
    RunsOn(s, ram, MapDmaStep(s, s.current, dom, reg), Step(s, Syscall(MapDma(dom, reg), taken)));
  }

  lemma {:induction false} MapDmaGives(s: State, ram: set<nat>, i: nat, dom: nat, reg: nat)
    requires Inv(s, ram) && Sized(s) && i < MAX_PROCS && Receptive(s, i) && Tenured(s.auth, s.mem)
    ensures var t := MapDmaStep(s, i, dom, reg);
            && MapDmaContract(s, t, i, dom, reg)
            && t.run == s.run && t.mode == s.mode && t.current == s.current
            && i < |t.rv.ports| && t.rv.ports[i].pending == 0
  {
    hide Inv, Contains, M.RegionAt, M.DomainAt, S.MapDma, TablesSized, Apart, MapDmaOn, M.RegionsOk, Tenured;
    RegionsApart(s, ram);
    DomainsApart(s, ram);
    TablesReady(s, ram);
    var caps := Caps(s, i);
    if Carries(caps, dom, IommuDomain, WRITE) && Carries(caps, reg, RegionCap, READ) {
      DomainFound(s.mem.devs, caps[dom].obj);
      var d := M.DomainAt(s.mem.devs, caps[dom].obj);
      MapDmaUnclaimed(s.mem, i, caps[dom].obj, caps[reg].obj, caps[reg].rights);
      if d < |s.mem.devs| {
        assert IsDomain(s.mem.devs, d, caps[dom].obj);
        MapDmaOne(s, ram, i, dom, reg, d);
      }
    }
  }

  lemma {:induction false} MapDmaUnclaimed(m: M.Mem, p: nat, domain: nat, region: nat, rights: Rights)
    requires TablesSized(m) && p < |m.spaces|
    ensures TablesSized(m) && M.Shaped(m) && M.RegionsOk(m.regions, m.nextRegion)
    ensures forall d :: 0 <= d < |m.devs| ==> |m.devs[d].leaves| == D.L1_SLOTS
    ensures NoneClaimed(m.devs) ==> S.MapDma(m, p, domain, region, rights) == S.DmaOut(m, NO_MEM)
    ensures !NoneClaimed(m.devs) && M.DomainAt(m.devs, domain) == |m.devs| ==> S.MapDma(m, p, domain, region, rights) == S.DmaOut(m, NO_CAP)
  {
    hide M.RegionAt, M.DomainAt, S.Install, D.FindRun, S.FreeRecord, M.DistinctIds;
  }

  lemma {:induction false} TablesReady(s: State, ram: set<nat>)
    requires Inv(s, ram)
    ensures Sized(s) && Core(s, ram) && TablesSized(s.mem) && M.Sound(s.mem, ram)
    ensures forall k :: 0 <= k < |s.mem.regions| && s.mem.regions[k].live ==> s.mem.regions[k].frames != []
  {
    hide A.Sound, V.Sound, Coherent, Backed, M.WindowsOk, M.RecordsOk, M.ReachOk, M.QuietOk, M.Conserved, M.OwnersOk, M.DevicesOk, M.DevicesShaped;
    S.LeafTables(s.mem, ram);
  }

  lemma {:induction false} MapDmaOne(s: State, ram: set<nat>, i: nat, dom: nat, reg: nat, d: nat)
    requires Core(s, ram) && Sized(s) && TablesSized(s.mem) && M.Sound(s.mem, ram) && Tenured(s.auth, s.mem)
    requires forall k :: 0 <= k < |s.mem.regions| && s.mem.regions[k].live ==> s.mem.regions[k].frames != []
    requires i < MAX_PROCS && Live(s, i) && d < |s.mem.devs| && s.mem.devs[d].id != 0
    requires Carries(Caps(s, i), dom, IommuDomain, WRITE) && Carries(Caps(s, i), reg, RegionCap, READ)
    requires d == M.DomainAt(s.mem.devs, Caps(s, i)[dom].obj)
    ensures MapDmaOn(s, MapDmaStep(s, i, dom, reg), i, d, Caps(s, i)[reg].obj, Caps(s, i)[reg].rights)
  {
    hide Core, M.SoundBut, Contains, M.RegionAt, M.DomainAt, S.Install, D.FindRun, D.FreeRun, S.FreeRecord, M.DistinctIds, Tenured, OneDriver, Driven;
    var region, rights := Caps(s, i)[reg].obj, Caps(s, i)[reg].rights;
    var at, leaves := M.RegionAt(s.mem.regions, region), s.mem.devs[d].leaves;
    RegionFound(s.mem.regions, s.mem.nextRegion, region);
    if s.mem.devs[d].table && at < |s.mem.regions| {
      assert IsRegion(s.mem.regions, at, region);
      var fs := s.mem.regions[at].frames;
      RunFound(leaves, |fs|);
      var first, rec := D.FindRun(leaves, |fs|, D.FIRST_SLOT, 0), S.FreeRecord(s.mem.spaces[i].dma);
      if first.Some? && rec < |s.mem.spaces[i].dma| {
        FramesNamed(s.mem.regions, region, at);
        DriverNarrowsNothing(s, ram, i, dom, reg, d, fs);
        RunWithin(leaves, first.value, |fs|);
        InstallGives(s, ram, i, d, at, rights, first.value, rec);
      }
    }
  }

  lemma {:induction false} FramesNamed(rs: seq<M.Region>, id: nat, at: nat)
    requires at == M.RegionAt(rs, id) < |rs|
    ensures M.FramesOf(rs, id) == rs[at].frames && rs[at].id == id
  {}

  lemma {:induction false} RunWithin(leaves: seq<D.Leaf>, first: nat, n: nat)
    requires |leaves| == D.L1_SLOTS && D.FreeRun(leaves, first, n)
    ensures first + n <= D.L1_SLOTS
  {}

  lemma {:induction false} RunFound(leaves: seq<D.Leaf>, n: nat)
    requires |leaves| == D.L1_SLOTS && 0 < n
    ensures var r := D.FindRun(leaves, n, D.FIRST_SLOT, 0);
            && (r.Some? ==> D.FreeRun(leaves, r.value, n))
            && (forall f: nat :: LowestRun(leaves, f, n) <==> r == Some(f))
            && (r.None? <==> forall f: nat :: !D.FreeRun(leaves, f, n))
  {
    D.FindRunFirstFit(leaves, n, D.FIRST_SLOT, 0);
  }

  lemma {:induction false} InstallGives(s: State, ram: set<nat>, i: nat, d: nat, at: nat, rights: Rights, first: nat, rec: nat)
    requires Sized(s) && M.Sound(s.mem, ram) && i < MAX_PROCS && d < |s.mem.devs| && at < |s.mem.regions| && s.mem.regions[at].live
    requires rec < |s.mem.spaces[i].dma| && |s.mem.devs[d].leaves| == D.L1_SLOTS
    requires D.FreeRun(s.mem.devs[d].leaves, first, |s.mem.regions[at].frames|)
    requires D.NoNarrowing(s.mem.devs[d].dom.maps, s.mem.regions[at].frames, rights)
    ensures first + |s.mem.regions[at].frames| <= D.L1_SLOTS
    ensures var fs, dev := s.mem.regions[at].frames, s.mem.devs[d];
            var out := S.Install(s.mem, i, d, at, rights, first, rec);
            var t := Return(s.(mem := out.m), i, out.ret);
            if |dev.dom.maps| + |fs| > D.MAP_ROOM
            then OneDriver(s, t, i, d, NO_CAP) && t.mem.spaces == s.mem.spaces && Driven(dev, t.mem.devs[d], None, fs, rights)
            else OneDriver(s, t, i, d, first * 4096) && Driven(dev, t.mem.devs[d], Some(first), fs, rights)
                 && t.mem.spaces[i].dma == s.mem.spaces[i].dma[rec := M.Record(s.mem.regions[at].id, dev.id)]
  {
    hide M.SoundBut, D.MapPages, D.NoNarrowing, Contains, D.MapPre;
    RunWithin(s.mem.devs[d].leaves, first, |s.mem.regions[at].frames|);
    S.InstallPre(s.mem, ram, d, at, first);
    D.MappedOrNot(s.mem.devs[d], s.mem.regions[at].frames, rights, first);
    assert s.mem.spaces == s.mem.spaces[i := s.mem.spaces[i].(dma := s.mem.spaces[i].dma)];
  }
}
