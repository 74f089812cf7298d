/** The tables devices walk against the model of what they may reach: the two say the same in every
    run, because no process can ever narrow a grant another mapping rests on. */
module Agreement {
  import opened Abi
  import opened Basics
  import opened Capabilities
  import opened Deleg
  import opened Machine
  import opened Invariant
  import opened Runs
  import opened Tenure
  import MS = MemorySteps
  import A = Authority
  import M = Memory
  import L = Lifetime
  import S = Supply
  import V = Rendezvous
  import D = Dma

  /** In every domain, the present entries are exactly the encodings of the live mappings. */
  ghost predicate AllAgree(devs: seq<D.Device>) {
    forall d :: 0 <= d < |devs| ==> D.Agree(devs[d])
  }

  // ------------------------------------------------------------------- what keeps agreement

  lemma {:induction false} ThinnerAgrees(m: M.Mem, n: M.Mem)
    requires Thinner(m, n) && AllAgree(m.devs)
    ensures AllAgree(n.devs)
  {
    hide D.Agree;
    forall d | 0 <= d < |n.devs| ensures D.Agree(n.devs[d]) { assert Thin(m.devs[d], n.devs[d]); }
  }

  // ------------------------------------------------------------------- mapping, exactly

  /** This call gets past its refusals, and among the pages there is room to try is a frame its domain
      already maps with rights the call's do not contain. */
  ghost predicate Narrows(m: M.Mem, p: nat, domain: nat, region: nat, rights: Rights)
    requires p < |m.spaces| && M.RegionsOk(m.regions, m.nextRegion)
    requires forall d :: 0 <= d < |m.devs| ==> |m.devs[d].leaves| == D.L1_SLOTS
  {
    var d, i := M.DomainAt(m.devs, domain), M.RegionAt(m.regions, region);
    && d < |m.devs| && i < |m.regions| && m.devs[d].table
    && S.FreeRecord(m.spaces[p].dma) < |m.spaces[p].dma|
    && var fs, maps := m.regions[i].frames, m.devs[d].dom.maps;
    && D.FindRun(m.devs[d].leaves, |fs|, D.FIRST_SLOT, 0).Some?
    && !D.NoNarrowing(maps, fs[..D.Attempts(maps, |fs|)], rights)
  }

  lemma {:induction false} MapAgreesExactly(m: M.Mem, ram: set<nat>, p: nat, domain: nat, region: nat, rights: Rights)
    requires M.Sound(m, ram) && p < |m.spaces| && m.spaces[p].live && AllAgree(m.devs)
    ensures M.Shaped(m) && M.RegionsOk(m.regions, m.nextRegion)
    ensures forall d :: 0 <= d < |m.devs| ==> |m.devs[d].leaves| == D.L1_SLOTS
    ensures AllAgree(S.MapDma(m, p, domain, region, rights).m.devs) <==> !Narrows(m, p, domain, region, rights)
  {
    hide M.SoundBut, D.Agree, D.MapPages, M.RegionAt, M.DomainAt, D.FindRun, D.FreeRun, S.FreeRecord, D.NoNarrowing, D.MapPre;
    S.LeafTables(m, ram);
    L.ShapeOf(m, ram, false);
    var d, i := M.DomainAt(m.devs, domain), M.RegionAt(m.regions, region);
    if d < |m.devs| && i < |m.regions| {
      var fs := m.regions[i].frames;
      S.FindRunRoom(m.devs[d].leaves, |fs|);
      var first := D.FindRun(m.devs[d].leaves, |fs|, D.FIRST_SLOT, 0);
      if first.Some? && m.devs[d].table && S.FreeRecord(m.spaces[p].dma) < |m.spaces[p].dma| {
        RunFits(m.devs[d].leaves, first.value, |fs|);
        S.InstallPre(m, ram, d, i, first.value);
        D.MapAgreesIff(m.devs[d], fs, rights, first.value);
        InstalledDevs(m, p, d, i, rights, first.value, S.FreeRecord(m.spaces[p].dma));
        assert S.MapDma(m, p, domain, region, rights).m.devs == m.devs[d := D.MapPages(m.devs[d], fs, rights, first.value, 0).d];
        OneAgrees(m.devs, d, D.MapPages(m.devs[d], fs, rights, first.value, 0).d);
      }
    }
  }

  lemma {:induction false} InstalledDevs(m: M.Mem, p: nat, d: nat, i: nat, rights: Rights, first: nat, rec: nat)
    requires p < |m.spaces| && d < |m.devs| && i < |m.regions| && rec < |m.spaces[p].dma|
    requires |m.devs[d].leaves| == D.L1_SLOTS && first + |m.regions[i].frames| <= D.L1_SLOTS
    ensures S.Install(m, p, d, i, rights, first, rec).m.devs
         == m.devs[d := D.MapPages(m.devs[d], m.regions[i].frames, rights, first, 0).d]
  {
    hide D.MapPages;
  }

  lemma {:induction false} OneAgrees(devs: seq<D.Device>, d: nat, e: D.Device)
    requires d < |devs| && AllAgree(devs)
    ensures AllAgree(devs[d := e]) <==> D.Agree(e)
  {
    hide D.Agree;
    if AllAgree(devs[d := e]) { assert D.Agree(devs[d := e][d]); }
  }

  lemma {:induction false} RunFits(leaves: seq<D.Leaf>, first: nat, n: nat)
    requires |leaves| == D.L1_SLOTS && D.FreeRun(leaves, first, n)
    ensures first + n <= D.L1_SLOTS
  {}

  /** A MAP_DMA call that gets past its two authority checks and narrows. */
  ghost predicate NarrowingCall(s: State, i: nat, call: Call)
    requires Sized(s) && i < MAX_PROCS
  {
    && call.MapDma? && TablesSized(s.mem)
    && ObjectOf(Caps(s, i), call.dom, IommuDomain, WRITE).Some?
    && ObjectOf(Caps(s, i), call.reg, RegionCap, READ).Some?
    && Narrows(s.mem, i, ObjectOf(Caps(s, i), call.dom, IommuDomain, WRITE).value,
               ObjectOf(Caps(s, i), call.reg, RegionCap, READ).value, Caps(s, i)[call.reg].rights)
  }

  ghost predicate NarrowingEvent(s: State, e: Event) {
    e.Syscall? && Sized(s) && s.current < MAX_PROCS && NarrowingCall(s, s.current, e.call)
  }

  lemma {:induction false} MapCallAgrees(s: State, ram: set<nat>, i: nat, dom: nat, reg: nat)
    requires Body(s, ram) && Sized(s) && i < MAX_PROCS && Live(s, i) && AllAgree(s.mem.devs)
    ensures AllAgree(MapDmaStep(s, i, dom, reg).mem.devs) <==> !NarrowingCall(s, i, MapDma(dom, reg))
  {
    hide Sized, Body, M.SoundBut, AllAgree, S.MapDma, Narrows, TablesSized, Contains;
    MS.MemShape(s, ram);
    Room(s);
    assert AgreeAt(s, i);
    var caps := Caps(s, i);
    var domain, region := ObjectOf(caps, dom, IommuDomain, WRITE), ObjectOf(caps, reg, RegionCap, READ);
    if domain.Some? && region.Some? {
      MapAgreesExactly(s.mem, ram, i, domain.value, region.value, caps[reg].rights);
    }
  }

  lemma {:induction false} GivingSameDevs(s: State, i: nat, call: Call)
    requires Sized(s) && i < MAX_PROCS && (call.Spawn? || call.MakeRegion?)
    ensures Service(s, i, call).mem.devs == s.mem.devs
  {
    hide FirstFree, Intersect, Contains, LiveCount, OwnedCount, L.SetOf, FreeSlot, A.Delegated, A.Minted;
  }

  lemma {:induction false} ServiceAgrees(s: State, ram: set<nat>, call: Call)
    requires Core(s, ram) && Sized(s) && s.current < MAX_PROCS && Receptive(s, s.current) && Feasible(s, s.current, call)
    requires AllAgree(s.mem.devs)
    ensures AllAgree(Service(s, s.current, call).mem.devs) <==> !NarrowingCall(s, s.current, call)
  {
    hide Sized, Body, A.Sound, AllAgree, Feasible, Thinner, A.Keeps, Narrows, TablesSized, ExitStep, RevokeStep, FreeRegionStep,
      MapDmaStep, UnmapDmaStep, SpawnStep, MakeRegionStep, SendStep, RecvStep, MapRegionStep, UnmapRegionStep, PollStep, WaitStep, MapBarStep;
    var i := s.current;
    if call.MapDma? {
      MapCallAgrees(s, ram, i, call.dom, call.reg);
    } else if call.Spawn? || call.MakeRegion? {
      GivingSameDevs(s, i, call);
    } else {
      ServiceTamed(s, ram, call);
      ThinnerAgrees(s.mem, Service(s, i, call).mem);
    }
  }

  lemma {:induction false} CachedAgrees(m: M.Mem, d: nat, slot: nat)
    requires d < |m.devs| && AllAgree(m.devs)
    ensures AllAgree(S.Cached(m, d, slot).devs)
  {
    hide D.ModelInTable, D.TableInModel, D.LeafFor;
    CacheAgrees(m.devs[d], slot);
  }

  lemma {:induction false} CacheAgrees(d: D.Device, slot: nat)
    requires D.Agree(d)
    ensures D.Agree(D.Cache(d, slot))
  {}

  /** One step keeps table and model in agreement exactly if it is not a mapping that narrows. */
  lemma {:induction false} StepAgrees(s: State, ram: set<nat>, e: Event)
    requires Inv(s, ram) && Enabled(s, e) && AllAgree(s.mem.devs)
    ensures AllAgree(Step(s, e).mem.devs) <==> !NarrowingEvent(s, e)
  {
    hide Body, AllAgree, A.Sound, Service, V.Collected, Verdict, CreditTo, S.Cached, NarrowingCall, Sized, Feasible;
    match e
    case Syscall(call, taken) =>
      ServiceAgrees(s, ram, call);
      ServiceCore(s, ram, call);
      BodySized(Service(s, s.current, call), ram);
      DispatchInv(Service(s, s.current, call), ram, taken);
    case Interrupt(line, taken) => CreditSame(s, line, MAX_PROCS);
    case UnitCaches(d, slot) => CachedAgrees(s.mem, d, slot);
  }

  // ------------------------------------------------------------------- over runs

  /** Where everyone has only its own regions to map, no call narrows. */
  lemma {:induction false} TenuredNarrowsNothing(s: State, ram: set<nat>, i: nat, call: Call)
    requires Core(s, ram) && Sized(s) && Tenured(s.auth, s.mem) && i < MAX_PROCS && Live(s, i)
    ensures !NarrowingCall(s, i, call)
  {
    hide Core, Tenured, Sized, TablesSized, M.RegionAt, M.DomainAt, M.RegionsOk, D.FindRun, S.FreeRecord, D.NoNarrowing, Contains;
    Room(s);
    if NarrowingCall(s, i, call) {
      var region := ObjectOf(Caps(s, i), call.reg, RegionCap, READ).value;
      var d, at := M.DomainAt(s.mem.devs, ObjectOf(Caps(s, i), call.dom, IommuDomain, WRITE).value), M.RegionAt(s.mem.regions, region);
      var fs, maps := s.mem.regions[at].frames, s.mem.devs[d].dom.maps;
      DriverNarrowsNothing(s, ram, i, call.dom, call.reg, d, fs[..D.Attempts(maps, |fs|)]);
    }
  }

  /** No run ever narrows: whoever commands a device owns every region it can name, and maps it with
      the one set of rights it has. */
  lemma {:induction false} NothingEverNarrows(b: Setup, es: seq<Event>, e: Event)
    requires SetupOk(b) && Possible(Boot(b), es) && Enabled(Run(Boot(b), es), e)
    ensures !NarrowingEvent(Run(Boot(b), es), e)
  {
    hide SetupOk, Boot, Possible, Run, Core, Tenured, NarrowingCall, Feasible;
    AlwaysInv(b, es);
    AlwaysTenured(b, es);
    var s := Run(Boot(b), es);
    if e.Syscall? && Sized(s) && s.current < MAX_PROCS { TenuredNarrowsNothing(s, b.ram, s.current, e.call); }
  }

  lemma {:induction false} PowerOnAgrees(b: Setup)
    requires SetupOk(b)
    ensures AllAgree(PowerOn(b.ram, b.units).mem.devs)
  {
    hide RoleOk, Booted;
    forall d | 0 <= d < |b.units| ensures D.Agree(b.units[d]) { EmptyAgrees(b.units[d].id, b.units[d].table); }
  }

  lemma {:induction false} EmptyAgrees(id: nat, table: bool)
    ensures D.Agree(EmptyUnit(id, table))
  {}

  lemma {:induction false} BootedDevs(s: State, roles: seq<Role>, n: nat)
    requires Sized(s) && n <= |roles| <= MAX_PROCS
    ensures BootedTo(s, roles, n).mem.devs == s.mem.devs
  {
    hide Granted, L.SetOf, Sized;
    if n > 0 { BootedDevs(s, roles, n - 1); }
  }

  lemma {:induction false} BootAgrees(b: Setup)
    requires SetupOk(b)
    ensures AllAgree(Boot(b).mem.devs)
  {
    hide AllAgree, BootedTo, RoleOk, Verdict, V.Collected, Core, PowerOn;
    PowerOnAgrees(b);
    var s := PowerOn(b.ram, b.units);
    BootedDevs(s, b.roles, |b.roles|);
    PowerOnCore(b.ram, b.units);
    BootedToCore(s, b.ram, b.roles, |b.roles|);
    DispatchInv(BootedTo(s, b.roles, |b.roles|), b.ram, b.taken);
  }

  /** In every run, what each device's table holds is exactly what its model says, at every
      kernel-entry boundary. */
  lemma {:induction false} TablesMatchModels(b: Setup, es: seq<Event>)
    requires SetupOk(b) && Possible(Boot(b), es)
    ensures AllAgree(Run(Boot(b), es).mem.devs)
  {
    hide SetupOk, Boot, Step, Enabled, Inv, AllAgree, NarrowingEvent;
    if es == [] {
      BootAgrees(b);
    } else {
      var t := Run(Boot(b), es[..|es| - 1]);
      AlwaysInv(b, es[..|es| - 1]);
      InvSized(t, b.ram);
      TablesMatchModels(b, es[..|es| - 1]);
      NothingEverNarrows(b, es[..|es| - 1], es[|es| - 1]);
      StepAgrees(t, b.ram, es[|es| - 1]);
    }
  }
}
