/** The calls that make and show things: SPAWN, MAKE_REGION, MAP_REGION, UNMAP_REGION and MAP_BAR, each
    with exactly when it is refused and exactly what it leaves. */
module Making {
  import opened Abi
  import opened Basics
  import opened Capabilities
  import opened Deleg
  import opened Sched
  import opened Machine
  import opened Invariant
  import opened Runs
  import opened Calls
  import opened Tenure
  import A = Authority
  import M = Memory
  import V = Rendezvous

  // ------------------------------------------------------------------- SPAWN

  ghost predicate FirstFreePort(ports: seq<V.Port>, j: nat) {
    j < |ports| && ports[j].state.Free? && forall k :: 0 <= k < j ==> !ports[k].state.Free?
  }

  /** `c` is `held` with exactly the rights both it and the request confer. */
  ghost predicate Attenuated(c: Cap, held: Cap, request: bv64) {
    && c.ty == held.ty && c.obj == held.obj
    && forall need :: Contains(c.rights, need) <==> Contains(held.rights, need) && Contains(FromUser(request), need)
  }

  /** Process slot `j` now holds what the caller's slot `give` does, attenuated, and nothing else; the
      ledger and the history say from whom. */
  ghost predicate HandedDown(a: A.Auth, b: A.Auth, i: nat, j: nat, give: Option<nat>, request: bv64)
    requires i < |a.spaces| && (give.Some? ==> give.value < |a.spaces[i].caps| && give.value < |a.spaces[i].stamps|)
  {
    && j < |b.spaces| == |a.spaces| && b.spaces == a.spaces[j := b.spaces[j]] && b.nextId == a.nextId + 1
    && b.spaces[j].live && b.spaces[j].id == a.nextId && |b.spaces[j].caps| == |b.spaces[j].stamps| == CAP_SLOTS
    && (forall c :: 0 < c < CAP_SLOTS ==> b.spaces[j].caps[c] == EMPTY_CAP)
    && if give.None? then b.spaces[j].caps[0] == EMPTY_CAP && b.edges == a.edges && b.hist == a.hist
       else
         && Attenuated(b.spaces[j].caps[0], a.spaces[i].caps[give.value], request)
         && Links(b.edges) == Links(a.edges) + {(Endpoint(i, a.spaces[i].id, give.value), Endpoint(j, a.nextId, 0))}
         && b.spaces[j].stamps[0] == |a.hist|
         && b.hist == a.hist + [A.Birth(b.spaces[j].caps[0], Some(a.spaces[i].stamps[give.value]))]
  }

  /** Everything of slot `j` but its capabilities is a fresh process's, built from the frames `fs`. */
  ghost predicate Fresh(s: State, u: State, j: nat, fs: seq<nat>) {
    && j < |u.mem.spaces| == |s.mem.spaces| && j < |u.own| == |s.own|
    && u.mem == s.mem.(pool := u.mem.pool, spaces := u.mem.spaces)
    && (forall f :: f in u.mem.pool <==> f in s.mem.pool && f !in fs)
    && (forall k :: 0 <= k < |s.mem.spaces| && k != j ==> u.mem.spaces[k] == s.mem.spaces[k])
    && (forall k :: 0 <= k < |s.own| && k != j ==> u.own[k] == s.own[k])
    && var sp, own := u.mem.spaces[j], u.own[j];
    && sp.live && sp.id == s.auth.nextId && sp.frames == fs
    && |sp.shares| == |sp.windows| == |sp.dma| == SHARE_SLOTS
    && (forall k :: 0 <= k < SHARE_SLOTS ==> sp.shares[k] == 0 && sp.windows[k] == M.NO_WINDOW && sp.dma[k] == M.NO_RECORD)
    && own.bar == None && |own.irq| == |s.fired| == |u.fired|
    && forall k :: 0 <= k < |s.fired| ==> own.irq[k] == Line(0, s.fired[k], 0, 0) && u.fired[k] == s.fired[k]
  }

  /** A new process is in slot `j`, queued last, and the caller runs on with its identity. */
  ghost predicate Spawned(s: State, u: State, i: nat, j: nat, give: Option<nat>, request: bv64, fs: seq<nat>)
    requires i < |s.auth.spaces| && (give.Some? ==> give.value < |Caps(s, i)| && give.value < |s.auth.spaces[i].stamps|)
  {
    && HandedDown(s.auth, u.auth, i, j, give, request) && Fresh(s, u, j, fs)
    && u.mode == s.mode && u.current == s.current && u.run == RunQ(s.run.q + [j], s.run.cur)
    && u.rv == s.rv.(ports := u.rv.ports) && i < |u.rv.ports| == |s.rv.ports| && j < |s.rv.ports| && i != j
    && u.rv.ports[i] == s.rv.ports[i].(r0 := s.auth.nextId)
    && var p := u.rv.ports[j];
    && p.state.Ready? && p.id == s.auth.nextId && p.pending == p.r0 == p.r1 == p.r2 == 0
    && forall k :: 0 <= k < |s.rv.ports| && k != i && k != j ==> u.rv.ports[k] == s.rv.ports[k]
  }

  /** SPAWN: refused without a mint source that may be written, then for a capability the caller does
      not have or a ledger with no room, then for want of a process slot, and for want of memory, which
      uses up an identity all the same; otherwise it spawns. */
  ghost predicate SpawnContract(s: State, u: State, i: nat, cap: nat, give: Option<nat>, request: bv64, load: Option<seq<nat>>) {
    && i < |s.auth.spaces| && |s.auth.spaces[i].stamps| == |Caps(s, i)|
    && var caps := Caps(s, i);
    if !Carries(caps, cap, Untyped, WRITE) then OnlyTold(s, u, i, SPAWN_NO_CAP)
    else if give.Some? && (give.value >= |caps| || caps[give.value].ty == Null || forall e :: 0 <= e < |s.auth.edges| ==> s.auth.edges[e].live)
    then OnlyTold(s, u, i, SPAWN_NO_DELEGATE)
    else
      && ((forall j :: 0 <= j < |s.rv.ports| ==> !s.rv.ports[j].state.Free?) ==> OnlyTold(s, u, i, SPAWN_NO_SLOT))
      && forall j: nat :: FirstFreePort(s.rv.ports, j) ==>
           if load.None? then OnlyTold(s.(auth := s.auth.(nextId := s.auth.nextId + 1)), u, i, SPAWN_NO_MEM)
           else Spawned(s, u, i, j, give, request, load.value)
  }

  lemma {:induction false} SpawnDoes(s: State, ram: set<nat>, cap: nat, give: Option<nat>, request: bv64, load: Option<seq<nat>>, taken: bool)
    requires Inv(s, ram) && Enabled(s, Syscall(Spawn(cap, give, request, load), taken))
    ensures SpawnContract(s, Step(s, Syscall(Spawn(cap, give, request, load), taken)), s.current, cap, give, request, load)
  {
    hide Body, A.Sound, Sized, Step, Ended, SpawnContract, Feasible, SpawnStep;
    EntryEnds(s, ram, Spawn(cap, give, request, load), taken);
    CallerReady(s, ram);
    SpawnMakes(s, s.current, cap, give, request, load);
    RunsOn(s, ram, SpawnStep(s, s.current, cap, give, request, load), Step(s, Syscall(Spawn(cap, give, request, load), taken)));
  }

  lemma {:induction false} SpawnMakes(s: State, i: nat, cap: nat, give: Option<nat>, request: bv64, load: Option<seq<nat>>)
    requires Sized(s) && i < MAX_PROCS && Receptive(s, i) && QueueIs(s.run, s.rv.ports)
    ensures var t := SpawnStep(s, i, cap, give, request, load);
            && SpawnContract(s, t, i, cap, give, request, load)
            && t.run.cur == s.run.cur && s.run.q <= t.run.q && t.mode == s.mode && t.current == s.current
            && i < |t.rv.ports| && t.rv.ports[i].pending == 0
  {
    hide HandedDown, Fresh, Contains, Started, FromUser, Intersect, QueueIs, LiveCount, A.Born, A.Delegated;
    LedgerFull(s.auth.edges);
    var j := FreeSlot(s.rv.ports);
    if MayMint(Caps(s, i), cap) && j < MAX_PROCS && load.Some?
       && (give.Some? ==> Lookup(Caps(s, i), give.value).Some? && LiveCount(s.auth.edges) < |s.auth.edges|) {
      SpawnSucceeds(s, i, j, cap, give, request, load.value);
      assert FirstFreePort(s.rv.ports, j);
    }
  }

  lemma {:induction false} SpawnSucceeds(s: State, i: nat, j: nat, cap: nat, give: Option<nat>, request: bv64, fs: seq<nat>)
    requires Sized(s) && i < MAX_PROCS && Receptive(s, i) && QueueIs(s.run, s.rv.ports)
    requires MayMint(Caps(s, i), cap) && j == FreeSlot(s.rv.ports) < MAX_PROCS
    requires give.Some? ==> Lookup(Caps(s, i), give.value).Some? && LiveCount(s.auth.edges) < |s.auth.edges|
    ensures var t := SpawnStep(s, i, cap, give, request, Some(fs));
            && Spawned(s, t, i, j, give, request, fs) && i < |t.rv.ports| && t.rv.ports[i].pending == 0
  {
    hide Contains, Started, A.Born, A.Delegated, FromUser, Intersect, Spawned, QueueIs, LiveCount;
    if give.None? {
      BornDown(s.auth, i, j, request);
      SpawnedIs(s, i, j, give, request, fs, A.Born(s.auth, j));
    } else {
      DelegatedDown(s.auth, i, j, give.value, request);
      SpawnedIs(s, i, j, give, request, fs,
                A.Delegated(s.auth, i, give.value, j, Intersect(Caps(s, i)[give.value].rights, FromUser(request))));
    }
  }

  lemma {:induction false} LedgerFull(es: seq<Edge>)
    ensures LiveCount(es) < |es| <==> !forall e :: 0 <= e < |es| ==> es[e].live
  {
    CountFull(es);
  }

  lemma {:induction false} BornDown(a: A.Auth, i: nat, j: nat, request: bv64)
    requires i < |a.spaces| && j < |a.spaces|
    ensures HandedDown(a, A.Born(a, j), i, j, None, request)
  {}

  lemma {:induction false} DelegatedDown(a: A.Auth, i: nat, j: nat, give: nat, request: bv64)
    requires i < |a.spaces| && j < |a.spaces| && i != j && give < |a.spaces[i].caps| == |a.spaces[i].stamps|
    requires LiveCount(a.edges) < |a.edges|
    ensures HandedDown(a, A.Delegated(a, i, give, j, Intersect(a.spaces[i].caps[give].rights, FromUser(request))), i, j, Some(give), request)
  {
    hide Contains, FromUser, Intersect, Recorded, Links, LiveCount;
    RecordedLinks(a.edges, Endpoint(i, a.spaces[i].id, give), Endpoint(j, a.nextId, 0));
    forall need ensures Contains(Intersect(a.spaces[i].caps[give].rights, FromUser(request)), need) <==>
                        Contains(a.spaces[i].caps[give].rights, need) && Contains(FromUser(request), need) {
      IntersectIsMeet(a.spaces[i].caps[give].rights, FromUser(request), need);
    }
  }

  lemma {:induction false} SpawnedIs(s: State, i: nat, j: nat, give: Option<nat>, request: bv64, fs: seq<nat>, auth: A.Auth)
    requires Sized(s) && i < MAX_PROCS && j < MAX_PROCS && Receptive(s, i) && s.rv.ports[j].state.Free? && QueueIs(s.run, s.rv.ports)
    requires give.Some? ==> give.value < CAP_SLOTS
    requires HandedDown(s.auth, auth, i, j, give, request)
    ensures var t := Return(Started(s, j, s.auth.nextId, fs).(auth := auth), i, s.auth.nextId);
            Spawned(s, t, i, j, give, request, fs) && i < |t.rv.ports| && t.rv.ports[i].pending == 0
  {
    hide HandedDown;
  }

  // ------------------------------------------------------------------- MAKE_REGION

  ghost predicate FirstEmptyCap(caps: seq<Cap>, c: nat) {
    c < |caps| && caps[c].ty == Null && forall k :: 0 <= k < c ==> caps[k].ty != Null
  }

  ghost predicate FirstDeadRegion(rs: seq<M.Region>, k: nat) {
    k < |rs| && !rs[k].live && forall j :: 0 <= j < k ==> rs[j].live
  }

  /** Region slot `k` and capability slot `c` of process `i`, which is told `c`, now hold a new region of
      exactly these frames, its own, and the right to it. */
  ghost predicate RegionMadeAt(s: State, u: State, i: nat, c: nat, k: nat, rights: Rights, got: seq<nat>) {
    && i < |s.auth.spaces| && i < |s.rv.ports| && i < |s.mem.spaces| && k < |s.mem.regions|
    && c < |s.auth.spaces[i].caps| && c < |s.auth.spaces[i].stamps|
    && var cap := Cap(RegionCap, rights, s.mem.nextRegion);
    && u == s.(auth := u.auth, mem := u.mem, rv := s.rv.(ports := s.rv.ports[i := s.rv.ports[i].(r0 := c)]))
    && u.auth == s.auth.(hist := s.auth.hist + [A.Birth(cap, None)],
                         spaces := s.auth.spaces[i := s.auth.spaces[i].(caps := s.auth.spaces[i].caps[c := cap],
                                                                        stamps := s.auth.spaces[i].stamps[c := |s.auth.hist|])])
    && u.mem == s.mem.(pool := u.mem.pool, nextRegion := s.mem.nextRegion + 1,
                       regions := s.mem.regions[k := M.Region(true, s.mem.nextRegion, s.mem.spaces[i].id, got)])
    && forall f :: f in u.mem.pool <==> f in s.mem.pool && f !in got
  }

  /** MAKE_REGION: refused without a mint source that may be written; then for a size out of range, an
      owner at its quota, a full table, identities run out, too few frames or no capability slot, none
      of which leaves a trace; otherwise it makes the region. */
  ghost predicate MakeRegionContract(s: State, u: State, i: nat, cap: nat, pages: nat, got: seq<nat>) {
    && i < |s.auth.spaces| && i < |s.mem.spaces|
    && var caps := Caps(s, i);
    if !Carries(caps, cap, Untyped, WRITE) then OnlyTold(s, u, i, NO_CAP)
    else if || pages < 1 || pages > REGION_MAX_PAGES || |Owned(s.mem.regions, s.mem.spaces[i].id)| >= REGION_QUOTA
            || (forall k :: 0 <= k < |s.mem.regions| ==> s.mem.regions[k].live) || s.mem.nextRegion >= U64_MAX || |got| < pages
            || (forall c :: 0 <= c < |caps| ==> caps[c].ty != Null)
    then OnlyTold(s, u, i, NO_MEM)
    else
      && |got| == pages
      && forall c: nat, k: nat :: FirstEmptyCap(caps, c) && FirstDeadRegion(s.mem.regions, k) ==>
           RegionMadeAt(s, u, i, c, k, caps[cap].rights, got)
  }

  lemma {:induction false} MakeRegionDoes(s: State, ram: set<nat>, cap: nat, pages: nat, got: seq<nat>, taken: bool)
    requires Inv(s, ram) && Enabled(s, Syscall(MakeRegion(cap, pages, got), taken))
    ensures MakeRegionContract(s, Step(s, Syscall(MakeRegion(cap, pages, got), taken)), s.current, cap, pages, got)
  {
    hide Body, A.Sound, Sized, Step, Ended, MakeRegionContract, MakeRegionStep;
    EntryEnds(s, ram, MakeRegion(cap, pages, got), taken);
    CallerReady(s, ram);
    MakeRegionMakes(s, s.current, cap, pages, got);
    RunsOn(s, ram, MakeRegionStep(s, s.current, cap, pages, got), Step(s, Syscall(MakeRegion(cap, pages, got), taken)));
  }

  lemma {:induction false} MakeRegionMakes(s: State, i: nat, cap: nat, pages: nat, got: seq<nat>)
    requires Sized(s) && i < MAX_PROCS && Receptive(s, i) && |got| <= pages
    ensures var t := MakeRegionStep(s, i, cap, pages, got);
            && MakeRegionContract(s, t, i, cap, pages, got)
            && t.run == s.run && t.mode == s.mode && t.current == s.current
            && i < |t.rv.ports| && t.rv.ports[i].pending == 0
  {
    hide Contains, OwnedCount, Owned;
    CountsOwned(s.mem.regions, s.mem.spaces[i].id);
  }

  // ------------------------------------------------------------------- MAP_REGION and UNMAP_REGION

  /** Region slot `k` holds the live region `id`. */
  predicate IsRegion(rs: seq<M.Region>, k: nat, id: nat) {
    k < |rs| && rs[k].live && rs[k].id == id
  }

  /** The slot a mapping of region `id` takes: the first that names it already, else the first that names
      nothing. */
  ghost predicate TakesSlot(shares: seq<nat>, id: nat, k: nat) {
    k < |shares| && if id in shares then shares[k] == id && forall j :: 0 <= j < k ==> shares[j] != id
                    else shares[k] == 0 && forall j :: 0 <= j < k ==> shares[j] != 0
  }

  /** Only share slot `k` of process `i` is different, but for the page-table frames charged and what the
      caller is told. */
  ghost predicate OneWindow(s: State, u: State, i: nat, k: nat, share: nat, w: M.Window, tables: seq<nat>, r0: nat) {
    && i < |s.mem.spaces| && i < |s.rv.ports| && k < |s.mem.spaces[i].shares| && k < |s.mem.spaces[i].windows|
    && u == s.(mem := u.mem, rv := s.rv.(ports := s.rv.ports[i := s.rv.ports[i].(r0 := r0)]))
    && var sp := s.mem.spaces[i];
    && u.mem == s.mem.(pool := u.mem.pool,
                       spaces := s.mem.spaces[i := sp.(frames := sp.frames + tables, shares := sp.shares[k := share],
                                                       windows := sp.windows[k := w])])
    && forall f :: f in u.mem.pool <==> f in s.mem.pool && f !in tables
  }

  /** MAP_REGION: refused without a readable capability over a live region, then for want of a slot; a
      mapping that fails leaves its slot showing nothing; otherwise the slot of the returned address
      shows the region, writable exactly when the capability is. */
  ghost predicate MapRegionContract(s: State, u: State, i: nat, cap: nat, tables: seq<nat>, installed: bool) {
    && i < |s.auth.spaces| && i < |s.mem.spaces| && i < |s.rv.ports|
    && var caps, shares := Caps(s, i), s.mem.spaces[i].shares;
    if !Carries(caps, cap, RegionCap, READ) || forall k :: !IsRegion(s.mem.regions, k, caps[cap].obj) then OnlyTold(s, u, i, NO_CAP)
    else
      var id := caps[cap].obj;
      && (id !in shares && 0 !in shares ==> OnlyTold(s, u, i, NO_MEM))
      && forall k: nat, at: nat :: TakesSlot(shares, id, k) && IsRegion(s.mem.regions, at, id) ==>
           if installed
           then OneWindow(s, u, i, k, id, M.Window(s.mem.regions[at].frames, Contains(caps[cap].rights, WRITE)), tables,
                          k * REGION_MAX_PAGES * 4096)
           else OneWindow(s, u, i, k, shares[k], M.NO_WINDOW, tables, NO_MEM)
  }

  lemma {:induction false} MapRegionDoes(s: State, ram: set<nat>, cap: nat, tables: seq<nat>, installed: bool, taken: bool)
    requires Inv(s, ram) && Enabled(s, Syscall(MapRegion(cap, tables, installed), taken))
    ensures MapRegionContract(s, Step(s, Syscall(MapRegion(cap, tables, installed), taken)), s.current, cap, tables, installed)
  {
    hide Body, A.Sound, Sized, Step, Ended, MapRegionContract, MapRegionStep, Feasible;
    EntryEnds(s, ram, MapRegion(cap, tables, installed), taken);
    CallerReady(s, ram);
    RegionsApart(s, ram);
    MapRegionMakes(s, s.current, cap, tables, installed);
    RunsOn(s, ram, MapRegionStep(s, s.current, cap, tables, installed), Step(s, Syscall(MapRegion(cap, tables, installed), taken)));
  }

  lemma {:induction false} RegionsApart(s: State, ram: set<nat>)
    requires Inv(s, ram)
    ensures M.RegionsOk(s.mem.regions, s.mem.nextRegion)
  {
    hide A.Sound, V.Sound, Coherent, Backed, M.WindowsOk, M.RecordsOk, M.DevicesOk, M.DevicesShaped, M.ReachOk, M.QuietOk, M.Conserved, M.OwnersOk;
  }

  lemma {:induction false} MapRegionMakes(s: State, i: nat, cap: nat, tables: seq<nat>, installed: bool)
    requires Sized(s) && i < MAX_PROCS && Receptive(s, i) && M.RegionsOk(s.mem.regions, s.mem.nextRegion)
    ensures var t := MapRegionStep(s, i, cap, tables, installed);
            && MapRegionContract(s, t, i, cap, tables, installed)
            && t.run == s.run && t.mode == s.mode && t.current == s.current
            && i < |t.rv.ports| && t.rv.ports[i].pending == 0
  {
    hide Contains, M.RegionAt, MapSlot;
    var caps, shares := Caps(s, i), s.mem.spaces[i].shares;
    if Carries(caps, cap, RegionCap, READ) {
      var id := caps[cap].obj;
      RegionFound(s.mem.regions, s.mem.nextRegion, id);
      SlotFound(shares, id);
      if M.RegionAt(s.mem.regions, id) < |s.mem.regions| { assert IsRegion(s.mem.regions, M.RegionAt(s.mem.regions, id), id); }
      if MapSlot(shares, id) < |shares| { assert TakesSlot(shares, id, MapSlot(shares, id)); }
    }
  }

  lemma {:induction false} RegionFound(rs: seq<M.Region>, next: nat, id: nat)
    requires M.RegionsOk(rs, next)
    ensures forall k: nat :: IsRegion(rs, k, id) <==> k == M.RegionAt(rs, id) < |rs|
  {}

  lemma {:induction false} SlotFound(shares: seq<nat>, id: nat)
    ensures MapSlot(shares, id) == |shares| <==> id !in shares && 0 !in shares
    ensures forall k: nat :: TakesSlot(shares, id, k) <==> k == MapSlot(shares, id) < |shares|
  {}

  /** UNMAP_REGION: with any capability over a region some slot of the caller names, every such slot is
      emptied; otherwise refused. */
  ghost predicate UnmapRegionContract(s: State, u: State, i: nat, cap: nat) {
    && i < |s.auth.spaces| && i < |s.mem.spaces| && i < |s.rv.ports| && |u.mem.spaces| == |s.mem.spaces|
    && var caps, sp, tp := Caps(s, i), s.mem.spaces[i], u.mem.spaces[i];
    if cap < |caps| && caps[cap].ty == RegionCap && caps[cap].obj in sp.shares then
      && u == s.(mem := u.mem, rv := s.rv.(ports := s.rv.ports[i := s.rv.ports[i].(r0 := OK)]))
      && u.mem == s.mem.(spaces := s.mem.spaces[i := sp.(shares := tp.shares, windows := tp.windows)])
      && |tp.shares| == |sp.shares| == |tp.windows| == |sp.windows|
      && forall k :: 0 <= k < |sp.shares| ==>
           if sp.shares[k] == caps[cap].obj then tp.shares[k] == 0 && tp.windows[k] == M.NO_WINDOW
           else tp.shares[k] == sp.shares[k] && tp.windows[k] == sp.windows[k]
    else OnlyTold(s, u, i, NO_CAP)
  }

  lemma {:induction false} UnmapRegionDoes(s: State, ram: set<nat>, cap: nat, taken: bool)
    requires Inv(s, ram) && Enabled(s, Syscall(UnmapRegion(cap), taken))
    ensures UnmapRegionContract(s, Step(s, Syscall(UnmapRegion(cap), taken)), s.current, cap)
  {
    hide Body, A.Sound, Sized, Step, Ended, UnmapRegionContract, UnmapRegionStep;
    EntryEnds(s, ram, UnmapRegion(cap), taken);
    CallerReady(s, ram);
    NoRegionZero(s, ram, s.current);
    UnmapRegionMakes(s, ram, s.current, cap);
    RunsOn(s, ram, UnmapRegionStep(s, s.current, cap), Step(s, Syscall(UnmapRegion(cap), taken)));
  }

  lemma {:induction false} NoRegionZero(s: State, ram: set<nat>, i: nat)
    requires Inv(s, ram) && i < MAX_PROCS && Live(s, i)
    ensures Sized(s) && forall c :: 0 <= c < CAP_SLOTS && Caps(s, i)[c].ty == RegionCap ==> Caps(s, i)[c].obj != 0
  {
    hide M.SoundBut, V.Sound, A.Sound, Coherent, SharesHeld, RecordsHeld, LinesHeld, BarHeld, WaitHeld;
    assert HeldAt(s, i);
  }

  lemma {:induction false} Dropped(m: M.Mem, p: nat, drop: seq<bool>, n: nat)
    requires p < |m.spaces| && n <= |drop| == |m.spaces[p].shares| == |m.spaces[p].windows|
    ensures var r := DropShares(m, p, drop, n);
            && |r.spaces| == |m.spaces| && |r.spaces[p].shares| == |r.spaces[p].windows| == |drop|
            && r == m.(spaces := m.spaces[p := m.spaces[p].(shares := r.spaces[p].shares, windows := r.spaces[p].windows)])
            && forall k :: 0 <= k < |drop| ==>
                 if k < n && drop[k] && m.spaces[p].shares[k] != 0
                 then r.spaces[p].shares[k] == 0 && r.spaces[p].windows[k] == M.NO_WINDOW
                 else r.spaces[p].shares[k] == m.spaces[p].shares[k] && r.spaces[p].windows[k] == m.spaces[p].windows[k]
  {
    if n == 0 {
      assert m.spaces == m.spaces[p := m.spaces[p].(shares := m.spaces[p].shares, windows := m.spaces[p].windows)];
    } else {
      Dropped(m, p, drop, n - 1);
    }
  }

  lemma {:induction false} UnmapRegionMakes(s: State, ram: set<nat>, i: nat, cap: nat)
    requires Sized(s) && i < MAX_PROCS && Receptive(s, i)
    requires forall c :: 0 <= c < CAP_SLOTS && Caps(s, i)[c].ty == RegionCap ==> Caps(s, i)[c].obj != 0
    ensures var t := UnmapRegionStep(s, i, cap);
            && UnmapRegionContract(s, t, i, cap)
            && t.run == s.run && t.mode == s.mode && t.current == s.current
            && i < |t.rv.ports| && t.rv.ports[i].pending == 0
  {
    hide DropShares;
    if cap < CAP_SLOTS { Dropped(s.mem, i, SlotsShowing(s.mem.spaces[i].shares, Caps(s, i)[cap].obj), SHARE_SLOTS); }
  }

  // ------------------------------------------------------------------- MAP_BAR

  /** MAP_BAR: refused without a readable capability over a device's registers, then where there is no such
      window; otherwise page-table frames are charged, and the caller has exactly the window the
      capability names if the mapping and the answer both succeed, and none if either fails. */
  ghost predicate MapBarContract(s: State, u: State, i: nat, cap: nat, known: bool, tables: seq<nat>, installed: bool, copied: bool) {
    && i < |s.auth.spaces| && i < |s.mem.spaces| && i < |s.rv.ports| && i < |s.own|
    && var caps, sp := Caps(s, i), s.mem.spaces[i];
    if !Carries(caps, cap, Mmio, READ) then OnlyTold(s, u, i, NO_CAP)
    else if !known then OnlyTold(s, u, i, NO_MEM)
    else
      var bar := if installed && copied then Some(Bar(caps[cap].obj, Contains(caps[cap].rights, WRITE))) else None;
      var r0 := if !installed then NO_MEM else if !copied then FAULT else OK;
      && u == s.(mem := u.mem, own := s.own[i := s.own[i].(bar := bar)], rv := s.rv.(ports := s.rv.ports[i := s.rv.ports[i].(r0 := r0)]))
      && u.mem == s.mem.(pool := u.mem.pool, spaces := s.mem.spaces[i := sp.(frames := sp.frames + tables)])
      && forall f :: f in u.mem.pool <==> f in s.mem.pool && f !in tables
  }

  lemma {:induction false} MapBarDoes(s: State, ram: set<nat>, cap: nat, known: bool, tables: seq<nat>, installed: bool, copied: bool, taken: bool)
    requires Inv(s, ram) && Enabled(s, Syscall(MapBar(cap, known, tables, installed, copied), taken))
    ensures MapBarContract(s, Step(s, Syscall(MapBar(cap, known, tables, installed, copied), taken)), s.current, cap, known, tables, installed, copied)
  {
    hide Body, A.Sound, Sized, Step, Ended, MapBarContract, MapBarStep, Feasible;
    EntryEnds(s, ram, MapBar(cap, known, tables, installed, copied), taken);
    CallerReady(s, ram);
    MapBarMakes(s, s.current, cap, known, tables, installed, copied);
    RunsOn(s, ram, MapBarStep(s, s.current, cap, known, tables, installed, copied),
           Step(s, Syscall(MapBar(cap, known, tables, installed, copied), taken)));
  }

  lemma {:induction false} MapBarMakes(s: State, i: nat, cap: nat, known: bool, tables: seq<nat>, installed: bool, copied: bool)
    requires Sized(s) && i < MAX_PROCS && Receptive(s, i)
    ensures var t := MapBarStep(s, i, cap, known, tables, installed, copied);
            && MapBarContract(s, t, i, cap, known, tables, installed, copied)
            && t.run == s.run && t.mode == s.mode && t.current == s.current
            && i < |t.rv.ports| && t.rv.ports[i].pending == 0
  {
    hide Contains;
  }

  // ------------------------------------------------------------------- boot

  /** The capabilities in a list, without its empty places. */
  function Real(caps: seq<Cap>): (r: seq<Cap>)
    ensures forall k :: 0 <= k < |r| ==> r[k].ty != Null
  {
    if caps == [] then []
    else if caps[|caps| - 1].ty == Null then Real(caps[..|caps| - 1])
    else Real(caps[..|caps| - 1]) + [caps[|caps| - 1]]
  }

  /** A space that holds exactly these, in order from its first slot on, as far as there is room. */
  ghost predicate HoldsExactly(space: seq<Cap>, caps: seq<Cap>) {
    forall k :: 0 <= k < |space| ==> space[k] == if k < |caps| then caps[k] else EMPTY_CAP
  }

  lemma {:induction false} GrantedIs(a: A.Auth, j: nat, caps: seq<Cap>, n: nat)
    requires j < |a.spaces| && n <= |caps| && |a.spaces[j].caps| == |a.spaces[j].stamps| == CAP_SLOTS
    requires forall k :: 0 <= k < CAP_SLOTS ==> a.spaces[j].caps[k] == EMPTY_CAP
    ensures HoldsExactly(Granted(a, j, caps, n).spaces[j].caps, Real(caps[..n]))
  {
    hide FirstFree, HoldsExactly;
    if n == 0 {
      NoneHeld(a.spaces[j].caps);
      assert caps[..0] == [];
    } else {
      GrantedIs(a, j, caps, n - 1);
      assert caps[..n][..n - 1] == caps[..n - 1];
      var g, space := Real(caps[..n - 1]), Granted(a, j, caps, n - 1).spaces[j].caps;
      NextFree(space, g);
      PlacedNext(space, g, caps[n - 1]);
    }
  }

  lemma {:induction false} NoneHeld(space: seq<Cap>)
    requires forall k :: 0 <= k < |space| ==> space[k] == EMPTY_CAP
    ensures HoldsExactly(space, [])
  {}

  lemma {:induction false} PlacedNext(space: seq<Cap>, caps: seq<Cap>, cap: Cap)
    requires HoldsExactly(space, caps)
    ensures HoldsExactly(if |caps| < |space| then space[|caps| := cap] else space, caps + [cap])
  {}

  lemma {:induction false} NextFree(space: seq<Cap>, caps: seq<Cap>)
    requires HoldsExactly(space, caps) && forall k :: 0 <= k < |caps| ==> caps[k].ty != Null
    ensures FirstFree(space) == if |caps| < |space| then |caps| else |space|
  {
    if |caps| < |space| { assert space[|caps|] == EMPTY_CAP; }
  }

  /** Process slot `j` is live under identity `j`, with its role's capabilities and frames. */
  ghost predicate InRole(s: State, j: nat, r: Role) {
    && j < |s.auth.spaces| && j < |s.mem.spaces|
    && s.auth.spaces[j].live && s.auth.spaces[j].id == s.mem.spaces[j].id == j
    && HoldsExactly(s.auth.spaces[j].caps, Real(r.caps)) && s.mem.spaces[j].frames == r.frames
  }

  lemma {:induction false} BootedInRole(s: State, roles: seq<Role>, n: nat)
    requires Sized(s) && n <= |roles| <= MAX_PROCS && s.auth.nextId == 0
    ensures var t := BootedTo(s, roles, n);
            && Sized(t) && t.auth.nextId == n
            && (forall j :: 0 <= j < n ==> InRole(t, j, roles[j]))
            && forall j :: n <= j < MAX_PROCS ==> t.auth.spaces[j] == s.auth.spaces[j] && t.mem.spaces[j] == s.mem.spaces[j]
  {
    hide Booted, InRole;
    if n > 0 {
      BootedInRole(s, roles, n - 1);
      var t := BootedTo(s, roles, n - 1);
      BootedOneIs(t, n - 1, roles[n - 1]);
      forall j: nat | j < n - 1 ensures InRole(Booted(t, n - 1, roles[n - 1]), j, roles[j]) { SameRole(t, Booted(t, n - 1, roles[n - 1]), j, roles[j]); }
    }
  }

  lemma {:induction false} SameRole(t: State, u: State, j: nat, r: Role)
    requires InRole(t, j, r) && j < |u.auth.spaces| && j < |u.mem.spaces|
    requires u.auth.spaces[j] == t.auth.spaces[j] && u.mem.spaces[j] == t.mem.spaces[j]
    ensures InRole(u, j, r)
  {
    hide HoldsExactly;
  }

  lemma {:induction false} BootedOneIs(t: State, j: nat, r: Role)
    requires Sized(t) && j < MAX_PROCS && t.auth.nextId == j
    ensures var u := Booted(t, j, r);
            && Sized(u) && u.auth.nextId == j + 1 && InRole(u, j, r)
            && forall q :: 0 <= q < MAX_PROCS && q != j ==> u.auth.spaces[q] == t.auth.spaces[q] && u.mem.spaces[q] == t.mem.spaces[q]
  {
    hide Granted, HoldsExactly, Real;
    GrantedIs(A.Born(t.auth, j), j, r.caps, |r.caps|);
    assert r.caps[..|r.caps|] == r.caps;
  }

  /** Boot gives each initial process its role's capabilities, in order from the first slot, its image's
      frames, and its place as its identity; and starts no other. */
  lemma {:induction false} BootGivesRoles(b: Setup)
    requires SetupOk(b)
    ensures forall j :: 0 <= j < |b.roles| ==> InRole(Boot(b), j, b.roles[j])
    ensures |Boot(b).auth.spaces| == MAX_PROCS && forall j :: |b.roles| <= j < MAX_PROCS ==> !Boot(b).auth.spaces[j].live
  {
    hide BootedTo, RoleOk, Verdict, V.Collected, Core, InRole;
    var s := PowerOn(b.ram, b.units);
    PowerOnCore(b.ram, b.units);
    BootedToCore(s, b.ram, b.roles, |b.roles|);
    BootedInRole(s, b.roles, |b.roles|);
    var t := BootedTo(s, b.roles, |b.roles|);
    DispatchInv(t, b.ram, b.taken);
    forall j: nat | j < |b.roles| ensures InRole(Boot(b), j, b.roles[j]) { SameRole(t, Boot(b), j, b.roles[j]); }
  }
}
