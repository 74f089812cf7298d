/** How frames become somebody's: address spaces built, page tables charged, regions made, regions
    mapped for devices. */
module Supply {
  import opened Abi
  import opened Basics
  import opened Seqs
  import opened Dma
  import opened Memory
  import opened Lifetime
  import Iommu

  /** Distinct free frames, as the allocator hands them out. */
  ghost predicate Available(pool: set<nat>, fs: seq<nat>) {
    NoDup(fs) && forall f :: f in fs ==> f in pool
  }

  // ------------------------------------------------------------------- frames for a process

  /** Page-table frames taken while mapping are charged to the process. */
  function Charged(m: Mem, p: nat, fs: seq<nat>): Mem
    requires p < |m.spaces|
  {
    m.(pool := m.pool - SetOf(fs), spaces := m.spaces[p := m.spaces[p].(frames := m.spaces[p].frames + fs)])
  }

  lemma {:induction false} ChargedSound(m: Mem, ram: set<nat>, p: nat, fs: seq<nat>)
    requires Sound(m, ram) && p < |m.spaces| && m.spaces[p].live
    requires Available(m.pool, fs) && |m.spaces[p].frames| + |fs| <= MAX_PROC_FRAMES
    ensures Sound(Charged(m, p, fs), ram)
  {
    hide DeviceOk, Conserved, WindowOk, OwnersOk, ReachOk, DevicesOk, DevicesShaped, RegionsOk, RegionAt, SetOf;
    var n := Charged(m, p, fs);
    PoolLoss(m.pool, fs);
    assert multiset(n.spaces[p].frames) == multiset(m.spaces[p].frames) + multiset(fs);
    assert multiset(n.pool) + (multiset(m.spaces[p].frames) + multiset(fs))
        == (multiset(n.pool) + multiset(fs)) + multiset(m.spaces[p].frames);
    HeldMoves(m, n, ram, p);
    SameOwners(m, n);
    SameReach(m, n);
  }

  function Loaded(id: nat, fs: seq<nat>): Space {
    Space(true, id, fs, [0, 0, 0, 0], [NO_WINDOW, NO_WINDOW, NO_WINDOW, NO_WINDOW],
          [NO_RECORD, NO_RECORD, NO_RECORD, NO_RECORD])
  }

  /** A process built into a free slot from the frames its load recorded. */
  function Load(m: Mem, p: nat, id: nat, fs: seq<nat>): Mem
    requires p < |m.spaces|
  {
    m.(pool := m.pool - SetOf(fs), spaces := m.spaces[p := Loaded(id, fs)])
  }

  lemma {:induction false} LoadSound(m: Mem, ram: set<nat>, p: nat, id: nat, fs: seq<nat>)
    requires Sound(m, ram) && p < |m.spaces| && !m.spaces[p].live
    requires forall q :: 0 <= q < |m.spaces| && m.spaces[q].live ==> m.spaces[q].id != id
    requires Available(m.pool, fs) && |fs| <= MAX_PROC_FRAMES
    ensures Sound(Load(m, p, id, fs), ram)
  {
    hide DeviceOk, Conserved, ReachOk, DevicesOk, DevicesShaped, RegionsOk, RegionAt, FramesOf, SetOf;
    var n := Load(m, p, id, fs);
    PoolLoss(m.pool, fs);
    assert m.spaces[p].frames == [];
    HeldMoves(m, n, ram, p);
    LoadReach(m, p, id, fs);
    forall i | 0 <= i < |n.regions| && n.regions[i].live ensures LiveId(n.spaces, n.regions[i].owner) {
      assert LiveId(m.spaces, m.regions[i].owner);
      var q :| 0 <= q < |m.spaces| && m.spaces[q].live && m.spaces[q].id == m.regions[i].owner;
      assert n.spaces[q].live;
    }
  }

  lemma {:induction false} LoadReach(m: Mem, p: nat, id: nat, fs: seq<nat>)
    requires ReachOk(m.regions, m.spaces, m.devs) && p < |m.spaces| && Empty(m.spaces[p])
    ensures ReachOk(m.regions, m.spaces[p := Loaded(id, fs)], m.devs)
  {
    hide FramesOf;
    var ss := m.spaces[p := Loaded(id, fs)];
    forall d, a | 0 <= d < |m.devs| && 0 <= a < |m.devs[d].leaves| && m.devs[d].leaves[a].Present?
      ensures Attributed(m.regions, ss, m.devs[d].id, m.devs[d].leaves[a].frame)
    {
      var f := m.devs[d].leaves[a].frame;
      assert Attributed(m.regions, m.spaces, m.devs[d].id, f);
      var q, j :| 0 <= q < |m.spaces| && 0 <= j < |m.spaces[q].dma|
                  && m.spaces[q].dma[j].region != 0 && m.spaces[q].dma[j].domain == m.devs[d].id
                  && f in FramesOf(m.regions, m.spaces[q].dma[j].region);
      assert ss[q].dma[j] == m.spaces[q].dma[j];
    }
  }

  // ------------------------------------------------------------------- frames for a region

  /** A region owned by process `p`, in table slot `i`, under the next identity. */
  function WithRegion(m: Mem, p: nat, i: nat, fs: seq<nat>): Mem
    requires p < |m.spaces| && i < |m.regions|
  {
    m.(pool := m.pool - SetOf(fs), nextRegion := m.nextRegion + 1,
       regions := m.regions[i := Region(true, m.nextRegion, m.spaces[p].id, fs)])
  }

  lemma {:induction false} RegionNew(rs: seq<Region>, i: nat, r: Region, id: nat)
    requires DistinctIds(rs) && i < |rs| && !rs[i].live && r.live && r.id != 0
    requires forall j :: 0 <= j < |rs| && rs[j].live ==> rs[j].id != r.id
    ensures DistinctIds(rs[i := r])
    ensures RegionAt(rs, id) < |rs| ==>
              RegionAt(rs[i := r], id) == RegionAt(rs, id) && FramesOf(rs[i := r], id) == FramesOf(rs, id)
  {
    var ss := rs[i := r];
    var j, k := RegionAt(rs, id), RegionAt(ss, id);
    if j < |rs| {
      assert ss[j] == rs[j];
      assert k < |ss| && ss[k].live && ss[k].id == id;
    }
  }

  /** Making a region takes its frames out of the pool and reaches nobody: no window, no table
      entry, no grant names a frame that was free. */
  lemma {:induction false} WithRegionSound(m: Mem, ram: set<nat>, p: nat, i: nat, fs: seq<nat>)
    requires Sound(m, ram) && p < |m.spaces| && m.spaces[p].live && i < |m.regions| && !m.regions[i].live
    requires Available(m.pool, fs) && 0 < |fs| <= REGION_MAX_PAGES
    ensures Sound(WithRegion(m, p, i, fs), ram)
    ensures forall d, f :: 0 <= d < |m.devs| && f in fs ==> f !in m.devs[d].dom.grants
  {
    hide DeviceOk, Conserved, ReachOk, DevicesOk, DevicesShaped, RegionAt, FramesOf, SetOf;
    var n := WithRegion(m, p, i, fs);
    var r := Region(true, m.nextRegion, m.spaces[p].id, fs);
    forall id: nat ensures RegionAt(m.regions, id) < |m.regions| ==>
        RegionAt(n.regions, id) == RegionAt(m.regions, id) && FramesOf(n.regions, id) == FramesOf(m.regions, id) {
      RegionNew(m.regions, i, r, id);
    }
    RegionNew(m.regions, i, r, 0);
    PoolLoss(m.pool, fs);
    assert m.regions[i].frames == [];
    SharedMoves(m, n, ram, i);
    assert LiveId(m.spaces, m.spaces[p].id);
    WithRegionReach(m, n);
    NobodyReaches(m, ram, fs);
  }

  lemma {:induction false} WithRegionReach(m: Mem, n: Mem)
    requires ReachOk(m.regions, m.spaces, m.devs) && RecordsOk(m.regions, m.spaces)
    requires n.spaces == m.spaces && n.devs == m.devs && |n.regions| == |m.regions|
    requires forall id: nat :: RegionAt(m.regions, id) < |m.regions| ==> FramesOf(n.regions, id) == FramesOf(m.regions, id)
    ensures ReachOk(n.regions, n.spaces, n.devs)
  {
    hide RegionAt, FramesOf;
    forall d, a | 0 <= d < |m.devs| && 0 <= a < |m.devs[d].leaves| && m.devs[d].leaves[a].Present?
      ensures Attributed(n.regions, n.spaces, m.devs[d].id, m.devs[d].leaves[a].frame)
    {
      var f := m.devs[d].leaves[a].frame;
      assert Attributed(m.regions, m.spaces, m.devs[d].id, f);
      var q, j :| 0 <= q < |m.spaces| && 0 <= j < |m.spaces[q].dma|
                  && m.spaces[q].dma[j].region != 0 && m.spaces[q].dma[j].domain == m.devs[d].id
                  && f in FramesOf(m.regions, m.spaces[q].dma[j].region);
      assert FramesOf(n.regions, m.spaces[q].dma[j].region) == FramesOf(m.regions, m.spaces[q].dma[j].region);
    }
  }

  lemma {:induction false} NobodyReaches(m: Mem, ram: set<nat>, fs: seq<nat>)
    requires Sound(m, ram) && forall f :: f in fs ==> f in m.pool
    ensures forall d, f :: 0 <= d < |m.devs| && f in fs ==> f !in m.devs[d].dom.grants
  {
    hide SoundBut;
    SoundMeansUnreachable(m, ram);
  }

  // ------------------------------------------------------------------- reach for a device

  function FreeRecord(dma: seq<Record>): (k: nat)
    ensures k <= |dma|
    ensures k < |dma| ==> dma[k].region == 0
    ensures forall j :: 0 <= j < k ==> dma[j].region != 0
  {
    if dma == [] then 0
    else
      var k := FreeRecord(dma[..|dma| - 1]);
      if k < |dma| - 1 || dma[|dma| - 1].region == 0 then k else |dma|
  }

  datatype DmaOut = DmaOut(m: Mem, ret: nat)

  const PAGE_SIZE := 4096

  /** Every page of region `i`, at consecutive slots of domain `d` from `first`, recorded in slot
      `rec` of process `p`. */
  function Install(m: Mem, p: nat, d: nat, i: nat, rights: Rights, first: nat, rec: nat): DmaOut
    requires p < |m.spaces| && d < |m.devs| && i < |m.regions| && rec < |m.spaces[p].dma|
    requires |m.devs[d].leaves| == L1_SLOTS && first + |m.regions[i].frames| <= L1_SLOTS
  {
    var out := MapPages(m.devs[d], m.regions[i].frames, rights, first, 0);
    var n := m.(devs := m.devs[d := out.d]);
    if out.ok then
      var record := Record(m.regions[i].id, m.devs[d].id);
      DmaOut(n.(spaces := n.spaces[p := n.spaces[p].(dma := n.spaces[p].dma[rec := record])]), first * PAGE_SIZE)
    else DmaOut(n, NO_CAP)
  }

  /** Give a device reach to a region: every refusal in the order it is decided. */
  function MapDma(m: Mem, p: nat, domain: nat, region: nat, rights: Rights): DmaOut
    requires Shaped(m) && p < |m.spaces|
    requires forall d :: 0 <= d < |m.devs| ==> |m.devs[d].leaves| == L1_SLOTS
    requires RegionsOk(m.regions, m.nextRegion)
  {
    if forall d :: 0 <= d < |m.devs| ==> m.devs[d].id == 0 then DmaOut(m, NO_MEM)
    else
      var d := DomainAt(m.devs, domain);
      if d == |m.devs| then DmaOut(m, NO_CAP)
      else if !m.devs[d].table then DmaOut(m, NO_MEM)
      else
        var i := RegionAt(m.regions, region);
        if i == |m.regions| then DmaOut(m, NO_CAP)
        else
          var first := FindRun(m.devs[d].leaves, |m.regions[i].frames|, FIRST_SLOT, 0);
          if first.None? then DmaOut(m, NO_MEM)
          else
            var rec := FreeRecord(m.spaces[p].dma);
            if rec == |m.spaces[p].dma| then DmaOut(m, NO_MEM)
            else
              FindRunRoom(m.devs[d].leaves, |m.regions[i].frames|);
              Install(m, p, d, i, rights, first.value, rec)
  }

  lemma {:induction false} FindRunRoom(leaves: seq<Leaf>, n: nat)
    requires |leaves| == L1_SLOTS && 0 < n
    ensures var r := FindRun(leaves, n, FIRST_SLOT, 0); r.Some? ==> FreeRun(leaves, r.value, n)
  {
    FindRunFirstFit(leaves, n, FIRST_SLOT, 0);
  }

  lemma {:induction false} InstallSound(m: Mem, ram: set<nat>, p: nat, d: nat, i: nat, rights: Rights, first: nat, rec: nat)
    requires Sound(m, ram) && p < MAX_PROCS && d < MAX_DOMAINS && i < MAX_REGIONS && rec < SHARE_SLOTS
    requires m.spaces[p].live && m.devs[d].table && m.regions[i].live && m.spaces[p].dma[rec].region == 0
    requires |m.devs[d].leaves| == L1_SLOTS && FreeRun(m.devs[d].leaves, first, |m.regions[i].frames|)
    ensures Sound(Install(m, p, d, i, rights, first, rec).m, ram)
  {
    hide DeviceOk, Conserved, MapPages, OwnersOk, RegionAt, FramesOf, ReachOk, WindowOk, LeafFor, MapPre;
    var fs := m.regions[i].frames;
    var out := MapPages(m.devs[d], fs, rights, first, 0);
    var n := Install(m, p, d, i, rights, first, rec).m;
    InstallPre(m, ram, d, i, first);
    MapTables(m.devs[d], fs, rights, first);
    RegionAtIs(m.regions, i);
    SameFrames(m, n, ram);
    SameOwners(m, n);
    InstallReach(m, n, p, d, i, rights, first, rec, out.ok);
  }

  lemma {:induction false} MapTables(d: Device, fs: seq<nat>, rights: Rights, first: nat)
    requires MapPre(d, fs, first)
    ensures var out := MapPages(d, fs, rights, first, 0);
            && DeviceOk(out.d) && out.d.id == d.id && out.d.table == d.table && out.d.tlb == d.tlb
            && |out.d.leaves| == |d.leaves| == L1_SLOTS
            && forall a :: 0 <= a < L1_SLOTS ==>
                 out.d.leaves[a] == if out.ok && first <= a < first + |fs| then LeafFor(fs[a - first], rights) else d.leaves[a]
  {
    hide MapPages, GrantsUsed, Iommu.Sound, Narrowed, Added, LeafFor;
    MapPagesKeepsOk(d, fs, rights, first);
    MapOutcome(d, fs, rights, first);
  }

  lemma {:induction false} InstallPre(m: Mem, ram: set<nat>, d: nat, i: nat, first: nat)
    requires Sound(m, ram) && d < |m.devs| && i < |m.regions| && m.regions[i].live
    requires |m.devs[d].leaves| == L1_SLOTS && FreeRun(m.devs[d].leaves, first, |m.regions[i].frames|)
    ensures MapPre(m.devs[d], m.regions[i].frames, first)
  {
    hide DeviceOk, Conserved, OwnersOk, RegionAt, FramesOf, Attributed, WindowOk, ReachOk;
    RegionFrameIsExclusive(m, ram, i);
  }

  lemma {:induction false} InstallReach(m: Mem, n: Mem, p: nat, d: nat, i: nat, rights: Rights, first: nat, rec: nat, ok: bool)
    requires ReachOk(m.regions, m.spaces, m.devs) && p < |m.spaces| && d < |m.devs| && i < |m.regions|
    requires rec < |m.spaces[p].dma| && m.spaces[p].dma[rec].region == 0 && m.regions[i].live && m.regions[i].id != 0
    requires FramesOf(m.regions, m.regions[i].id) == m.regions[i].frames
    requires n.regions == m.regions && |n.devs| == |m.devs| && n.devs[d].id == m.devs[d].id
    requires forall e :: 0 <= e < |m.devs| && e != d ==> n.devs[e] == m.devs[e]
    requires n.spaces == if ok then m.spaces[p := m.spaces[p].(dma := m.spaces[p].dma[rec := Record(m.regions[i].id, m.devs[d].id)])]
                         else m.spaces
    requires |n.devs[d].leaves| == |m.devs[d].leaves| == L1_SLOTS
    requires forall a :: 0 <= a < L1_SLOTS ==>
               n.devs[d].leaves[a] == if ok && first <= a < first + |m.regions[i].frames|
                                      then LeafFor(m.regions[i].frames[a - first], rights) else m.devs[d].leaves[a]
    ensures ReachOk(n.regions, n.spaces, n.devs)
  {
    hide RegionAt, FramesOf, LeafFor;
    forall e, a | 0 <= e < |n.devs| && 0 <= a < |n.devs[e].leaves| && n.devs[e].leaves[a].Present?
      ensures Attributed(n.regions, n.spaces, n.devs[e].id, n.devs[e].leaves[a].frame)
    {
      if ok && e == d && first <= a < first + |m.regions[i].frames| {
        LeafPresent(m.regions[i].frames[a - first], rights);
        assert n.spaces[p].dma[rec] == Record(m.regions[i].id, m.devs[d].id);
      } else {
        var f := m.devs[e].leaves[a].frame;
        assert Attributed(m.regions, m.spaces, m.devs[e].id, f);
        var q, j :| 0 <= q < |m.spaces| && 0 <= j < |m.spaces[q].dma|
                    && m.spaces[q].dma[j].region != 0 && m.spaces[q].dma[j].domain == m.devs[e].id
                    && f in FramesOf(m.regions, m.spaces[q].dma[j].region);
        assert n.spaces[q].dma[j] == m.spaces[q].dma[j];
      }
    }
  }

  lemma {:induction false} LeafTables(m: Mem, ram: set<nat>)
    requires Sound(m, ram)
    ensures forall d :: 0 <= d < |m.devs| ==> |m.devs[d].leaves| == L1_SLOTS
  {
    hide Conserved, OwnersOk, Attributed, WindowsOk, ReachOk, Iommu.Sound, GrantsUsed;
  }

  /** Mapping a region for a device keeps every reachable frame accounted for, whether it succeeds,
      is refused, or is rolled back part of the way through. */
  lemma {:induction false} MapDmaSound(m: Mem, ram: set<nat>, p: nat, domain: nat, region: nat, rights: Rights)
    requires Sound(m, ram) && p < |m.spaces| && m.spaces[p].live
    ensures forall d :: 0 <= d < |m.devs| ==> |m.devs[d].leaves| == L1_SLOTS
    ensures Sound(MapDma(m, p, domain, region, rights).m, ram)
    ensures var n := MapDma(m, p, domain, region, rights).m;
            && n.pool == m.pool && n.regions == m.regions && n.nextRegion == m.nextRegion && |n.spaces| == |m.spaces|
            && |n.spaces[p].dma| == |m.spaces[p].dma|
            && n.spaces == m.spaces[p := m.spaces[p].(dma := n.spaces[p].dma)]
            && forall k :: 0 <= k < |m.spaces[p].dma| ==>
                 n.spaces[p].dma[k] == m.spaces[p].dma[k] || n.spaces[p].dma[k] == Record(region, domain)
  {
    hide SoundBut, MapPages, RegionAt, DomainAt, FindRun, FreeRun, FreeRecord;
    LeafTables(m, ram);
    ShapeOf(m, ram, false);
    var d, i := DomainAt(m.devs, domain), RegionAt(m.regions, region);
    assert m.spaces == m.spaces[p := m.spaces[p].(dma := m.spaces[p].dma)];
    if d < |m.devs| && i < |m.regions| {
      var first := FindRun(m.devs[d].leaves, |m.regions[i].frames|, FIRST_SLOT, 0);
      var rec := FreeRecord(m.spaces[p].dma);
      if m.devs[d].table && first.Some? && rec < |m.spaces[p].dma| {
        FindRunRoom(m.devs[d].leaves, |m.regions[i].frames|);
        InstallSound(m, ram, p, d, i, rights, first.value, rec);
      }
    }
  }

  // ------------------------------------------------------------------- the units' own steps

  /** Unit `d` caches one table entry. */
  function Cached(m: Mem, d: nat, slot: nat): Mem
    requires d < |m.devs|
  {
    m.(devs := m.devs[d := Cache(m.devs[d], slot)])
  }

  lemma {:induction false} CachedSound(m: Mem, ram: set<nat>, d: nat, slot: nat)
    requires Sound(m, ram) && d < |m.devs|
    ensures Sound(Cached(m, d, slot), ram)
  {
    hide DeviceOk, Conserved, OwnersOk, Attributed, WindowsOk, RegionsOk, RecordsOk;
    CacheKeepsOk(m.devs[d], slot);
  }
}
