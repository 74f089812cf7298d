/** Whose every frame is: the pool, each process's own frames, the shared regions, the windows
    processes have onto regions, and the devices' tables. */
module Memory {
  import opened Abi
  import opened Seqs
  import opened Dma

  datatype Region = Region(live: bool, id: nat, owner: nat, frames: seq<nat>)

  const NO_REGION := Region(false, 0, 0, [])

  /** What one share slot has mapped: a region's frames, or nothing. */
  datatype Window = Window(frames: seq<nat>, writable: bool)

  const NO_WINDOW := Window([], false)

  /** A DMA mapping a process asked for; region zero is an empty record. */
  datatype Record = Record(region: nat, domain: nat)

  const NO_RECORD := Record(0, 0)

  /** One process-table slot, as far as memory is concerned. */
  datatype Space = Space(live: bool, id: nat, frames: seq<nat>, shares: seq<nat>, windows: seq<Window>, dma: seq<Record>)

  datatype Mem = Mem(pool: set<nat>, regions: seq<Region>, spaces: seq<Space>, devs: seq<Device>, nextRegion: nat)

  // ------------------------------------------------------------------- finding things

  /** Table index of the live region `id`, or the table length. */
  function RegionAt(rs: seq<Region>, id: nat): (i: nat)
    ensures i <= |rs|
    ensures i < |rs| ==> rs[i].live && rs[i].id == id != 0
    ensures i == |rs| ==> forall j :: 0 <= j < |rs| && rs[j].live ==> !(rs[j].id == id != 0)
  {
    if rs == [] then 0
    else
      var i := RegionAt(rs[..|rs| - 1], id);
      if i < |rs| - 1 || (rs[|rs| - 1].live && rs[|rs| - 1].id == id != 0) then i else |rs|
  }

  /** Index of the domain a capability names, or the number of domains: zero names nothing. */
  function DomainAt(devs: seq<Device>, named: nat): (i: nat)
    ensures i <= |devs|
    ensures i < |devs| ==> devs[i].id == named != 0
    ensures i == |devs| ==> forall j :: 0 <= j < |devs| ==> !(devs[j].id == named != 0)
  {
    if devs == [] then 0
    else
      var i := DomainAt(devs[..|devs| - 1], named);
      if i < |devs| - 1 || devs[|devs| - 1].id == named != 0 then i else |devs|
  }

  /** The frames of the live region `id`, if there is one. */
  function FramesOf(rs: seq<Region>, id: nat): seq<nat> {
    var i := RegionAt(rs, id);
    if i < |rs| then rs[i].frames else []
  }

  lemma {:induction false} RegionAtIs(rs: seq<Region>, i: nat)
    requires DistinctIds(rs) && i < |rs| && rs[i].live && rs[i].id != 0
    ensures RegionAt(rs, rs[i].id) == i && FramesOf(rs, rs[i].id) == rs[i].frames
  {
    var k := RegionAt(rs, rs[i].id);
    assert k < |rs| ==> rs[k].live && rs[k].id == rs[i].id;
  }

  // ------------------------------------------------------------------- conservation

  /** The frames of several lists together, with multiplicity. */
  ghost function Sum(ls: seq<seq<nat>>): multiset<nat> {
    if ls == [] then multiset{} else Sum(ls[..|ls| - 1]) + multiset(ls[|ls| - 1])
  }

  ghost function Held(ss: seq<Space>): seq<seq<nat>> {
    seq(|ss|, p requires 0 <= p < |ss| => ss[p].frames)
  }

  ghost function Shared(rs: seq<Region>): seq<seq<nat>> {
    seq(|rs|, i requires 0 <= i < |rs| => rs[i].frames)
  }

  /** Free frames, process frames and region frames make up the machine's frames, each once. */
  ghost predicate Conserved(pool: set<nat>, rs: seq<Region>, ss: seq<Space>, ram: set<nat>) {
    multiset(pool) + Sum(Held(ss)) + Sum(Shared(rs)) == multiset(ram)
  }

  lemma {:induction false} SumUpdate(ls: seq<seq<nat>>, i: nat, x: seq<nat>)
    requires i < |ls|
    ensures Sum(ls[i := x]) + multiset(ls[i]) == Sum(ls) + multiset(x)
  {
    var n := |ls| - 1;
    if i == n {
      assert ls[i := x][..n] == ls[..n];
    } else {
      SumUpdate(ls[..n], i, x);
      assert ls[i := x][..n] == ls[..n][i := x];
      var a, b, last := Sum(ls[..n][i := x]), Sum(ls[..n]), multiset(ls[n]);
      assert Sum(ls[i := x]) == a + last && Sum(ls) == b + last;
      assert a + last + multiset(ls[i]) == (a + multiset(ls[i])) + last;
      assert b + last + multiset(x) == (b + multiset(x)) + last;
    }
  }

  lemma {:induction false} SumHas(ls: seq<seq<nat>>, i: nat, f: nat)
    requires i < |ls|
    ensures multiset(ls[i])[f] <= Sum(ls)[f]
  {
    if i < |ls| - 1 { SumHas(ls[..|ls| - 1], i, f); }
  }

  lemma {:induction false} SumHasTwo(ls: seq<seq<nat>>, i: nat, j: nat, f: nat)
    requires i < j < |ls|
    ensures multiset(ls[i])[f] + multiset(ls[j])[f] <= Sum(ls)[f]
  {
    if j == |ls| - 1 { SumHas(ls[..j], i, f); } else { SumHasTwo(ls[..|ls| - 1], i, j, f); }
  }

  lemma {:induction false} SumEmpty(ls: seq<seq<nat>>)
    requires forall i :: 0 <= i < |ls| ==> ls[i] == []
    ensures Sum(ls) == multiset{}
  {
    if ls != [] {
      var n := |ls| - 1;
      assert ls[n] == [];
      assert forall i :: 0 <= i < n ==> ls[..n][i] == ls[i];
      SumEmpty(ls[..n]);
    }
  }

  lemma {:induction false} OnceEach(s: seq<nat>)
    requires forall f :: multiset(s)[f] <= 1
    ensures NoDup(s)
  {
    forall i, j | 0 <= i < j < |s| ensures s[i] != s[j] {
      if s[i] == s[j] { Twice(s, i, j); }
    }
  }

  lemma {:induction false} Twice(s: seq<nat>, i: nat, j: nat)
    requires i < j < |s| && s[i] == s[j]
    ensures multiset(s)[s[i]] >= 2
  {
    var x, y, z := s[..i], s[i + 1..j], s[j + 1..];
    assert s == x + [s[i]] + y + [s[j]] + z;
  }

  /** A frame of a region is in no other region, in no process's list and not in the pool, and the
      region lists it once. */
  lemma {:induction false} RegionFrameIsExclusive(m: Mem, ram: set<nat>, i: nat)
    requires Conserved(m.pool, m.regions, m.spaces, ram) && i < |m.regions|
    ensures NoDup(m.regions[i].frames)
    ensures forall f :: f in m.regions[i].frames ==>
              && f !in m.pool && f in ram
              && (forall j :: 0 <= j < |m.regions| && j != i ==> f !in m.regions[j].frames)
              && (forall p :: 0 <= p < |m.spaces| ==> f !in m.spaces[p].frames)
  {
    var fs := m.regions[i].frames;
    forall f ensures multiset(fs)[f] <= 1 { SumHas(Shared(m.regions), i, f); CountOne(m, ram, f); }
    OnceEach(fs);
    forall f | f in fs ensures f !in m.pool && f in ram { SumHas(Shared(m.regions), i, f); CountOne(m, ram, f); }
    forall f, j | f in fs && 0 <= j < |m.regions| && j != i ensures f !in m.regions[j].frames {
      SumHasTwo(Shared(m.regions), if i < j then i else j, if i < j then j else i, f);
      CountOne(m, ram, f);
    }
    forall f, p | f in fs && 0 <= p < |m.spaces| ensures f !in m.spaces[p].frames {
      SumHas(Shared(m.regions), i, f);
      SumHas(Held(m.spaces), p, f);
      CountOne(m, ram, f);
    }
  }

  lemma {:induction false} CountOne(m: Mem, ram: set<nat>, f: nat)
    requires Conserved(m.pool, m.regions, m.spaces, ram)
    ensures multiset(m.pool)[f] + Sum(Held(m.spaces))[f] + Sum(Shared(m.regions))[f] == (if f in ram then 1 else 0)
  {
    var total := multiset(m.pool) + Sum(Held(m.spaces)) + Sum(Shared(m.regions));
    assert total[f] == multiset(m.pool)[f] + Sum(Held(m.spaces))[f] + Sum(Shared(m.regions))[f];
  }

  // ------------------------------------------------------------------- the invariant

  ghost predicate DistinctIds(rs: seq<Region>) {
    forall i, j :: 0 <= i < j < |rs| && rs[i].live && rs[j].live ==> rs[i].id != rs[j].id
  }

  ghost predicate Shaped(m: Mem) {
    && |m.regions| == MAX_REGIONS && |m.spaces| == MAX_PROCS && |m.devs| == MAX_DOMAINS
    && (forall p :: 0 <= p < MAX_PROCS ==>
          |m.spaces[p].shares| == |m.spaces[p].windows| == |m.spaces[p].dma| == SHARE_SLOTS
          && |m.spaces[p].frames| <= MAX_PROC_FRAMES)
  }

  ghost predicate RegionsOk(rs: seq<Region>, next: nat) {
    && DistinctIds(rs) && 0 < next
    && forall i :: 0 <= i < |rs| ==>
         if rs[i].live
         then 0 < rs[i].id < next && 0 < |rs[i].frames| <= REGION_MAX_PAGES
         else rs[i].frames == []
  }

  /** A window shows exactly the frames of a live region its slot names. */
  ghost predicate WindowOk(rs: seq<Region>, share: nat, w: Window) {
    && (share != 0 ==> RegionAt(rs, share) < |rs|)
    && (w.frames != [] ==> share != 0 && w.frames == FramesOf(rs, share))
  }

  ghost predicate WindowsOk(rs: seq<Region>, ss: seq<Space>) {
    forall p, k :: 0 <= p < |ss| && 0 <= k < |ss[p].shares| && k < |ss[p].windows| ==>
      WindowOk(rs, ss[p].shares[k], ss[p].windows[k])
  }

  /** A record names a live region. */
  ghost predicate RecordsOk(rs: seq<Region>, ss: seq<Space>) {
    forall p, k :: 0 <= p < |ss| && 0 <= k < |ss[p].dma| && ss[p].dma[k].region != 0 ==>
      RegionAt(rs, ss[p].dma[k].region) < |rs|
  }

  /** Some process's record accounts for this domain reaching this frame. */
  ghost predicate Attributed(rs: seq<Region>, ss: seq<Space>, domain: nat, frame: nat) {
    exists p, k :: 0 <= p < |ss| && 0 <= k < |ss[p].dma|
                   && ss[p].dma[k].region != 0 && ss[p].dma[k].domain == domain
                   && frame in FramesOf(rs, ss[p].dma[k].region)
  }

  /** A device slot nobody claimed has no table; a slot with no table has nothing in it. */
  ghost predicate DevicesShaped(devs: seq<Device>) {
    && (forall d :: 0 <= d < |devs| && devs[d].id == 0 ==> !devs[d].table)
    && (forall d :: 0 <= d < |devs| && !devs[d].table ==>
          devs[d].tlb == {} && forall a :: 0 <= a < |devs[d].leaves| ==> devs[d].leaves[a].Absent?)
    && (forall d, e :: 0 <= d < e < |devs| && devs[d].id != 0 ==> devs[d].id != devs[e].id)
  }

  /** Each device's own invariant; with `stale`, except for what its unit may still have cached. */
  ghost predicate DevicesOk(devs: seq<Device>, stale: bool) {
    forall d :: 0 <= d < |devs| ==> DeviceOk(if stale then Invalidate(devs[d]) else devs[d])
  }

  /** Everything a device can reach was asked for by some process and is a live region's. */
  ghost predicate ReachOk(rs: seq<Region>, ss: seq<Space>, devs: seq<Device>) {
    forall d, a :: 0 <= d < |devs| && 0 <= a < |devs[d].leaves| && devs[d].leaves[a].Present? ==>
      Attributed(rs, ss, devs[d].id, devs[d].leaves[a].frame)
  }

  ghost predicate LiveId(ss: seq<Space>, id: nat) {
    exists p :: 0 <= p < |ss| && ss[p].live && ss[p].id == id
  }

  ghost predicate OwnersOk(rs: seq<Region>, ss: seq<Space>) {
    && (forall i :: 0 <= i < |rs| && rs[i].live ==> LiveId(ss, rs[i].owner))
    && (forall p, q :: 0 <= p < q < |ss| && ss[p].live && ss[q].live ==>
          ss[p].id != ss[q].id)
  }

  /** A free slot has nothing left in it. */
  ghost predicate Empty(sp: Space) {
    && sp.frames == []
    && (forall k :: 0 <= k < |sp.shares| ==> sp.shares[k] == 0)
    && (forall k :: 0 <= k < |sp.dma| ==> sp.dma[k].region == 0)
  }

  ghost predicate QuietOk(ss: seq<Space>) {
    forall p :: 0 <= p < |ss| && !ss[p].live ==> Empty(ss[p])
  }

  ghost predicate SoundBut(m: Mem, ram: set<nat>, stale: bool) {
    && Shaped(m) && Conserved(m.pool, m.regions, m.spaces, ram) && RegionsOk(m.regions, m.nextRegion) && WindowsOk(m.regions, m.spaces) && RecordsOk(m.regions, m.spaces)
    && DevicesShaped(m.devs) && DevicesOk(m.devs, stale) && ReachOk(m.regions, m.spaces, m.devs) && OwnersOk(m.regions, m.spaces) && QuietOk(m.spaces)
  }

  ghost predicate Sound(m: Mem, ram: set<nat>) {
    SoundBut(m, ram, false)
  }

  // ------------------------------------------------------------------- what the invariant means

  /** No frame in the pool can be reached: not through a process's window, not through a device's
      table, not through a translation a unit still holds, and no domain authorizes it. */
  ghost predicate NoFreeFrameNamed(m: Mem) {
    && (forall p, k, f :: 0 <= p < |m.spaces| && 0 <= k < |m.spaces[p].windows| && f in m.spaces[p].windows[k].frames ==>
          f !in m.pool)
    && (forall d, a :: 0 <= d < |m.devs| && 0 <= a < |m.devs[d].leaves| && m.devs[d].leaves[a].Present? ==>
          m.devs[d].leaves[a].frame !in m.pool)
    && (forall d, c :: 0 <= d < |m.devs| && c in m.devs[d].tlb && c.1.Present? ==> c.1.frame !in m.pool)
    && (forall d, f :: 0 <= d < |m.devs| && f in m.devs[d].dom.grants ==> f !in m.pool)
  }

  lemma {:induction false} NotInPool(m: Mem, ram: set<nat>, id: nat, f: nat)
    requires Conserved(m.pool, m.regions, m.spaces, ram) && f in FramesOf(m.regions, id)
    ensures f !in m.pool
  {
    RegionFrameIsExclusive(m, ram, RegionAt(m.regions, id));
  }

  lemma {:induction false} LeafNotInPool(m: Mem, ram: set<nat>, d: nat, a: nat)
    requires Conserved(m.pool, m.regions, m.spaces, ram) && ReachOk(m.regions, m.spaces, m.devs)
    requires d < |m.devs| && a < |m.devs[d].leaves| && m.devs[d].leaves[a].Present?
    ensures m.devs[d].leaves[a].frame !in m.pool
  {
    var f := m.devs[d].leaves[a].frame;
    assert Attributed(m.regions, m.spaces, m.devs[d].id, f);
    var p, k :| 0 <= p < |m.spaces| && 0 <= k < |m.spaces[p].dma|
                && m.spaces[p].dma[k].region != 0 && m.spaces[p].dma[k].domain == m.devs[d].id
                && f in FramesOf(m.regions, m.spaces[p].dma[k].region);
    NotInPool(m, ram, m.spaces[p].dma[k].region, f);
  }

  /** Whatever a domain authorizes, its table shows. */
  lemma {:induction false} GrantHasLeaf(d: Device, f: nat) returns (a: nat)
    requires DeviceOk(d) && f in d.dom.grants
    ensures a < |d.leaves| && d.leaves[a].Present? && d.leaves[a].frame == f
  {
    hide Contains;
    assert Reached(d.dom, f);
    a :| a in d.dom.maps && d.dom.maps[a].frame == f;
    LeafPresent(f, d.dom.maps[a].rights);
  }

  lemma {:induction false} CachedIsLeaf(d: Device, c: (nat, Leaf))
    requires DeviceOk(d) && c in d.tlb
    ensures c.0 < |d.leaves| && d.leaves[c.0] == c.1
  {}

  /** The pool is out of reach of everything. */
  lemma {:induction false} SoundMeansUnreachable(m: Mem, ram: set<nat>)
    requires Sound(m, ram)
    ensures NoFreeFrameNamed(m)
  {
    hide DeviceOk, Attributed, Conserved, RegionAt;
    forall p, k, f | 0 <= p < |m.spaces| && 0 <= k < |m.spaces[p].windows| && f in m.spaces[p].windows[k].frames
      ensures f !in m.pool
    {
      assert WindowOk(m.regions, m.spaces[p].shares[k], m.spaces[p].windows[k]);
      NotInPool(m, ram, m.spaces[p].shares[k], f);
    }
    forall d, a | 0 <= d < |m.devs| && 0 <= a < |m.devs[d].leaves| && m.devs[d].leaves[a].Present?
      ensures m.devs[d].leaves[a].frame !in m.pool
    {
      LeafNotInPool(m, ram, d, a);
    }
    forall d, c | 0 <= d < |m.devs| && c in m.devs[d].tlb && c.1.Present? ensures c.1.frame !in m.pool {
      CachedIsLeaf(m.devs[d], c);
      LeafNotInPool(m, ram, d, c.0);
    }
    forall d, f | 0 <= d < |m.devs| && f in m.devs[d].dom.grants ensures f !in m.pool {
      var a := GrantHasLeaf(m.devs[d], f);
      LeafNotInPool(m, ram, d, a);
    }
  }

  /** When no process is left, nothing is held: every frame is back in the pool, no region is live,
      no table has an entry and no domain authorizes anything. */
  lemma {:induction false} AllGone(m: Mem, ram: set<nat>)
    requires Sound(m, ram)
    requires forall p :: 0 <= p < |m.spaces| ==> !m.spaces[p].live
    ensures m.pool == ram
    ensures forall i :: 0 <= i < |m.regions| ==> !m.regions[i].live
    ensures forall d, a :: 0 <= d < |m.devs| && 0 <= a < |m.devs[d].leaves| ==> m.devs[d].leaves[a].Absent?
    ensures forall d :: 0 <= d < |m.devs| ==> m.devs[d].dom.grants.Keys == {} && m.devs[d].tlb == {}
  {
    hide DeviceOk, RegionAt, FramesOf;
    forall i | 0 <= i < |m.regions| ensures !m.regions[i].live && m.regions[i].frames == [] {
      assert m.regions[i].live ==> LiveId(m.spaces, m.regions[i].owner);
    }
    SumEmpty(Held(m.spaces));
    SumEmpty(Shared(m.regions));
    assert multiset(m.pool) == multiset(ram);
    assert forall f :: f in m.pool <==> f in multiset(m.pool);
    assert forall f :: f in ram <==> f in multiset(ram);
    forall d, a | 0 <= d < |m.devs| && 0 <= a < |m.devs[d].leaves| ensures m.devs[d].leaves[a].Absent? {
      assert m.devs[d].leaves[a].Present? ==> Attributed(m.regions, m.spaces, m.devs[d].id, m.devs[d].leaves[a].frame);
    }
    forall d | 0 <= d < |m.devs| ensures m.devs[d].dom.grants.Keys == {} && m.devs[d].tlb == {} {
      if f :| f in m.devs[d].dom.grants.Keys { var a := GrantHasLeaf(m.devs[d], f); }
      if c :| c in m.devs[d].tlb { CachedPresent(m.devs[d], c); CachedIsLeaf(m.devs[d], c); }
    }
  }

  lemma {:induction false} CachedPresent(d: Device, c: (nat, Leaf))
    requires DeviceOk(d) && c in d.tlb
    ensures c.1.Present?
  {}
}
