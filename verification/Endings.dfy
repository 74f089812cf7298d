/** The ends of regions and of processes: FREE_REGION and EXIT, and what becomes of a waiting sender. */
module Endings {
  import opened Abi
  import opened Basics
  import opened Capabilities
  import opened Deleg
  import opened Sched
  import opened Machine
  import opened Invariant
  import opened Runs
  import opened Calls
  import opened Making
  import opened Drivers
  import opened Losses
  import MS = MemorySteps
  import LS = LifeSteps
  import A = Authority
  import M = Memory
  import L = Lifetime
  import P = Plans
  import V = Rendezvous
  import D = Dma
  import R = Regions
  import E = Effects
  import Y = Delivery

  // ------------------------------------------------------------------- regions that go

  ghost predicate FrameOver(rs: seq<M.Region>, gone: iset<nat>, f: nat) {
    exists i :: 0 <= i < |rs| && rs[i].live && rs[i].id in gone && f in rs[i].frames
  }

  /** The frames of the live regions among these. */
  ghost function FramesOver(rs: seq<M.Region>, gone: iset<nat>): iset<nat> {
    iset f | FrameOver(rs, gone, f)
  }

  /** `tp` is `sp` without its windows on and records of these regions. */
  ghost predicate Without(sp: M.Space, tp: M.Space, gone: iset<nat>) {
    && tp == sp.(shares := tp.shares, windows := tp.windows, dma := tp.dma)
    && |tp.shares| == |sp.shares| == |tp.windows| == |sp.windows| && |tp.dma| == |sp.dma|
    && (forall k :: 0 <= k < |sp.shares| ==> tp.shares[k] == if sp.shares[k] in gone then 0 else sp.shares[k])
    && (forall k :: 0 <= k < |sp.shares| ==>
          if tp.shares[k] == 0 then tp.windows[k].frames == [] else tp.windows[k] == sp.windows[k])
    && forall k :: 0 <= k < |sp.dma| ==> tp.dma[k] == if sp.dma[k].region in gone then M.NO_RECORD else sp.dma[k]
  }

  /** Exactly these regions are gone: from the table, from every window and record but those of process
      `who`, and from every domain; their frames are in the pool. */
  ghost predicate MemTook(m: M.Mem, n: M.Mem, gone: iset<nat>, who: nat) {
    && |n.spaces| == |m.spaces| && |n.regions| == |m.regions| && |n.devs| == |m.devs| && n.nextRegion == m.nextRegion
    && (forall p :: 0 <= p < |m.spaces| && p != who ==> Without(m.spaces[p], n.spaces[p], gone))
    && (forall i :: 0 <= i < |m.regions| ==>
          n.regions[i] == if m.regions[i].live && m.regions[i].id in gone then M.NO_REGION else m.regions[i])
    && (forall d :: 0 <= d < |m.devs| ==> Cleared(m.devs[d], n.devs[d], FramesOver(m.regions, gone)))
    && forall f :: f in n.pool <==> f in m.pool || FrameOver(m.regions, gone, f)
  }

  /** And from every live process's capabilities, which are otherwise as they were. */
  ghost predicate AuthTook(a: A.Auth, b: A.Auth, gone: iset<nat>) {
    && |b.spaces| == |a.spaces| && b.nextId == a.nextId && b.hist == a.hist
    && forall p :: 0 <= p < |a.spaces| ==>
         && b.spaces[p].live == a.spaces[p].live && b.spaces[p].id == a.spaces[p].id && b.spaces[p].stamps == a.spaces[p].stamps
         && (a.spaces[p].live ==> A.Cut(a.spaces[p].caps, b.spaces[p].caps, gone))
  }

  /** The regions the first `k` steps of a plan release. */
  ghost function ReleasedBy(steps: seq<R.Step>, k: nat): iset<nat>
    requires k <= |steps|
  {
    iset q: nat | R.Release(q) in steps[..k]
  }

  /** Every device, and the pool, through part of a plan. */
  lemma {:induction false} PlanReaches(m: M.Mem, ram: set<nat>, steps: seq<R.Step>, k: nat)
    requires M.Sound(m, ram) && k <= |steps| && P.PlanOk(m, steps)
    ensures var n, gone := P.RunPlan(m, steps[..k]), ReleasedBy(steps, k);
            && |n.devs| == |m.devs|
            && (forall d :: 0 <= d < |m.devs| ==> Cleared(m.devs[d], n.devs[d], FramesOver(m.regions, gone)))
            && forall f :: f in n.pool <==> f in m.pool || FrameOver(m.regions, gone, f)
  {
    hide M.SoundBut, P.PlanOk, Cleared, FrameOver, P.Exec, P.After;
    if k == 0 {
      assert steps[..0] == [];
      forall f ensures !FrameOver(m.regions, ReleasedBy(steps, 0), f) { NothingOver(m.regions, steps, f); }
      assert FramesOver(m.regions, ReleasedBy(steps, 0)) == iset{};
      forall d | 0 <= d < |m.devs| ensures Cleared(m.devs[d], m.devs[d], iset{}) { ClearedNothing(m.devs[d]); }
    } else {
      PlanReaches(m, ram, steps, k - 1);
      PlanSoundAt(m, ram, steps, k - 1);
      assert steps[..k][..k - 1] == steps[..k - 1];
      StepReaches(m, P.RunPlan(m, steps[..k - 1]), steps, k);
    }
  }

  lemma {:induction false} NothingOver(rs: seq<M.Region>, steps: seq<R.Step>, f: nat)
    ensures !FrameOver(rs, ReleasedBy(steps, 0), f)
  {}

  lemma {:induction false} PlanSoundAt(m: M.Mem, ram: set<nat>, steps: seq<R.Step>, k: nat)
    requires M.Sound(m, ram) && k <= |steps| && P.PlanOk(m, steps)
    ensures P.After(m, P.RunPlan(m, steps[..k]), steps[..k]) && M.RegionsOk(m.regions, m.nextRegion)
  {
    hide M.Conserved, M.WindowsOk, M.RecordsOk, M.DevicesOk, M.DevicesShaped, M.ReachOk, M.OwnersOk, M.QuietOk, P.After, R.Phased, P.UnmapsHolders,
      M.NoFreeFrameNamed, P.RunPlan, M.RegionsOk;
    P.EveryStepSound(m, ram, steps, k);
  }

  lemma {:induction false} StepReaches(m: M.Mem, n: M.Mem, steps: seq<R.Step>, k: nat)
    requires 0 < k <= |steps| && P.After(m, n, steps[..k - 1]) && M.RegionsOk(m.regions, m.nextRegion)
    requires |n.devs| == |m.devs|
    requires forall d :: 0 <= d < |m.devs| ==> Cleared(m.devs[d], n.devs[d], FramesOver(m.regions, ReleasedBy(steps, k - 1)))
    requires forall f :: f in n.pool <==> f in m.pool || FrameOver(m.regions, ReleasedBy(steps, k - 1), f)
    ensures var o := P.Exec(n, steps[k - 1]);
            && |o.devs| == |m.devs|
            && (forall d :: 0 <= d < |m.devs| ==> Cleared(m.devs[d], o.devs[d], FramesOver(m.regions, ReleasedBy(steps, k))))
            && forall f :: f in o.pool <==> f in m.pool || FrameOver(m.regions, ReleasedBy(steps, k), f)
  {
    hide Cleared, P.SpaceAfter, M.RegionAt;
    var o, x := P.Exec(n, steps[k - 1]), steps[k - 1];
    assert steps[..k] == steps[..k - 1] + [x];
    if x.Release? && M.RegionAt(n.regions, x.region) < |n.regions| {
      var fs := n.regions[M.RegionAt(n.regions, x.region)].frames;
      OverNext(m, n, steps, k);
      forall d | 0 <= d < |m.devs| ensures Cleared(m.devs[d], o.devs[d], FramesOver(m.regions, ReleasedBy(steps, k))) {
        ReleasedReaches(n, x.region, d);
        ClearedTwice(m.devs[d], n.devs[d], o.devs[d], FramesOver(m.regions, ReleasedBy(steps, k - 1)), All(fs));
      }
    } else {
      OverSame(m, n, steps, k);
    }
  }

  lemma {:induction false} OverNext(m: M.Mem, n: M.Mem, steps: seq<R.Step>, k: nat)
    requires 0 < k <= |steps| && P.After(m, n, steps[..k - 1]) && M.DistinctIds(m.regions)
    requires steps[k - 1].Release? && M.RegionAt(n.regions, steps[k - 1].region) < |n.regions|
    ensures var fs := n.regions[M.RegionAt(n.regions, steps[k - 1].region)].frames;
            && FramesOver(m.regions, ReleasedBy(steps, k)) == FramesOver(m.regions, ReleasedBy(steps, k - 1)) + All(fs)
            && forall f :: FrameOver(m.regions, ReleasedBy(steps, k), f) <==> FrameOver(m.regions, ReleasedBy(steps, k - 1), f) || f in fs
  {
    hide P.SpaceAfter;
    var at := M.RegionAt(n.regions, steps[k - 1].region);
    assert steps[..k] == steps[..k - 1] + [steps[k - 1]];
    assert n.regions[at] == m.regions[at];
    forall f ensures FrameOver(m.regions, ReleasedBy(steps, k), f) <==> FrameOver(m.regions, ReleasedBy(steps, k - 1), f) || f in m.regions[at].frames {
      if f in m.regions[at].frames { assert m.regions[at].live && m.regions[at].id in ReleasedBy(steps, k); }
      if FrameOver(m.regions, ReleasedBy(steps, k), f) {
        var i :| 0 <= i < |m.regions| && m.regions[i].live && m.regions[i].id in ReleasedBy(steps, k) && f in m.regions[i].frames;
        assert m.regions[i].id in ReleasedBy(steps, k - 1) || i == at;
      }
      if FrameOver(m.regions, ReleasedBy(steps, k - 1), f) {
        var i :| 0 <= i < |m.regions| && m.regions[i].live && m.regions[i].id in ReleasedBy(steps, k - 1) && f in m.regions[i].frames;
        assert m.regions[i].id in ReleasedBy(steps, k);
      }
    }
  }

  /** A step that releases nothing live changes no device and not the pool. */
  lemma {:induction false} OverSame(m: M.Mem, n: M.Mem, steps: seq<R.Step>, k: nat)
    requires 0 < k <= |steps| && P.After(m, n, steps[..k - 1]) && M.RegionsOk(m.regions, m.nextRegion)
    requires steps[k - 1].Release? ==> M.RegionAt(n.regions, steps[k - 1].region) == |n.regions|
    ensures P.Exec(n, steps[k - 1]).devs == n.devs && P.Exec(n, steps[k - 1]).pool == n.pool
    ensures FramesOver(m.regions, ReleasedBy(steps, k)) == FramesOver(m.regions, ReleasedBy(steps, k - 1))
    ensures forall f :: FrameOver(m.regions, ReleasedBy(steps, k), f) <==> FrameOver(m.regions, ReleasedBy(steps, k - 1), f)
  {
    hide P.SpaceAfter;
    var x := steps[k - 1];
    assert steps[..k] == steps[..k - 1] + [x];
    forall i | 0 <= i < |m.regions| && m.regions[i].live
      ensures m.regions[i].id in ReleasedBy(steps, k) <==> m.regions[i].id in ReleasedBy(steps, k - 1)
    {
      if x == R.Release(m.regions[i].id) { assert n.regions[i] != m.regions[i]; }
    }
    forall f ensures FrameOver(m.regions, ReleasedBy(steps, k), f) <==> FrameOver(m.regions, ReleasedBy(steps, k - 1), f) {}
  }

  lemma {:induction false} ReleasedReaches(n: M.Mem, r: nat, d: nat)
    requires M.RegionAt(n.regions, r) < |n.regions| && d < |n.devs|
    ensures |L.Released(n, r).devs| == |n.devs|
    ensures Cleared(n.devs[d], L.Released(n, r).devs[d], All(n.regions[M.RegionAt(n.regions, r)].frames))
  {
    hide Cleared, D.Withdraw, L.AnyTouch;
    WithdrawClears(n.devs[d], n.regions[M.RegionAt(n.regions, r)].frames);
  }

  // ------------------------------------------------------------------- what a whole plan takes

  /** These regions are what the plan releases and sweeps, and but for process `who` it unmaps only slots
      that show one of them. */
  ghost predicate PlanFor(m: M.Mem, plan: seq<R.Step>, gone: iset<nat>, who: nat) {
    && P.PlanOk(m, plan) && (forall q: nat :: P.Releases(plan, q) <==> R.ForgetCaps(q) in plan)
    && (forall q: nat :: P.Releases(plan, q) <==> q in gone) && 0 !in gone
    && forall p: nat, k: nat :: p < |m.spaces| && p != who && k < |m.spaces[p].shares| && R.Unmaps(plan, p, k) ==> m.spaces[p].shares[k] in gone
  }

  lemma {:induction false} SpaceTaken(m: M.Mem, n: M.Mem, plan: seq<R.Step>, gone: iset<nat>, who: nat, p: nat)
    requires PlanFor(m, plan, gone, who) && P.After(m, n, plan) && p < |m.spaces| && p != who && M.WindowsOk(n.regions, n.spaces)
    requires |m.spaces[p].shares| == |m.spaces[p].windows|
    ensures |n.spaces| == |m.spaces| && Without(m.spaces[p], n.spaces[p], gone)
  {
    hide R.Unmaps, P.Releases, R.Phased, M.RegionAt;
    var sp, tp := m.spaces[p], n.spaces[p];
    assert P.SpaceAfter(sp, tp, p, plan);
    forall k | 0 <= k < |sp.shares| ensures tp.shares[k] == if sp.shares[k] in gone then 0 else sp.shares[k] {
      if sp.shares[k] in gone { MS.UnmapListed(plan, p, k, sp.shares[k]); }
    }
    forall k | 0 <= k < |sp.shares| && tp.shares[k] == 0 ensures tp.windows[k].frames == [] {
      assert M.WindowOk(n.regions, tp.shares[k], tp.windows[k]);
    }
  }

  lemma {:induction false} PlanTakes(s: State, ram: set<nat>, plan: seq<R.Step>, gone: iset<nat>, who: nat)
    requires Core(s, ram) && Sized(s) && PlanFor(s.mem, plan, gone, who)
    ensures var t := Executed(s, plan);
            && Core(t, ram) && Sized(t) && P.After(s.mem, t.mem, plan)
            && MemTook(s.mem, t.mem, gone, who) && AuthTook(s.auth, t.auth, gone)
            && t == s.(mem := t.mem, auth := t.auth)
  {
    hide A.Sound, Body, Sized, M.SoundBut, P.RunPlan, SweptBy, P.PlanOk, P.Releases, Cleared, FrameOver, Without, A.Cut, R.Unmaps;
    var t := Executed(s, plan);
    MS.ExecutedCore(s, ram, plan);
    BodySized(t, ram);
    MS.MemShape(s, ram);
    MS.MemShape(t, ram);
    ReleasedIsGone(plan, gone);
    assert plan[..|plan|] == plan;
    PlanReaches(s.mem, ram, plan, |plan|);
    L.ShapeOf(s.mem, ram, false);
    WindowsAre(t.mem, ram);
    forall p: nat | p < |s.mem.spaces| && p != who ensures |t.mem.spaces| == |s.mem.spaces| && Without(s.mem.spaces[p], t.mem.spaces[p], gone) {
      SpaceTaken(s.mem, t.mem, plan, gone, who, p);
    }
    SweptTakes(s, plan, gone);
  }

  lemma {:induction false} WindowsAre(m: M.Mem, ram: set<nat>)
    requires M.Sound(m, ram)
    ensures M.WindowsOk(m.regions, m.spaces)
  {
    hide M.Conserved, M.RegionsOk, M.RecordsOk, M.DevicesOk, M.DevicesShaped, M.ReachOk, M.OwnersOk, M.QuietOk;
  }

  lemma {:induction false} ReleasedIsGone(plan: seq<R.Step>, gone: iset<nat>)
    requires forall q: nat :: P.Releases(plan, q) <==> q in gone
    ensures ReleasedBy(plan, |plan|) == gone
  {
    assert plan[..|plan|] == plan;
  }

  lemma {:induction false} SweptTakes(s: State, plan: seq<R.Step>, gone: iset<nat>)
    requires Sized(s) && forall q: nat :: q in gone <==> R.ForgetCaps(q) in plan
    ensures AuthTook(s.auth, SweptBy(s.auth, plan, |plan|), gone)
  {
    hide SweptBy, A.Cut;
    assert plan[..|plan|] == plan;
    assert MS.Gone(plan, |plan|) == gone;
    SweptHist(s.auth, plan, |plan|);
    forall p: nat | p < |s.auth.spaces|
      ensures var a, b := s.auth, SweptBy(s.auth, plan, |plan|);
              && b.spaces[p].live == a.spaces[p].live && b.spaces[p].id == a.spaces[p].id && b.spaces[p].stamps == a.spaces[p].stamps
              && b.nextId == a.nextId && (a.spaces[p].live ==> A.Cut(a.spaces[p].caps, b.spaces[p].caps, gone))
    {
      MS.SweptByCaps(s.auth, plan, |plan|, p);
    }
    MS.SweptByCaps(s.auth, plan, |plan|, 0);
  }

  lemma {:induction false} SweptHist(a: A.Auth, steps: seq<R.Step>, n: nat)
    requires n <= |steps|
    ensures SweptBy(a, steps, n).hist == a.hist
  {
    hide A.SweptTo;
    if n > 0 { SweptHist(a, steps, n - 1); }
  }

  // ------------------------------------------------------------------- FREE_REGION

  /** FREE_REGION destroys exactly if the slot holds a capability, with WRITE, over a live region the caller
      itself owns; then exactly that region goes, from everybody. Otherwise it is refused. */
  ghost predicate FreeRegionContract(s: State, u: State, i: nat, cap: nat) {
    && i < |s.auth.spaces| && i < |s.mem.spaces| && i < |s.rv.ports|
    && var caps := Caps(s, i);
    if && Carries(caps, cap, RegionCap, WRITE)
       && exists k: nat :: IsRegion(s.mem.regions, k, caps[cap].obj) && s.mem.regions[k].owner == s.mem.spaces[i].id
    then
      && u == s.(mem := u.mem, auth := u.auth, rv := s.rv.(ports := s.rv.ports[i := s.rv.ports[i].(r0 := OK)]))
      && MemTook(s.mem, u.mem, iset{caps[cap].obj}, |s.mem.spaces|) && AuthTook(s.auth, u.auth, iset{caps[cap].obj})
    else OnlyTold(s, u, i, NO_CAP)
  }

  lemma {:induction false} FreeRegionDoes(s: State, ram: set<nat>, cap: nat, taken: bool)
    requires Inv(s, ram) && Enabled(s, Syscall(FreeRegion(cap), taken))
    ensures FreeRegionContract(s, Step(s, Syscall(FreeRegion(cap), taken)), s.current, cap)
  {
    hide Body, A.Sound, Sized, Step, Ended, FreeRegionContract, FreeRegionStep;
    EntryEnds(s, ram, FreeRegion(cap), taken);
    CallerReady(s, ram);
    RegionsApart(s, ram);
    FreeRegionTakes(s, ram, s.current, cap);
    RunsOn(s, ram, FreeRegionStep(s, s.current, cap), Step(s, Syscall(FreeRegion(cap), taken)));
  }

  lemma {:induction false} FreeRegionTakes(s: State, ram: set<nat>, i: nat, cap: nat)
    requires Core(s, ram) && Sized(s) && i < MAX_PROCS && Receptive(s, i) && M.RegionsOk(s.mem.regions, s.mem.nextRegion)
    ensures var t := FreeRegionStep(s, i, cap);
            && FreeRegionContract(s, t, i, cap)
            && t.run == s.run && t.mode == s.mode && t.current == s.current
            && i < |t.rv.ports| && t.rv.ports[i].pending == 0
  {
    hide Core, Contains, M.RegionAt, P.DestroyPlan, Executed, MemTook, AuthTook, PlanFor, M.RegionsOk;
    var caps := Caps(s, i);
    if Carries(caps, cap, RegionCap, WRITE) {
      var r := caps[cap].obj;
      var at := M.RegionAt(s.mem.regions, r);
      RegionFound(s.mem.regions, s.mem.nextRegion, r);
      if at < |s.mem.regions| {
        assert IsRegion(s.mem.regions, at, r);
        DestroyPlanFor(s, ram, r);
        PlanTakes(s, ram, P.DestroyPlan(s.mem, r), iset{r}, |s.mem.spaces|);
      }
    }
  }

  lemma {:induction false} DestroyPlanFor(s: State, ram: set<nat>, r: nat)
    requires Core(s, ram) && M.RegionAt(s.mem.regions, r) < |s.mem.regions|
    ensures PlanFor(s.mem, P.DestroyPlan(s.mem, r), iset{r}, |s.mem.spaces|)
  {
    hide A.Sound, Body, M.SoundBut, R.Phased, P.UnmapsHolders, R.DestroySteps, P.Releases, R.Holds, R.Exists;
    MS.MemShape(s, ram);
    var m, plan := s.mem, P.DestroyPlan(s.mem, r);
    P.DestroyPlanOk(m, ram, r);
    R.DestroyExact(P.RegionView(m.regions), P.HolderView(m.spaces), r);
    P.ViewFacts(m.regions, m.spaces);
    forall p: nat, k: nat | p < |m.spaces| && k < |m.spaces[p].shares| && R.Unmaps(plan, p, k) ensures m.spaces[p].shares[k] == r {
      var j :| 0 <= j < |plan| && plan[j].Unmap? && plan[j].proc == p && plan[j].slot == k;
      assert plan[j] in plan;
    }
  }

  // ------------------------------------------------------------------- EXIT

  ghost predicate OwnsLive(rs: seq<M.Region>, owner: nat, id: nat) {
    exists k :: 0 <= k < |rs| && rs[k].live && rs[k].id == id && rs[k].owner == owner
  }

  /** The live regions of this owner. */
  ghost function OwnedIds(rs: seq<M.Region>, owner: nat): iset<nat> {
    iset id: nat | OwnsLive(rs, owner, id)
  }

  /** A record of process `p` asks domain `domain` to reach frame `f`. */
  ghost predicate AskedFrame(m: M.Mem, p: nat, domain: nat, f: nat)
    requires p < |m.spaces|
  {
    domain != 0 && exists k :: 0 <= k < |m.spaces[p].dma| && m.spaces[p].dma[k].region != 0
                               && m.spaces[p].dma[k].domain == domain && f in M.FramesOf(m.regions, m.spaces[p].dma[k].region)
  }

  ghost function Asked(m: M.Mem, p: nat, domain: nat): iset<nat>
    requires p < |m.spaces|
  {
    iset f | AskedFrame(m, p, domain, f)
  }

  /** What a death takes from memory: the dying process's own frames and slots, the regions it owned, from
      everybody, and whatever it asked devices to reach. */
  ghost predicate MemDied(m: M.Mem, n: M.Mem, i: nat) {
    && i < |m.spaces| == |n.spaces| && |n.regions| == |m.regions| && |n.devs| == |m.devs| && n.nextRegion == m.nextRegion
    && var gone := OwnedIds(m.regions, m.spaces[i].id);
    && !n.spaces[i].live && n.spaces[i].frames == []
    && (forall k :: 0 <= k < |n.spaces[i].shares| ==> n.spaces[i].shares[k] == 0)
    && (forall k :: 0 <= k < |n.spaces[i].dma| ==> n.spaces[i].dma[k].region == 0)
    && (forall p :: 0 <= p < |m.spaces| && p != i ==> Without(m.spaces[p], n.spaces[p], gone))
    && (forall k :: 0 <= k < |m.regions| ==>
          n.regions[k] == if m.regions[k].live && m.regions[k].id in gone then M.NO_REGION else m.regions[k])
    && (forall d :: 0 <= d < |m.devs| ==>
          Cleared(m.devs[d], n.devs[d], Asked(m, i, m.devs[d].id) + FramesOver(m.regions, gone)))
    && forall f :: f in n.pool <==> f in m.pool || FrameOver(m.regions, gone, f) || f in m.spaces[i].frames
  }

  /** What it takes from authority: the dying process's own, and everybody's over its regions. */
  ghost predicate AuthDied(a: A.Auth, b: A.Auth, i: nat, gone: iset<nat>) {
    && i < |a.spaces| == |b.spaces| && !b.spaces[i].live && b.nextId == a.nextId && b.hist == a.hist
    && forall p :: 0 <= p < |a.spaces| && p != i ==>
         && b.spaces[p].live == a.spaces[p].live && b.spaces[p].id == a.spaces[p].id && b.spaces[p].stamps == a.spaces[p].stamps
         && (a.spaces[p].live ==> A.Cut(a.spaces[p].caps, b.spaces[p].caps, gone))
  }

  /** Somebody else than the dying `i` could answer `j`. */
  ghost predicate CouldAnswer(s: State, i: nat, j: nat, ep: nat, need: Rights)
    requires Sized(s)
  {
    exists k :: 0 <= k < MAX_PROCS && k != i && k != j && Live(s, k) && Holds(Caps(s, k), EndpointCap, ep, need)
  }

  /** A peer still waits, register for register, exactly if somebody could answer it, and is refused in
      exactly the registers its call returns if not; whoever did not wait in SEND or RECV is left alone. */
  ghost predicate PeerAfter(s: State, i: nat, j: nat, q: V.Port)
    requires Sized(s) && j < MAX_PROCS
  {
    var p := s.rv.ports[j];
    match p.state
    case BlockedSend(ep, _, _) => q == if CouldAnswer(s, i, j, ep, READ) then p else p.(state := V.Ready, r0 := NO_CAP)
    case BlockedRecv(ep, _, _) => q == if CouldAnswer(s, i, j, ep, WRITE) then p else p.(state := V.Ready, r0 := NO_CAP, r1 := 0, r2 := 0)
    case _ => q == p
  }

  ghost predicate ExitContract(s: State, u: State, i: nat) {
    && Sized(s) && i < MAX_PROCS && |u.rv.ports| == |s.rv.ports|
    && MemDied(s.mem, u.mem, i) && AuthDied(s.auth, u.auth, i, OwnedIds(s.mem.regions, s.mem.spaces[i].id))
    && u.own == s.own && u.fired == s.fired && u.rv.sends == s.rv.sends && u.rv.matches == s.rv.matches
    && u.rv.ports[i].state.Free?
    && forall j: nat :: j < MAX_PROCS && j != i && (!u.mode.Running? || j != u.current || s.rv.ports[j].pending == 0) ==>
         PeerAfter(s, i, j, u.rv.ports[j])
  }

  /** EXIT, and a fault: the caller is gone with all it had and owned, the peers nobody else can answer are
      told so, and nobody else is touched but for whoever runs next taking what it is owed. */
  lemma {:induction false} ExitDoes(s: State, ram: set<nat>, taken: bool)
    requires Inv(s, ram) && Enabled(s, Syscall(Exit, taken))
    ensures ExitContract(s, Step(s, Syscall(Exit, taken)), s.current)
  {
    hide Body, A.Sound, Sized, Step, MemDied, AuthDied, PeerAfter, ExitStep;
    EntryEnds(s, ram, Exit, taken);
    CallerReady(s, ram);
    BlockedOwedNothing(s, ram);
    ExitTakes(s, ram, s.current);
    var t, u := ExitStep(s, s.current), Step(s, Syscall(Exit, taken));
    forall j: nat | j < MAX_PROCS && j != s.current && (!u.mode.Running? || j != u.current || s.rv.ports[j].pending == 0)
      ensures PeerAfter(s, s.current, j, u.rv.ports[j])
    {
      PeerPending(s, s.current, j, t.rv.ports[j]);
    }
  }

  lemma {:induction false} PeerPending(s: State, i: nat, j: nat, q: V.Port)
    requires Sized(s) && j < MAX_PROCS && PeerAfter(s, i, j, q)
    ensures q.pending == s.rv.ports[j].pending
  {
    hide CouldAnswer;
  }

  lemma {:induction false} ExitTakes(s: State, ram: set<nat>, i: nat)
    requires Core(s, ram) && Sized(s) && i < MAX_PROCS && Receptive(s, i)
    requires forall p :: 0 <= p < |s.rv.ports| && !s.rv.ports[p].state.Ready? && !s.rv.ports[p].state.Free? ==> s.rv.ports[p].pending == 0
    ensures var t := ExitStep(s, i);
            && |t.rv.ports| == |s.rv.ports| && MemDied(s.mem, t.mem, i) && AuthDied(s.auth, t.auth, i, OwnedIds(s.mem.regions, s.mem.spaces[i].id))
            && t.own == s.own && t.fired == s.fired && t.rv.sends == s.rv.sends && t.rv.matches == s.rv.matches
            && t.rv.ports[i].state.Free?
            && forall j: nat :: j < MAX_PROCS && j != i ==> PeerAfter(s, i, j, t.rv.ports[j])
  {
    hide Core, Buried, MemDied, AuthDied, Sized, PeerAfter, WakeRefusedWhere, StrandedByDeath;
    LS.BuriedCore(s, ram, i);
    BuriedTakes(s, ram, i);
    var b := Buried(s, i);
    var wake := seq(MAX_PROCS, k requires 0 <= k < MAX_PROCS => StrandedByDeath(b, k));
    PortsSized(s);
    PortsSized(b);
    WakesOnly(b, wake, MAX_PROCS);
    FreeStays(b, i);
    E.WokenPort(b, wake, MAX_PROCS, i);
    forall j: nat | j < MAX_PROCS && j != i ensures PeerAfter(s, i, j, ExitStep(s, i).rv.ports[j]) {
      E.WokenPort(b, wake, MAX_PROCS, j);
      PeerWoken(s, b, i, j);
    }
  }

  lemma {:induction false} BuriedTakes(s: State, ram: set<nat>, i: nat)
    requires Core(s, ram) && Sized(s) && i < MAX_PROCS && Receptive(s, i)
    ensures var b := Buried(s, i);
            && MemDied(s.mem, b.mem, i) && AuthDied(s.auth, b.auth, i, OwnedIds(s.mem.regions, s.mem.spaces[i].id))
            && b.own == s.own && b.fired == s.fired
            && b.rv == s.rv.(ports := s.rv.ports[i := s.rv.ports[i].(state := V.Free)])
            && !Live(b, i) && forall k :: 0 <= k < MAX_PROCS && k != i ==> Live(b, k) == Live(s, k) == s.auth.spaces[k].live
  {
    hide Body, A.Sound, Sized, MemDied, AuthDied, MemTook, AuthTook, Executed, P.TeardownPlan, L.Withdrew, PlanFor, P.Vacated, A.Died, RecordsGo, P.Stripped, Apart;
    SlotSizes(s);
    var gone := OwnedIds(s.mem.regions, s.mem.spaces[i].id);
    MS.MemShape(s, ram);
    CoreApart(s, ram);
    assert AgreeAt(s, i);
    LS.WithdrewCore(s, ram, i);
    WithdrewGo(s.mem, i, P.EVERY_SLOT);
    var w := s.(mem := L.Withdrew(s.mem, i, P.EVERY_SLOT));
    TeardownPlanFor(s, w, ram, i);
    PlanTakes(w, ram, P.TeardownPlan(w.mem, i), gone, i);
    LS.DismantledCore(s, ram, i);
    var x := Executed(w, P.TeardownPlan(w.mem, i));
    MemBuried(s.mem, w.mem, x.mem, i, P.TeardownPlan(w.mem, i));
    AuthBuried(s.auth, x.auth, i, gone);
    forall k | 0 <= k < MAX_PROCS && k != i ensures Live(Buried(s, i), k) == Live(s, k) == s.auth.spaces[k].live { assert AgreeAt(s, k); }
  }

  lemma {:induction false} SlotSizes(s: State)
    requires Sized(s)
    ensures |s.mem.spaces| == |s.auth.spaces| == |s.rv.ports| == MAX_PROCS
    ensures forall p :: 0 <= p < MAX_PROCS ==> |s.mem.spaces[p].dma| == SHARE_SLOTS
  {}

  lemma {:induction false} CoreApart(s: State, ram: set<nat>)
    requires Core(s, ram)
    ensures Apart(s.mem.devs)
  {
    hide A.Sound, V.Sound, Coherent, Backed, M.WindowsOk, M.RecordsOk, M.DevicesOk, M.RegionsOk, M.ReachOk, M.QuietOk, M.Conserved, M.OwnersOk;
  }

  lemma {:induction false} AuthBuried(a: A.Auth, x: A.Auth, i: nat, gone: iset<nat>)
    requires AuthTook(a, x, gone) && i < |a.spaces|
    ensures AuthDied(a, A.Died(x, i), i, gone)
  {
    hide A.Cut;
  }

  /** A dying process's plan, drawn once its records are gone, is for exactly the regions it owns. */
  lemma {:induction false} TeardownPlanFor(s: State, w: State, ram: set<nat>, i: nat)
    requires Core(w, ram) && i < MAX_PROCS && |s.mem.spaces| == |w.mem.spaces| == MAX_PROCS && w.mem.spaces[i].live
    requires w.mem.regions == s.mem.regions && w.mem.spaces[i].id == s.mem.spaces[i].id
    ensures PlanFor(w.mem, P.TeardownPlan(w.mem, i), OwnedIds(s.mem.regions, s.mem.spaces[i].id), i)
  {
    hide A.Sound, Body, M.SoundBut, R.Phased, P.UnmapsHolders, R.TeardownSteps, P.Releases, R.Holds, R.Owned, R.DistinctIds, R.WellOrdered;
    var m, plan := w.mem, P.TeardownPlan(w.mem, i);
    var gone := OwnedIds(s.mem.regions, s.mem.spaces[i].id);
    MS.MemShape(w, ram);
    P.TeardownPlanOk(m, ram, i);
    P.ViewWidth(m, ram);
    R.TeardownExact(P.RegionView(m.regions), P.HolderView(m.spaces), i, m.spaces[i].id);
    P.ViewFacts(m.regions, m.spaces);
    RegionIds(m, ram);
    forall p: nat, k: nat | p < |m.spaces| && p != i && k < |m.spaces[p].shares| && R.Unmaps(plan, p, k) ensures m.spaces[p].shares[k] in gone {
      var j :| 0 <= j < |plan| && plan[j].Unmap? && plan[j].proc == p && plan[j].slot == k;
      assert plan[j] in plan;
    }
  }

  lemma {:induction false} RegionIds(m: M.Mem, ram: set<nat>)
    requires M.Sound(m, ram)
    ensures forall k :: 0 <= k < |m.regions| && m.regions[k].live ==> m.regions[k].id > 0
  {
    hide M.Conserved, M.WindowsOk, M.RecordsOk, M.DevicesOk, M.DevicesShaped, M.ReachOk, M.OwnersOk, M.QuietOk;
  }

  lemma {:induction false} MemBuried(m: M.Mem, w: M.Mem, x: M.Mem, i: nat, plan: seq<R.Step>)
    requires i < |m.spaces| && |m.spaces[i].dma| == SHARE_SLOTS
    requires RecordsGo(m, w) && L.RecordsCleared(m, w, i, P.EVERY_SLOT, SHARE_SLOTS)
    requires MemTook(w, x, OwnedIds(m.regions, m.spaces[i].id), i) && P.After(w, x, plan) && P.Stripped(x, i)
    ensures i < |x.spaces| && MemDied(m, P.Vacated(x, i), i)
  {
    hide Cleared, LostFrames, Asked, FrameOver, FramesOver, Without, P.Releases, R.Unmaps;
    var gone := OwnedIds(m.regions, m.spaces[i].id);
    AllLost(m, w, i);
    assert P.SpaceAfter(w.spaces[i], x.spaces[i], i, plan);
    forall d | 0 <= d < |m.devs| ensures Cleared(m.devs[d], x.devs[d], Asked(m, i, m.devs[d].id) + FramesOver(m.regions, gone)) {
      ClearedTwice(m.devs[d], w.devs[d], x.devs[d], LostFrames(m, w, m.devs[d].id), FramesOver(m.regions, gone));
    }
  }

  lemma {:induction false} AllLost(m: M.Mem, w: M.Mem, i: nat)
    requires i < |m.spaces| && |m.spaces[i].dma| == SHARE_SLOTS && L.RecordsCleared(m, w, i, P.EVERY_SLOT, SHARE_SLOTS)
    ensures forall domain: nat :: LostFrames(m, w, domain) == Asked(m, i, domain)
  {
    hide M.FramesOf;
    forall domain: nat, f ensures LostFrame(m, w, domain, f) <==> AskedFrame(m, i, domain, f) {
      if AskedFrame(m, i, domain, f) {
        var k :| 0 <= k < |m.spaces[i].dma| && m.spaces[i].dma[k].region != 0
                 && m.spaces[i].dma[k].domain == domain && f in M.FramesOf(m.regions, m.spaces[i].dma[k].region);
        assert RecordLost(m.spaces[i].dma, w.spaces[i].dma, k);
      }
    }
  }

  lemma {:induction false} PortsSized(s: State)
    requires Sized(s)
    ensures |s.rv.ports| == |s.auth.spaces| == |s.mem.spaces| == MAX_PROCS
  {}

  lemma {:induction false} FreeStays(b: State, i: nat)
    requires Sized(b) && i < MAX_PROCS && b.rv.ports[i].state.Free?
    ensures !StrandedByDeath(b, i)
  {}

  lemma {:induction false} WakesOnly(s: State, wake: seq<bool>, n: nat)
    requires n <= |wake| <= |s.rv.ports|
    ensures var t := WakeRefusedWhere(s, wake, n);
            t == s.(rv := s.rv.(ports := t.rv.ports), run := t.run) && |t.rv.ports| == |s.rv.ports|
  {
    if n > 0 { WakesOnly(s, wake, n - 1); }
  }

  /** Who could answer in the state after the burial is who could have before, but for the dead. */
  lemma {:induction false} PeerWoken(s: State, b: State, i: nat, j: nat)
    requires Sized(s) && Sized(b) && i < MAX_PROCS && j < MAX_PROCS && j != i && b.rv.ports[j] == s.rv.ports[j]
    requires !s.rv.ports[j].state.Ready? && !s.rv.ports[j].state.Free? ==> s.rv.ports[j].pending == 0
    requires forall k :: 0 <= k < MAX_PROCS && k != i ==> Live(b, k) == Live(s, k) == s.auth.spaces[k].live
    requires !Live(b, i)
    requires exists gone :: AuthDied(s.auth, b.auth, i, gone)
    ensures var p := s.rv.ports[j];
            var woken := (if p.state.BlockedRecv? then p.(r0 := NO_CAP, r1 := 0, r2 := 0) else p.(r0 := NO_CAP)).(state := V.Ready, pending := 0);
            PeerAfter(s, i, j, if StrandedByDeath(b, j) then woken else p)
  {
    hide Holds, A.Cut;
    var gone :| AuthDied(s.auth, b.auth, i, gone);
    forall ep: nat, need ensures Answerable(b, j, ep, need) <==> CouldAnswer(s, i, j, ep, need) { SameAnswerers(s, b, i, j, ep, need, gone); }
  }

  lemma {:induction false} SameAnswerers(s: State, b: State, i: nat, j: nat, ep: nat, need: Rights, gone: iset<nat>)
    requires Sized(s) && Sized(b) && i < MAX_PROCS && AuthDied(s.auth, b.auth, i, gone) && !Live(b, i)
    requires forall k :: 0 <= k < MAX_PROCS && k != i ==> Live(b, k) == Live(s, k) == s.auth.spaces[k].live
    ensures Answerable(b, j, ep, need) <==> CouldAnswer(s, i, j, ep, need)
  {
    hide Holds, A.Cut, Sized;
    PortsSized(s);
    PortsSized(b);
    forall k | 0 <= k < MAX_PROCS && k != i && Live(s, k)
      ensures Holds(Caps(b, k), EndpointCap, ep, need) <==> Holds(Caps(s, k), EndpointCap, ep, need)
    {
      A.CutHolds(Caps(s, k), Caps(b, k), gone, EndpointCap, ep, need);
    }
  }

  // ------------------------------------------------------------------- what a waiting sender is told

  /** One of the matches made from `s` to `u` is of this send. */
  ghost predicate MatchedNow(s: State, u: State, tag: nat) {
    exists m :: |s.rv.matches| <= m < |u.rv.matches| && u.rv.matches[m].send == tag
  }

  /** If `j` was waiting with a send: taken now, it is ready and told OK; not taken, it waits on, or is ready
      and told NO_CAP. */
  ghost predicate SenderTold(s: State, u: State, j: nat) {
    && j < |s.rv.ports| == |u.rv.ports|
    && var p, q := s.rv.ports[j], u.rv.ports[j];
    p.state.BlockedSend? ==>
      if MatchedNow(s, u, p.tag) then q == p.(state := V.Ready, r0 := OK) else q == p || q == p.(state := V.Ready, r0 := NO_CAP)
  }

  /** Over any entry. */
  lemma {:induction false} SenderIsTold(s: State, ram: set<nat>, e: Event, j: nat)
    requires Inv(s, ram) && Enabled(s, e) && j < MAX_PROCS
    ensures SenderTold(s, Step(s, e), j)
  {
    hide Inv, Sized, Step, SenderTold, Feasible;
    InvSized(s, ram);
    PortsSized(s);
    BlockedOwedNothing(s, ram);
    match e
    case Syscall(call, taken) => CallTells(s, ram, call, taken, j);
    case Interrupt(line, taken) => InterruptTells(s, ram, line, taken, j);
    case UnitCaches(d, slot) => UnitTells(s, d, slot, j);
  }

  lemma {:induction false} UnitTells(s: State, d: nat, slot: nat, j: nat)
    requires Sized(s) && j < |s.rv.ports|
    ensures SenderTold(s, Step(s, UnitCaches(d, slot)), j)
  {}

  lemma {:induction false} InterruptTells(s: State, ram: set<nat>, line: nat, taken: bool, j: nat)
    requires Inv(s, ram) && Enabled(s, Interrupt(line, taken)) && j < |s.rv.ports| == MAX_PROCS
    requires s.rv.ports[j].state.BlockedSend? ==> s.rv.ports[j].pending == 0
    ensures SenderTold(s, Step(s, Interrupt(line, taken)), j)
  {
    hide Inv, Sized, Step, Holds;
    var t := InterruptDoes(s, ram, line, taken);
    PortsSized(t);
    assert LineCredited(s, t, line, j);
  }

  lemma {:induction false} CallTells(s: State, ram: set<nat>, call: Call, taken: bool, j: nat)
    requires Inv(s, ram) && Enabled(s, Syscall(call, taken)) && j < |s.rv.ports| == MAX_PROCS
    requires s.rv.ports[j].state.BlockedSend? ==> s.rv.ports[j].pending == 0
    ensures SenderTold(s, Step(s, Syscall(call, taken)), j)
  {
    hide Inv, Sized, Step, SenderTold, Feasible, SendContract, RecvContract, ExitContract, RevokeContract, Service, Ended, Y.Still;
    var u := Step(s, Syscall(call, taken));
    CallerReady(s, ram);
    Tags(s, ram, j);
    if call.Send? {
      SendDoes(s, ram, call.cap, call.word, call.len, call.mem, taken);
      SendTells(s, u, call.cap, call.word, call.len, call.mem, j);
    } else if call.Recv? {
      RecvDoes(s, ram, call.cap, call.dst, call.max, call.writable, call.copied, taken);
      RecvTells(s, u, call.cap, call.dst, call.max, call.writable, call.copied, j);
    } else if call.Exit? {
      ExitDoes(s, ram, taken);
      ExitTells(s, u, j);
    } else if call.Revoke? {
      RevokeDoes(s, ram, call.cap, call.order, taken);
      RevokeTells(s, u, call.cap, call.order, j);
    } else {
      EntryEnds(s, ram, call, taken);
      Y.ServiceStill(s, call);
      StillTells(s, Service(s, s.current, call), u, j);
    }
  }

  /** A waiting sender is not the caller, and its send is its own. */
  lemma {:induction false} Tags(s: State, ram: set<nat>, j: nat)
    requires Inv(s, ram) && j < |s.rv.ports|
    ensures s.rv.ports[j].state.BlockedSend? ==>
              && s.rv.ports[j].tag < |s.rv.sends|
              && forall q :: 0 <= q < |s.rv.ports| && q != j && s.rv.ports[q].state.BlockedSend? ==> s.rv.ports[q].tag != s.rv.ports[j].tag
  {
    hide M.SoundBut, A.Sound, V.MatchesOk, V.ReceiptsOk, V.OneSided, V.Answered, V.OwedOk, Coherent, Backed;
    assert V.PortOk(s.rv.ports[j], s.rv.sends, s.rv.matches, s.rv.receipts);
  }

  lemma {:induction false} SendTells(s: State, u: State, cap: nat, word: nat, len: nat, mem: seq<nat>, j: nat)
    requires SendContract(s, u, s.current, cap, word, len, mem) && s.current < |s.rv.ports| && s.rv.ports[s.current].state.Ready?
    requires j < |s.rv.ports| && (s.rv.ports[j].state.BlockedSend? ==> s.rv.ports[j].tag < |s.rv.sends| && s.rv.ports[j].pending == 0)
    ensures SenderTold(s, u, j)
  {
    hide Contains;
    var ep := if cap < |Caps(s, s.current)| then Caps(s, s.current)[cap].obj else 0;
    var r := V.FindRecv(s.rv.ports, ep);
    if r < |s.rv.ports| { assert FirstReceiver(s.rv.ports, ep, r); } else { assert NobodyReceives(s.rv.ports, ep); }
  }

  lemma {:induction false} RecvTells(s: State, u: State, cap: nat, dst: nat, want: nat, writable: bool, copied: bool, j: nat)
    requires RecvContract(s, u, s.current, cap, dst, want, writable, copied) && s.current < |s.rv.ports| && s.rv.ports[s.current].state.Ready?
    requires j < |s.rv.ports| && (s.rv.ports[j].state.BlockedSend? ==> s.rv.ports[j].pending == 0)
    requires s.rv.ports[j].state.BlockedSend? ==>
               forall q :: 0 <= q < |s.rv.ports| && q != j && s.rv.ports[q].state.BlockedSend? ==> s.rv.ports[q].tag != s.rv.ports[j].tag
    ensures SenderTold(s, u, j)
  {
    hide Contains;
    var ep := if cap < |Caps(s, s.current)| then Caps(s, s.current)[cap].obj else 0;
    var q := V.FindSend(s.rv.ports, ep);
    if q < |s.rv.ports| { assert FirstSender(s.rv.ports, ep, q); } else { assert NobodySends(s.rv.ports, ep); }
    if |u.rv.matches| > |s.rv.matches| { assert u.rv.matches[|s.rv.matches|].send == s.rv.ports[q].tag; }
  }

  lemma {:induction false} ExitTells(s: State, u: State, j: nat)
    requires ExitContract(s, u, s.current) && s.current < |s.rv.ports| && s.rv.ports[s.current].state.Ready?
    requires j < |s.rv.ports| == MAX_PROCS && (s.rv.ports[j].state.BlockedSend? ==> s.rv.ports[j].pending == 0)
    ensures SenderTold(s, u, j)
  {
    hide MemDied, AuthDied, CouldAnswer, Sized;
    assert s.rv.ports[j].state.BlockedSend? ==> PeerAfter(s, s.current, j, u.rv.ports[j]);
  }

  lemma {:induction false} RevokeTells(s: State, u: State, cap: nat, order: seq<Endpoint>, j: nat)
    requires RevokeContract(s, u, s.current, cap, order) && s.current < |s.rv.ports| && s.rv.ports[s.current].state.Ready?
    requires j < |s.rv.ports| == MAX_PROCS
    ensures SenderTold(s, u, j)
  {
    hide RecordsGo, SpaceBacked, OwnBacked, Holds, Untouched;
  }

  lemma {:induction false} StillTells(s: State, t: State, u: State, j: nat)
    requires Y.Still(s.rv, t.rv) && Ended(t, u) && j < |s.rv.ports|
    requires s.rv.ports[j].state.BlockedSend? ==> s.rv.ports[j].pending == 0
    ensures SenderTold(s, u, j)
  {}
}
