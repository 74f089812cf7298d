/** Carrying out a region plan: what holds after every step of it, and what it leaves behind. */
module Plans {
  import opened Abi
  import opened Seqs
  import opened Dma
  import opened Memory
  import opened Lifetime
  import R = Regions

  // ------------------------------------------------------------------- what a plan is drawn from

  function RegionView(rs: seq<Region>): (v: seq<R.Region>)
    ensures |v| == |rs|
  {
    seq(|rs|, i requires 0 <= i < |rs| =>
      if rs[i].live then R.Region(true, rs[i].id, rs[i].owner) else R.Region(false, 0, 0))
  }

  function HolderView(ss: seq<Space>): (v: seq<R.Holder>)
    ensures |v| == |ss|
  {
    seq(|ss|, p requires 0 <= p < |ss| =>
      if ss[p].live then R.Holder(true, ss[p].id, ss[p].shares) else R.Holder(false, 0, seq(SHARE_SLOTS, _ => 0)))
  }

  lemma {:induction false} ViewFacts(rs: seq<Region>, ss: seq<Space>)
    ensures DistinctIds(rs) ==> R.DistinctIds(RegionView(rs))
    ensures forall id, owner :: id != 0 ==>
              (R.Owned(RegionView(rs), id, owner) <==>
               exists i :: 0 <= i < |rs| && rs[i].live && rs[i].id == id && rs[i].owner == owner)
    ensures forall id :: id != 0 ==> (R.Exists(RegionView(rs), id) <==> RegionAt(rs, id) < |rs|)
    ensures forall p: nat, k: nat, r: nat :: R.Holds(HolderView(ss), p, k, r) <==>
              p < |ss| && ss[p].live && k < |ss[p].shares| && ss[p].shares[k] == r != 0
  {
    var v := RegionView(rs);
    forall id, owner | id != 0
      ensures R.Owned(v, id, owner) <==> exists i :: 0 <= i < |rs| && rs[i].live && rs[i].id == id && rs[i].owner == owner
    {
      if R.Owned(v, id, owner) {
        var i :| 0 <= i < |v| && v[i].live && v[i].id == id && v[i].owner == owner;
        assert rs[i].live && rs[i].id == id;
      }
      if i :| 0 <= i < |rs| && rs[i].live && rs[i].id == id && rs[i].owner == owner {
        assert v[i].live && v[i].id == id && v[i].owner == owner;
      }
    }
    forall id | id != 0 ensures R.Exists(v, id) <==> RegionAt(rs, id) < |rs| {
      if R.Exists(v, id) {
        var i :| 0 <= i < |v| && v[i].live && v[i].id == id;
        assert rs[i].live && rs[i].id == id;
      }
      var j := RegionAt(rs, id);
      if j < |rs| { assert v[j].live && v[j].id == id; }
    }
  }

  // ------------------------------------------------------------------- one step, and a run

  /** What one step does to memory. Sweeping capabilities is not memory's business. */
  function Exec(m: Mem, x: R.Step): (n: Mem)
    ensures |n.spaces| == |m.spaces|
  {
    match x
    case Unmap(p, k, _) => DropShare(m, p, k)
    case ForgetCaps(_) => m
    case Release(r) => Released(m, r)
  }

  function RunPlan(m: Mem, steps: seq<R.Step>): (n: Mem)
    ensures |n.spaces| == |m.spaces|
  {
    if steps == [] then m else Exec(RunPlan(m, steps[..|steps| - 1]), steps[|steps| - 1])
  }

  predicate Releases(steps: seq<R.Step>, r: nat) {
    R.Release(r) in steps
  }

  /** Wherever a plan releases a region, it also unmaps every slot that shows it. */
  ghost predicate UnmapsHolders(m: Mem, steps: seq<R.Step>) {
    forall p: nat, k: nat ::
      p < |m.spaces| && k < |m.spaces[p].shares| && m.spaces[p].shares[k] != 0 && Releases(steps, m.spaces[p].shares[k])
      ==> R.Unmap(p, k, m.spaces[p].shares[k]) in steps
  }

  /** What is left of a process after part of a plan. */
  ghost predicate SpaceAfter(sp: Space, tp: Space, p: nat, steps: seq<R.Step>) {
    && tp.live == sp.live && tp.id == sp.id && tp.frames == sp.frames
    && |tp.shares| == |sp.shares| && |tp.windows| == |sp.windows| && |tp.dma| == |sp.dma|
    && (forall k :: 0 <= k < |sp.shares| ==>
          tp.shares[k] == if R.Unmaps(steps, p, k) then 0 else sp.shares[k])
    && (forall k :: 0 <= k < |sp.shares| && k < |sp.windows| && tp.shares[k] == sp.shares[k] != 0 ==>
          tp.windows[k] == sp.windows[k])
    && (forall k :: 0 <= k < |sp.dma| ==>
          tp.dma[k] == if sp.dma[k].region != 0 && Releases(steps, sp.dma[k].region) then NO_RECORD else sp.dma[k])
  }

  /** What is left of the tables after part of a plan. */
  ghost predicate After(m: Mem, n: Mem, steps: seq<R.Step>) {
    && |n.spaces| == |m.spaces| && |n.regions| == |m.regions| && n.nextRegion == m.nextRegion
    && (forall p :: 0 <= p < |m.spaces| ==> SpaceAfter(m.spaces[p], n.spaces[p], p, steps))
    && (forall i :: 0 <= i < |m.regions| ==>
          n.regions[i] == if m.regions[i].live && Releases(steps, m.regions[i].id) then NO_REGION else m.regions[i])
  }

  // ------------------------------------------------------------------- every step keeps the invariant

  lemma {:induction false} PrefixUnmaps(steps: seq<R.Step>, k: nat, p: nat, s: nat)
    requires k < |steps|
    ensures R.Unmaps(steps[..k + 1], p, s) <==>
            R.Unmaps(steps[..k], p, s) || (steps[k].Unmap? && steps[k].proc == p && steps[k].slot == s)
    ensures forall r :: Releases(steps[..k + 1], r) <==> Releases(steps[..k], r) || steps[k] == R.Release(r)
  {
    var a, b := steps[..k], steps[..k + 1];
    assert b == a + [steps[k]];
    if R.Unmaps(b, p, s) {
      var i :| 0 <= i < |b| && b[i].Unmap? && b[i].proc == p && b[i].slot == s;
      if i < k { assert a[i] == b[i]; }
    }
    if R.Unmaps(a, p, s) {
      var i :| 0 <= i < |a| && a[i].Unmap? && a[i].proc == p && a[i].slot == s;
      assert b[i] == a[i];
    }
    if steps[k].Unmap? && steps[k].proc == p && steps[k].slot == s { assert b[k] == steps[k]; }
  }

  /** When a plan comes to release a region, nothing shows it any more. */
  lemma {:induction false} NothingShows(m: Mem, n: Mem, steps: seq<R.Step>, k: nat)
    requires k < |steps| && steps[k].Release? && steps[k].region != 0
    requires R.Phased(steps) && UnmapsHolders(m, steps) && After(m, n, steps[..k])
    ensures Unshared(n, steps[k].region)
  {
    var r := steps[k].region;
    forall p, s | 0 <= p < |n.spaces| && 0 <= s < |n.spaces[p].shares| ensures n.spaces[p].shares[s] != r {
      if n.spaces[p].shares[s] == r {
        assert SpaceAfter(m.spaces[p], n.spaces[p], p, steps[..k]);
        assert m.spaces[p].shares[s] == r;
        assert R.Release(r) in steps;
        var j :| 0 <= j < |steps| && steps[j] == R.Unmap(p, s, r);
        Unmapped(steps, j, k, p, s);
      }
    }
  }

  lemma {:induction false} Unmapped(steps: seq<R.Step>, j: nat, k: nat, p: nat, s: nat)
    requires R.Phased(steps) && k < |steps| && steps[k].Release?
    requires j < |steps| && steps[j] == R.Unmap(p, s, steps[k].region)
    ensures R.Unmaps(steps[..k], p, s)
  {
    assert j < k;
    assert steps[..k][j] == steps[j];
  }

  lemma {:induction false} DropShareAfter(sp: Space, tp: Space, up: Space, p: nat, steps: seq<R.Step>, k: nat)
    requires k < |steps| && steps[k].Unmap? && SpaceAfter(sp, tp, p, steps[..k])
    requires |tp.shares| == |tp.windows|
    requires up == if steps[k].proc == p && steps[k].slot < |tp.shares| && tp.shares[steps[k].slot] != 0
                   then tp.(shares := tp.shares[steps[k].slot := 0], windows := tp.windows[steps[k].slot := NO_WINDOW])
                   else tp
    ensures SpaceAfter(sp, up, p, steps[..k + 1])
  {
    hide Releases, R.Unmaps;
    forall s: nat ensures R.Unmaps(steps[..k + 1], p, s) <==>
          R.Unmaps(steps[..k], p, s) || (steps[k].proc == p && steps[k].slot == s) {
      PrefixUnmaps(steps, k, p, s);
    }
    PrefixUnmaps(steps, k, p, 0);
  }

  lemma {:induction false} OtherAfter(sp: Space, tp: Space, up: Space, p: nat, steps: seq<R.Step>, k: nat)
    requires k < |steps| && !steps[k].Unmap? && SpaceAfter(sp, tp, p, steps[..k])
    requires if steps[k].Release? && steps[k].region != 0 then up == Unrecorded(tp, steps[k].region) else up == tp
    requires !tp.live ==> forall j :: 0 <= j < |tp.dma| ==> tp.dma[j].region == 0
    ensures SpaceAfter(sp, up, p, steps[..k + 1])
  {
    hide Releases, R.Unmaps;
    forall s: nat ensures R.Unmaps(steps[..k + 1], p, s) <==> R.Unmaps(steps[..k], p, s) {
      PrefixUnmaps(steps, k, p, s);
    }
    PrefixUnmaps(steps, k, p, 0);
    forall j | 0 <= j < |sp.dma|
      ensures up.dma[j] == if sp.dma[j].region != 0 && Releases(steps[..k + 1], sp.dma[j].region) then NO_RECORD else sp.dma[j]
    {
      assert tp.dma[j] == if sp.dma[j].region != 0 && Releases(steps[..k], sp.dma[j].region) then NO_RECORD else sp.dma[j];
    }
  }

  /** Where a region is not live, no record names it, so forgetting its records changes nothing. */
  lemma {:induction false} NothingRecorded(n: Mem, ram: set<nat>, r: nat)
    requires Sound(n, ram) && RegionAt(n.regions, r) == |n.regions|
    ensures forall p :: 0 <= p < |n.spaces| && r != 0 ==> Unrecorded(n.spaces[p], r) == n.spaces[p]
  {
    hide DeviceOk, Conserved, WindowsOk, OwnersOk, ReachOk, DevicesOk, DevicesShaped, RegionAt;
    forall p | 0 <= p < |n.spaces| && r != 0 ensures Unrecorded(n.spaces[p], r) == n.spaces[p] {
      assert Unrecorded(n.spaces[p], r).dma == n.spaces[p].dma;
    }
  }

  lemma {:induction false} ExecAfter(m: Mem, n: Mem, ram: set<nat>, steps: seq<R.Step>, k: nat)
    requires Sound(n, ram) && k < |steps| && After(m, n, steps[..k])
    ensures After(m, Exec(n, steps[k]), steps[..k + 1])
  {
    hide SoundBut, Unreached, Releases, R.Unmaps, SpaceAfter, RegionAt;
    var o := Exec(n, steps[k]);
    ShapeOf(n, ram, false);
    forall p | 0 <= p < |m.spaces| ensures SpaceAfter(m.spaces[p], o.spaces[p], p, steps[..k + 1]) {
      if steps[k].Unmap? {
        DropShareAfter(m.spaces[p], n.spaces[p], o.spaces[p], p, steps, k);
      } else {
        Quiet(n, ram);
        if steps[k].Release? && RegionAt(n.regions, steps[k].region) == |n.regions| { NothingRecorded(n, ram, steps[k].region); }
        if steps[k].Release? { RegionZero(n.regions); }
        OtherAfter(m.spaces[p], n.spaces[p], o.spaces[p], p, steps, k);
      }
    }
    PrefixUnmaps(steps, k, 0, 0);
    forall i | 0 <= i < |m.regions|
      ensures o.regions[i] == if m.regions[i].live && Releases(steps[..k + 1], m.regions[i].id) then NO_REGION else m.regions[i]
    {
      RegionStep(n, steps[k], i);
    }
  }

  lemma {:induction false} RegionStep(n: Mem, x: R.Step, i: nat)
    requires RegionsOk(n.regions, n.nextRegion) && i < |n.regions|
    ensures Exec(n, x).regions[i] == if n.regions[i].live && x == R.Release(n.regions[i].id) then NO_REGION else n.regions[i]
  {
    hide Unreached;
    if n.regions[i].live && x == R.Release(n.regions[i].id) { RegionAtIs(n.regions, i); }
  }

  lemma {:induction false} Quiet(n: Mem, ram: set<nat>)
    requires Sound(n, ram)
    ensures forall p, j :: 0 <= p < |n.spaces| && !n.spaces[p].live && 0 <= j < |n.spaces[p].dma| ==> n.spaces[p].dma[j].region == 0
  {
    hide DeviceOk, Conserved, WindowsOk, OwnersOk, ReachOk, DevicesOk, DevicesShaped, RegionAt;
  }

  lemma {:induction false} ExecSound(m: Mem, n: Mem, ram: set<nat>, steps: seq<R.Step>, k: nat)
    requires Sound(m, ram) && Sound(n, ram) && k < |steps| && After(m, n, steps[..k])
    requires R.Phased(steps) && UnmapsHolders(m, steps) && R.Release(0) !in steps
    ensures Sound(Exec(n, steps[k]), ram)
  {
    hide SoundBut, After, R.Phased, UnmapsHolders, Unshared;
    match steps[k]
    case Unmap(p, s, _) => DropShareSound(n, ram, false, p, s);
    case ForgetCaps(_) =>
    case Release(r) =>
      NothingShows(m, n, steps, k);
      ReleasedSound(n, ram, r);
  }

  lemma {:induction false} StartAfter(m: Mem)
    ensures After(m, m, [])
  {}

  /** After every step of a plan whose order and contents are right, memory is sound: in particular
      no frame in the pool is named by a window, a table entry or a cached translation. */
  lemma {:induction false} EveryStepSound(m: Mem, ram: set<nat>, steps: seq<R.Step>, k: nat)
    requires Sound(m, ram) && k <= |steps|
    requires R.Phased(steps) && UnmapsHolders(m, steps) && R.Release(0) !in steps
    ensures Sound(RunPlan(m, steps[..k]), ram) && After(m, RunPlan(m, steps[..k]), steps[..k])
    ensures NoFreeFrameNamed(RunPlan(m, steps[..k]))
  {
    hide SoundBut, After, R.Phased, UnmapsHolders, Exec, NoFreeFrameNamed;
    if k == 0 {
      assert steps[..0] == [];
      StartAfter(m);
    } else {
      EveryStepSound(m, ram, steps, k - 1);
      assert steps[..k][..k - 1] == steps[..k - 1];
      var n := RunPlan(m, steps[..k - 1]);
      ExecAfter(m, n, ram, steps, k - 1);
      ExecSound(m, n, ram, steps, k - 1);
    }
    SoundMeansUnreachable(RunPlan(m, steps[..k]), ram);
  }

  // ------------------------------------------------------------------- the two plans

  /** The plan that destroys region `r`. */
  function DestroyPlan(m: Mem, r: nat): seq<R.Step> {
    R.DestroySteps(RegionView(m.regions), HolderView(m.spaces), r)
  }

  /** The plan for process `p` going away. */
  function TeardownPlan(m: Mem, p: nat): seq<R.Step>
    requires p < |m.spaces|
  {
    R.TeardownSteps(RegionView(m.regions), HolderView(m.spaces), p, m.spaces[p].id)
  }

  ghost predicate PlanOk(m: Mem, steps: seq<R.Step>) {
    R.Phased(steps) && UnmapsHolders(m, steps) && R.Release(0) !in steps
  }

  lemma {:induction false} SharesOnlyLive(m: Mem, ram: set<nat>, p: nat, k: nat)
    requires Sound(m, ram) && p < |m.spaces| && k < |m.spaces[p].shares| && m.spaces[p].shares[k] != 0
    ensures m.spaces[p].live
  {
    hide DeviceOk, Conserved, WindowsOk, RecordsOk, OwnersOk, ReachOk, DevicesOk, DevicesShaped;
  }

  lemma {:induction false} DestroyPlanOk(m: Mem, ram: set<nat>, r: nat)
    requires Sound(m, ram)
    ensures PlanOk(m, DestroyPlan(m, r))
    ensures forall q: nat :: Releases(DestroyPlan(m, r), q) <==>
              R.ForgetCaps(q) in DestroyPlan(m, r)
    ensures forall q: nat :: Releases(DestroyPlan(m, r), q) <==> q == r && RegionAt(m.regions, r) < |m.regions|
    ensures |DestroyPlan(m, r)| <= PLAN_STEPS
  {
    hide SoundBut, R.Phased, R.Holds, R.Exists, R.DestroySteps, RegionAt;
    var rs, hs := RegionView(m.regions), HolderView(m.spaces);
    R.DestroyExact(rs, hs, r);
    ViewFacts(m.regions, m.spaces);
    ViewWidth(m, ram);
    R.DestroyFits(rs, hs, SHARE_SLOTS, r);
    forall p: nat, k: nat | p < |m.spaces| && k < |m.spaces[p].shares| && m.spaces[p].shares[k] != 0
                  && Releases(DestroyPlan(m, r), m.spaces[p].shares[k])
      ensures R.Unmap(p, k, m.spaces[p].shares[k]) in DestroyPlan(m, r)
    {
      SharesOnlyLive(m, ram, p, k);
      assert R.Holds(hs, p, k, m.spaces[p].shares[k]);
    }
    RegionZero(m.regions);
  }

  lemma {:induction false} RegionZero(rs: seq<Region>)
    ensures RegionAt(rs, 0) == |rs|
  {}

  lemma {:induction false} ViewWidth(m: Mem, ram: set<nat>)
    requires Sound(m, ram)
    ensures |RegionView(m.regions)| == MAX_REGIONS && |HolderView(m.spaces)| == MAX_PROCS
    ensures forall p :: 0 <= p < |HolderView(m.spaces)| ==> |HolderView(m.spaces)[p].slots| == SHARE_SLOTS
    ensures R.DistinctIds(RegionView(m.regions))
  {
    hide DeviceOk, Conserved, WindowsOk, RecordsOk, OwnersOk, ReachOk, DevicesOk, DevicesShaped;
  }

  lemma {:induction false} TeardownPlanOk(m: Mem, ram: set<nat>, p: nat)
    requires Sound(m, ram) && p < |m.spaces| && m.spaces[p].live
    ensures PlanOk(m, TeardownPlan(m, p))
    ensures forall q: nat :: Releases(TeardownPlan(m, p), q) <==> R.ForgetCaps(q) in TeardownPlan(m, p)
    ensures forall q: nat :: Releases(TeardownPlan(m, p), q) <==>
              q != 0 && exists i :: 0 <= i < |m.regions| && m.regions[i].live && m.regions[i].id == q && m.regions[i].owner == m.spaces[p].id
    ensures forall k: nat :: k < |m.spaces[p].shares| && m.spaces[p].shares[k] != 0 ==> R.Unmaps(TeardownPlan(m, p), p, k)
    ensures |TeardownPlan(m, p)| <= PLAN_STEPS
  {
    hide SoundBut, R.Phased, R.Holds, R.Owned, R.TeardownSteps, R.DistinctIds, R.WellOrdered;
    var rs, hs, id := RegionView(m.regions), HolderView(m.spaces), m.spaces[p].id;
    var steps := TeardownPlan(m, p);
    ViewWidth(m, ram);
    R.TeardownExact(rs, hs, p, id);
    R.TeardownFits(rs, hs, SHARE_SLOTS, p, id);
    ViewFacts(m.regions, m.spaces);
    forall q: nat, k: nat | q < |m.spaces| && k < |m.spaces[q].shares| && m.spaces[q].shares[k] != 0
                  && Releases(steps, m.spaces[q].shares[k])
      ensures R.Unmap(q, k, m.spaces[q].shares[k]) in steps
    {
      SharesOnlyLive(m, ram, q, k);
      assert R.Holds(hs, q, k, m.spaces[q].shares[k]);
      assert R.Wanted(rs, hs, p, id, R.Release(m.spaces[q].shares[k]));
    }
    forall k: nat | k < |m.spaces[p].shares| && m.spaces[p].shares[k] != 0 ensures R.Unmaps(steps, p, k) {
      var r := m.spaces[p].shares[k];
      assert R.Holds(hs, p, k, r);
      assert R.Wanted(rs, hs, p, id, R.Unmap(p, k, r));
      var i :| 0 <= i < |steps| && steps[i] == R.Unmap(p, k, r);
    }
  }

  const EVERY_SLOT: seq<bool> := [true, true, true, true]

  /** A dying process, up to the end of its plan. */
  function Dismantled(m: Mem, p: nat): Mem
    requires p < |m.spaces| && |m.spaces[p].dma| == SHARE_SLOTS
  {
    var n := Withdrew(m, p, EVERY_SLOT);
    RunPlan(n, TeardownPlan(n, p))
  }

  /** Then its own frames go back to the pool and its slot is free. */
  function Vacated(m: Mem, p: nat): Mem
    requires p < |m.spaces|
  {
    m.(pool := m.pool + SetOf(m.spaces[p].frames), spaces := m.spaces[p := m.spaces[p].(live := false, frames := [])])
  }

  /** The dying process has nothing left but its own frames. */
  ghost predicate Stripped(m: Mem, p: nat)
    requires p < |m.spaces|
  {
    && (forall k :: 0 <= k < |m.spaces[p].shares| ==> m.spaces[p].shares[k] == 0)
    && (forall k :: 0 <= k < |m.spaces[p].dma| ==> m.spaces[p].dma[k].region == 0)
    && (forall i :: 0 <= i < |m.regions| && m.regions[i].live ==> m.regions[i].owner != m.spaces[p].id)
  }

  lemma {:induction false} DismantledSound(m: Mem, ram: set<nat>, p: nat)
    requires Sound(m, ram) && p < |m.spaces| && m.spaces[p].live && |m.spaces[p].dma| == SHARE_SLOTS
    ensures var n := Withdrew(m, p, EVERY_SLOT);
            && Sound(n, ram) && RecordsCleared(m, n, p, EVERY_SLOT, SHARE_SLOTS)
            && p < |n.spaces| && n.spaces[p].live
            && After(n, Dismantled(m, p), TeardownPlan(n, p))
    ensures Sound(Dismantled(m, p), ram) && p < |Dismantled(m, p).spaces| && Stripped(Dismantled(m, p), p)
  {
    hide SoundBut, After, TeardownPlan, RunPlan, R.Phased, UnmapsHolders, NoFreeFrameNamed, Withdrew, RecordsCleared, Releases;
    ShapeOf(m, ram, false);
    WithdrewSound(m, ram, p, EVERY_SLOT);
    var n := Withdrew(m, p, EVERY_SLOT);
    ClearedFacts(m, n, p);
    TeardownPlanOk(n, ram, p);
    var steps := TeardownPlan(n, p);
    EveryStepSound(n, ram, steps, |steps|);
    assert steps[..|steps|] == steps;
    ShapeOf(n, ram, false);
    AfterStripped(n, Dismantled(m, p), p, steps);
  }

  lemma {:induction false} ClearedFacts(m: Mem, n: Mem, p: nat)
    requires p < |m.spaces| && |m.spaces[p].dma| == SHARE_SLOTS && RecordsCleared(m, n, p, EVERY_SLOT, SHARE_SLOTS)
    ensures |n.spaces| == |m.spaces| && n.spaces[p].live == m.spaces[p].live
    ensures forall k :: 0 <= k < |n.spaces[p].dma| ==> n.spaces[p].dma[k].region == 0
  {}

  lemma {:induction false} AfterStripped(n: Mem, o: Mem, p: nat, steps: seq<R.Step>)
    requires p < |n.spaces| && After(n, o, steps) && RegionsOk(n.regions, n.nextRegion)
    requires forall k :: 0 <= k < |n.spaces[p].dma| ==> n.spaces[p].dma[k].region == 0
    requires forall k: nat :: k < |n.spaces[p].shares| && n.spaces[p].shares[k] != 0 ==> R.Unmaps(steps, p, k)
    requires forall q: nat :: Releases(steps, q) <==>
               q != 0 && exists i :: 0 <= i < |n.regions| && n.regions[i].live && n.regions[i].id == q && n.regions[i].owner == n.spaces[p].id
    ensures p < |o.spaces| && Stripped(o, p)
  {
    hide R.Unmaps, Releases;
    assert SpaceAfter(n.spaces[p], o.spaces[p], p, steps);
    forall i | 0 <= i < |o.regions| && o.regions[i].live ensures o.regions[i].owner != o.spaces[p].id {
      assert o.regions[i] == n.regions[i];
    }
  }

  /** A stripped process's slot can be freed: its frames were nobody else's. */
  lemma {:induction false} VacatedSound(m: Mem, ram: set<nat>, p: nat)
    requires Sound(m, ram) && p < |m.spaces| && Stripped(m, p)
    ensures Sound(Vacated(m, p), ram)
  {
    hide DeviceOk, Conserved, ReachOk, DevicesOk, DevicesShaped, RegionsOk, RegionAt, FramesOf, SetOf;
    var n := Vacated(m, p);
    VacatedConserved(m, ram, p);
    VacatedReach(m, p);
    forall i | 0 <= i < |n.regions| && n.regions[i].live ensures LiveId(n.spaces, n.regions[i].owner) {
      assert LiveId(m.spaces, m.regions[i].owner);
      var q :| 0 <= q < |m.spaces| && m.spaces[q].live && m.spaces[q].id == m.regions[i].owner;
      assert n.spaces[q].live;
    }
  }

  lemma {:induction false} VacatedReach(m: Mem, p: nat)
    requires p < |m.spaces| && ReachOk(m.regions, m.spaces, m.devs)
    ensures ReachOk(m.regions, Vacated(m, p).spaces, m.devs)
  {
    hide RegionAt, FramesOf, SetOf;
    var n := Vacated(m, p);
    forall d, a | 0 <= d < |m.devs| && 0 <= a < |m.devs[d].leaves| && m.devs[d].leaves[a].Present?
      ensures Attributed(m.regions, n.spaces, m.devs[d].id, m.devs[d].leaves[a].frame)
    {
      var f := m.devs[d].leaves[a].frame;
      assert Attributed(m.regions, m.spaces, m.devs[d].id, f);
      var q, j :| 0 <= q < |m.spaces| && 0 <= j < |m.spaces[q].dma|
                  && m.spaces[q].dma[j].region != 0 && m.spaces[q].dma[j].domain == m.devs[d].id
                  && f in FramesOf(m.regions, m.spaces[q].dma[j].region);
      assert n.spaces[q].dma[j] == m.spaces[q].dma[j];
    }
  }

  lemma {:induction false} VacatedConserved(m: Mem, ram: set<nat>, p: nat)
    requires Conserved(m.pool, m.regions, m.spaces, ram) && p < |m.spaces|
    ensures var n := Vacated(m, p); Conserved(n.pool, n.regions, n.spaces, ram)
  {
    hide Conserved, SetOf;
    HeldFrameIsExclusive(m, ram, p);
    PoolGain(m.pool, m.spaces[p].frames);
    var n := Vacated(m, p);
    assert n.spaces[p].frames == [];
    assert multiset(n.pool) + multiset(n.spaces[p].frames) == multiset(m.pool) + multiset(m.spaces[p].frames);
    HeldMoves(m, n, ram, p);
  }

  lemma {:induction false} HeldFrameIsExclusive(m: Mem, ram: set<nat>, p: nat)
    requires Conserved(m.pool, m.regions, m.spaces, ram) && p < |m.spaces|
    ensures NoDup(m.spaces[p].frames) && forall f :: f in m.spaces[p].frames ==> f !in m.pool
  {
    var fs := m.spaces[p].frames;
    forall f ensures multiset(fs)[f] <= 1 { SumHas(Held(m.spaces), p, f); CountOne(m, ram, f); }
    OnceEach(fs);
    forall f | f in fs ensures f !in m.pool { SumHas(Held(m.spaces), p, f); CountOne(m, ram, f); }
  }
}
