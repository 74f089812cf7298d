/** Who owns what: a process that commands a device owns every region it can name, so nobody's
    mapping of a region is ever at odds with another's. */
module Tenure {
  import opened Abi
  import opened Basics
  import opened Capabilities
  import opened Deleg
  import opened Sched
  import opened Machine
  import opened Invariant
  import opened Runs
  import LS = LifeSteps
  import A = Authority
  import M = Memory
  import L = Lifetime
  import P = Plans
  import S = Supply
  import V = Rendezvous
  import D = Dma
  import R = Regions
  import I = Iommu

  // ------------------------------------------------------------------- taking reach away

  /** `e` is `d` with some mappings gone, and with whatever agreement `d` had. */
  ghost predicate Thin(d: D.Device, e: D.Device) {
    && (forall a :: a in e.dom.maps ==> a in d.dom.maps && e.dom.maps[a] == d.dom.maps[a])
    && (D.Agree(d) ==> D.Agree(e))
  }

  /** Some regions and some mappings are gone, and nothing is new. */
  ghost predicate Thinner(m: M.Mem, n: M.Mem) {
    && |n.regions| == |m.regions| && |n.devs| == |m.devs|
    && (forall i :: 0 <= i < |m.regions| && n.regions[i].live ==> n.regions[i] == m.regions[i])
    && (forall d :: 0 <= d < |m.devs| ==> Thin(m.devs[d], n.devs[d]))
  }

  lemma {:induction false} ThinnerTwice(m: M.Mem, n: M.Mem, o: M.Mem)
    requires Thinner(m, n) && Thinner(n, o)
    ensures Thinner(m, o)
  {
    hide D.Agree;
    forall d | 0 <= d < |m.devs| ensures Thin(m.devs[d], o.devs[d]) { assert Thin(m.devs[d], n.devs[d]) && Thin(n.devs[d], o.devs[d]); }
  }

  lemma {:induction false} ThinnerSame(m: M.Mem, n: M.Mem)
    requires n.regions == m.regions && n.devs == m.devs
    ensures Thinner(m, n)
  {
    hide D.Agree;
  }

  lemma {:induction false} WithdrawThin(d: D.Device, fs: seq<nat>)
    ensures Thin(d, D.Withdraw(d, fs, |fs|)) && Thin(d, D.Invalidate(D.Withdraw(d, fs, |fs|)))
  {
    hide D.Withdraw, D.LeafFor, D.Agree;
    D.WithdrawIs(d, fs, |fs|);
    assert fs[..|fs|] == fs;
    var e := D.Withdraw(d, fs, |fs|);
    if D.Agree(d) { WithdrawnAgrees(d, e, fs); }
    InvalidateThin(e);
  }

  lemma {:induction false} WithdrawnAgrees(d: D.Device, e: D.Device, fs: seq<nat>)
    requires D.Agree(d) && (|d.leaves| == D.L1_SLOTS ==> D.Withdrawn(d, e, fs))
    ensures D.Agree(e)
  {
    hide D.LeafFor;
    D.WithdrawnModel(d, e, fs);
  }

  lemma {:induction false} InvalidateThin(d: D.Device)
    ensures Thin(d, D.Invalidate(d))
  {}

  lemma {:induction false} InvalidatedThin(m: M.Mem)
    ensures Thinner(m, m.(devs := L.Invalidated(m.devs)))
  {
    hide D.Agree;
    forall d | 0 <= d < |m.devs| ensures Thin(m.devs[d], L.Invalidated(m.devs)[d]) { InvalidateThin(m.devs[d]); }
  }

  lemma {:induction false} RecordThin(m: M.Mem, p: nat, k: nat)
    requires p < |m.spaces| && k < |m.spaces[p].dma|
    ensures Thinner(m, L.WithdrawRecord(m, p, k))
  {
    hide D.Agree, D.Withdraw, M.RegionAt, M.DomainAt;
    var d, i := M.DomainAt(m.devs, m.spaces[p].dma[k].domain), M.RegionAt(m.regions, m.spaces[p].dma[k].region);
    if d < |m.devs| && i < |m.regions| { WithdrawThin(m.devs[d], m.regions[i].frames); }
  }

  lemma {:induction false} SomeThin(m: M.Mem, p: nat, drop: seq<bool>, n: nat)
    requires p < |m.spaces| && n <= |drop| == |m.spaces[p].dma|
    ensures Thinner(m, L.WithdrawSome(m, p, drop, n))
  {
    hide Thinner, L.WithdrawRecord;
    if n == 0 {
      ThinnerSame(m, m);
    } else {
      SomeThin(m, p, drop, n - 1);
      var r := L.WithdrawSome(m, p, drop, n - 1);
      if drop[n - 1] {
        RecordThin(r, p, n - 1);
        ThinnerTwice(m, r, L.WithdrawRecord(r, p, n - 1));
      }
    }
  }

  lemma {:induction false} WithdrewThin(m: M.Mem, p: nat, drop: seq<bool>)
    requires p < |m.spaces| && |drop| == |m.spaces[p].dma|
    ensures Thinner(m, L.Withdrew(m, p, drop))
  {
    hide Thinner, L.WithdrawSome, L.SomeTouch;
    SomeThin(m, p, drop, |drop|);
    var r := L.WithdrawSome(m, p, drop, |drop|);
    InvalidatedThin(r);
    ThinnerTwice(m, r, r.(devs := L.Invalidated(r.devs)));
  }

  lemma {:induction false} ReleasedThin(m: M.Mem, r: nat)
    ensures Thinner(m, L.Released(m, r))
  {
    hide D.Agree, D.Withdraw, M.RegionAt, L.AnyTouch, L.Invalidated, L.SetOf;
    var i := M.RegionAt(m.regions, r);
    if i < |m.regions| {
      var fs := m.regions[i].frames;
      var devs := L.Withdrawals(m.devs, fs);
      forall d | 0 <= d < |devs| ensures Thin(m.devs[d], devs[d]) { WithdrawThin(m.devs[d], fs); }
      var n := L.Released(m, r).(devs := devs);
      InvalidatedThin(n);
      ThinnerTwice(m, n, n.(devs := L.Invalidated(devs)));
    }
  }

  lemma {:induction false} PlanThin(m: M.Mem, steps: seq<R.Step>)
    ensures Thinner(m, P.RunPlan(m, steps).(spaces := m.spaces))
    ensures Thinner(m, P.RunPlan(m, steps))
    decreases |steps|
  {
    hide Thin, L.Released;
    if steps == [] {
      ThinnerSame(m, m);
    } else {
      PlanThin(m, steps[..|steps| - 1]);
      var n, x := P.RunPlan(m, steps[..|steps| - 1]), steps[|steps| - 1];
      if x.Release? { ReleasedThin(n, x.region); } else { ThinnerSame(n, P.Exec(n, x)); }
      ThinnerTwice(m, n, P.Exec(n, x));
    }
  }

  lemma {:induction false} DropSharesSame(m: M.Mem, p: nat, drop: seq<bool>, n: nat)
    requires n <= |drop|
    ensures DropShares(m, p, drop, n) == m.(spaces := DropShares(m, p, drop, n).spaces)
  {
    if n > 0 { DropSharesSame(m, p, drop, n - 1); }
  }

  // ------------------------------------------------------------------- which entries only take away

  /** No capability, region or mapping is new. */
  ghost predicate Tamed(s: State, t: State) {
    A.Keeps(s.auth, t.auth) && Thinner(s.mem, t.mem)
  }

  lemma {:induction false} KeepsTwice(a: A.Auth, b: A.Auth, c: A.Auth)
    requires A.Keeps(a, b) && A.Keeps(b, c)
    ensures A.Keeps(a, c)
  {
    hide A.Occupied, A.CapAt, A.StampAt;
  }

  lemma {:induction false} SweptByKeeps(a: A.Auth, steps: seq<R.Step>, n: nat)
    requires A.Sound(a) && n <= |steps|
    ensures A.Sound(SweptBy(a, steps, n)) && A.Keeps(a, SweptBy(a, steps, n))
  {
    hide A.Sound, A.Swept, A.Keeps;
    if n == 0 {
      KeepsSelf(a);
    } else {
      SweptByKeeps(a, steps, n - 1);
      var b := SweptBy(a, steps, n - 1);
      if steps[n - 1].ForgetCaps? {
        A.SweptSound(b, steps[n - 1].region);
        KeepsTwice(a, b, A.Swept(b, steps[n - 1].region));
      }
    }
  }

  lemma {:induction false} KeepsSelf(a: A.Auth)
    ensures A.Keeps(a, a)
  {}

  lemma {:induction false} WakeKeeps(s: State, wake: seq<bool>, n: nat)
    requires n <= |wake| <= |s.rv.ports|
    ensures WakeRefusedWhere(s, wake, n).auth == s.auth && WakeRefusedWhere(s, wake, n).mem == s.mem
  {
    if n > 0 { WakeKeeps(s, wake, n - 1); }
  }

  lemma {:induction false} BuriedTamed(s: State, ram: set<nat>, i: nat)
    requires Core(s, ram) && Sized(s) && i < MAX_PROCS && Receptive(s, i)
    ensures Tamed(s, Buried(s, i))
  {
    hide A.Sound, A.Keeps, Body, Thinner, L.Withdrew, P.TeardownPlan, P.RunPlan, SweptBy, A.Died, P.Stripped, Sized, L.SetOf;
    LS.DismantledCore(s, ram, i);
    Room(s);
    var w := s.(mem := L.Withdrew(s.mem, i, P.EVERY_SLOT));
    var plan := P.TeardownPlan(w.mem, i);
    var t := Executed(w, plan);
    WithdrewThin(s.mem, i, P.EVERY_SLOT);
    PlanThin(w.mem, plan);
    ThinnerSame(t.mem, P.Vacated(t.mem, i));
    ThinnerTwice(s.mem, w.mem, t.mem);
    ThinnerTwice(s.mem, t.mem, P.Vacated(t.mem, i));
    SweptByKeeps(s.auth, plan, |plan|);
    DiedKeeps(t, ram, i);
    KeepsTwice(s.auth, t.auth, A.Died(t.auth, i));
  }

  lemma {:induction false} DiedKeeps(t: State, ram: set<nat>, i: nat)
    requires Core(t, ram) && Sized(t) && i < MAX_PROCS && Live(t, i)
    ensures A.Keeps(t.auth, A.Died(t.auth, i))
  {
    hide Body, A.HistoryOk, A.Stamped, A.Named, A.TracksBut, A.Lone, A.Died;
    LS.BodyAgrees(t, ram, i);
    A.DiedLess(t.auth, i);
  }

  lemma {:induction false} Room(s: State)
    requires Sized(s)
    ensures |s.rv.ports| == |s.auth.spaces| == |s.mem.spaces| == |s.own| == MAX_PROCS
    ensures forall i :: 0 <= i < MAX_PROCS ==>
              && |s.mem.spaces[i].dma| == |s.mem.spaces[i].shares| == SHARE_SLOTS
              && |s.auth.spaces[i].caps| == |s.auth.spaces[i].stamps| == CAP_SLOTS
  {}

  lemma {:induction false} ExitTamed(s: State, ram: set<nat>, i: nat)
    requires Core(s, ram) && Sized(s) && i < MAX_PROCS && Receptive(s, i)
    ensures Tamed(s, ExitStep(s, i))
  {
    hide Core, Tamed, Buried, Answerable, WakeRefusedWhere, Sized;
    BuriedTamed(s, ram, i);
    var t := Buried(s, i);
    if Sized(t) {
      Room(t);
      WakeKeeps(t, seq(MAX_PROCS, j requires 0 <= j < MAX_PROCS => StrandedByDeath(t, j)), MAX_PROCS);
    }
    SameTamed(s, t, ExitStep(s, i));
  }

  lemma {:induction false} SameTamed(s: State, t: State, u: State)
    requires Tamed(s, t) && u.auth == t.auth && u.mem == t.mem
    ensures Tamed(s, u)
  {
    hide A.Keeps, Thinner;
  }

  lemma {:induction false} StrippedThin(s: State, p: nat)
    requires Sized(s) && p < MAX_PROCS
    ensures Thinner(s.mem, Stripped(s, p).mem)
  {
    hide Sized, Thinner, DropShares, L.Withdrew, LostShares, LostRecords, StrandedByLoss, KeptLines, HoldsMmio;
    Room(s);
    var caps := Caps(s, p);
    var drop := LostShares(caps, s.mem.spaces[p].shares);
    DropSharesSame(s.mem, p, drop, SHARE_SLOTS);
    var m := DropShares(s.mem, p, drop, SHARE_SLOTS);
    ThinnerSame(s.mem, m);
    var lost := LostRecords(caps, s.mem.spaces[p].dma);
    if |m.spaces[p].dma| == |lost| {
      WithdrewThin(m, p, lost);
      ThinnerTwice(s.mem, m, L.Withdrew(m, p, lost));
    }
  }

  lemma {:induction false} RevokeToThin(s: State, order: seq<Endpoint>, n: nat)
    requires Sized(s) && n <= |order|
    ensures Thinner(s.mem, RevokeTo(s, order, n).mem)
  {
    hide Sized, Thinner, Stripped, A.Stricken;
    if n == 0 {
      ThinnerSame(s.mem, s.mem);
    } else {
      RevokeToThin(s, order, n - 1);
      var t := RevokeTo(s, order, n - 1);
      var e := order[n - 1];
      if Sized(t) && e.proc < MAX_PROCS {
        Room(t);
        var u := t.(auth := A.Stricken(t.auth, e));
        if Sized(u) {
          StrippedThin(u, e.proc);
          ThinnerTwice(s.mem, u.mem, Stripped(u, e.proc).mem);
        }
      }
    }
  }

  lemma {:induction false} RevokeTamed(s: State, ram: set<nat>, i: nat, cap: nat, order: seq<Endpoint>)
    requires Core(s, ram) && Sized(s) && i < MAX_PROCS && Receptive(s, i) && Feasible(s, i, Revoke(cap, order))
    ensures Tamed(s, RevokeStep(s, i, cap, order))
  {
    hide A.Sound, A.Keeps, Body, Sized, Thinner, RevokeTo, Revoked, Killed, A.StrickenBy, A.LoneAmong, A.Shaped;
    Room(s);
    KeepsSelf(s.auth);
    ThinnerSame(s.mem, s.mem);
    if Lookup(Caps(s, i), cap).Some? {
      var root := Endpoint(i, s.auth.spaces[i].id, cap);
      var b := s.(auth := s.auth.(edges := Revoked(s.auth.edges, root)));
      LS.LedgerBody(s, b, ram);
      LS.RevokeLone(s, ram, i, cap, order);
      LS.RevokeToBody(b, ram, order, |order|);
      A.StrickenIsRevoked(s.auth, root, order);
      RevokeToThin(b, order, |order|);
    }
  }

  lemma {:induction false} FreeTamed(s: State, ram: set<nat>, i: nat, cap: nat)
    requires Core(s, ram) && Sized(s) && i < MAX_PROCS
    ensures Tamed(s, FreeRegionStep(s, i, cap))
  {
    hide A.Sound, A.Keeps, Body, Sized, Thinner, SweptBy, P.RunPlan, P.DestroyPlan, M.RegionAt;
    Room(s);
    KeepsSelf(s.auth);
    ThinnerSame(s.mem, s.mem);
    var id := ObjectOf(Caps(s, i), cap, RegionCap, WRITE);
    if id.Some? {
      var plan := P.DestroyPlan(s.mem, id.value);
      SweptByKeeps(s.auth, plan, |plan|);
      PlanThin(s.mem, plan);
    }
  }

  lemma {:induction false} UnmapDmaThin(s: State, i: nat, dom: nat, reg: nat)
    requires Sized(s) && i < MAX_PROCS
    ensures Thinner(s.mem, UnmapDmaStep(s, i, dom, reg).mem)
  {
    hide Sized, D.Agree, D.Withdraw, M.RegionAt, M.DomainAt;
    Room(s);
    ThinnerSame(s.mem, s.mem);
    var caps := Caps(s, i);
    var domain, region := ObjectOf(caps, dom, IommuDomain, WRITE), ObjectOf(caps, reg, RegionCap, READ);
    if domain.Some? && region.Some? {
      var d, at := M.DomainAt(s.mem.devs, domain.value), M.RegionAt(s.mem.regions, region.value);
      if d < |s.mem.devs| && at < |s.mem.regions| { WithdrawThin(s.mem.devs[d], s.mem.regions[at].frames); }
    }
  }

  /** The calls that touch no capability, region or device. */
  predicate Quiet(call: Call) {
    !call.Exit? && !call.Revoke? && !call.FreeRegion? && !call.UnmapDma? && !call.MapDma? && !call.Spawn? && !call.MakeRegion?
  }

  lemma {:induction false} QuietSame(s: State, i: nat, call: Call)
    requires Sized(s) && i < MAX_PROCS && Quiet(call)
    ensures var t := Service(s, i, call); t.auth == s.auth && t.mem.regions == s.mem.regions && t.mem.devs == s.mem.devs
  {
    hide V.SendMatched, V.SendParked, V.RecvMatched, V.FindRecv, V.FindSend, DropShares, Holds, Contains, M.RegionAt, L.SetOf;
    if call.UnmapRegion? {
      var held := Lookup(Caps(s, i), call.cap);
      if held.Some? { DropSharesSame(s.mem, i, SlotsShowing(s.mem.spaces[i].shares, held.value.obj), SHARE_SLOTS); }
    }
  }

  /** Every call but the three that give takes away at most. */
  lemma {:induction false} ServiceTamed(s: State, ram: set<nat>, call: Call)
    requires Core(s, ram) && Sized(s) && s.current < MAX_PROCS && Receptive(s, s.current) && Feasible(s, s.current, call)
    requires !call.Spawn? && !call.MakeRegion? && !call.MapDma?
    ensures Tamed(s, Service(s, s.current, call))
  {
    hide Core, Sized, A.Keeps, Thinner, Feasible, ExitStep, RevokeStep, FreeRegionStep, UnmapDmaStep, SendStep, RecvStep,
      MapRegionStep, UnmapRegionStep, PollStep, WaitStep, MapBarStep;
    var i := s.current;
    if call.Exit? {
      ExitTamed(s, ram, i);
    } else if call.Revoke? {
      RevokeTamed(s, ram, i, call.cap, call.order);
    } else if call.FreeRegion? {
      FreeTamed(s, ram, i, call.cap);
    } else if call.UnmapDma? {
      UnmapDmaThin(s, i, call.dom, call.reg);
      UnmapDmaAuth(s, i, call.dom, call.reg);
      KeepsSelf(s.auth);
    } else {
      QuietSame(s, i, call);
      ThinnerSame(s.mem, Service(s, i, call).mem);
      KeepsSelf(s.auth);
    }
  }

  lemma {:induction false} UnmapDmaAuth(s: State, i: nat, dom: nat, reg: nat)
    requires Sized(s) && i < MAX_PROCS
    ensures UnmapDmaStep(s, i, dom, reg).auth == s.auth
  {
    hide L.UnmapDma, M.RegionAt, M.DomainAt;
  }

  // ------------------------------------------------------------------- tenure

  /** A region capability nobody handed over was minted by its holder, who owns the region. */
  ghost predicate MintedOwn(a: A.Auth, rs: seq<M.Region>) {
    forall e :: A.Occupied(a, e) && A.CapAt(a, e).ty == RegionCap && !A.Given(a, e) ==> OwnsIfLive(rs, A.CapAt(a, e).obj, e.id)
  }

  predicate OwnsIfLive(rs: seq<M.Region>, r: nat, id: nat) {
    M.RegionAt(rs, r) < |rs| ==> rs[M.RegionAt(rs, r)].owner == id
  }

  /** Every mapping of these frames carries exactly these rights. */
  ghost predicate MappedAs(maps: map<nat, I.Target>, fs: seq<nat>, rights: Rights) {
    forall a :: a in maps && maps[a].frame in fs ==> maps[a].rights == rights
  }

  /** What a region's owner holds over it is what every device mapping of it carries. */
  ghost predicate OwnersRights(a: A.Auth, rs: seq<M.Region>, devs: seq<D.Device>) {
    forall e, d :: A.Occupied(a, e) && A.CapAt(a, e).ty == RegionCap && Owns(rs, A.CapAt(a, e).obj, e.id) && 0 <= d < |devs| ==>
      MappedAs(devs[d].dom.maps, M.FramesOf(rs, A.CapAt(a, e).obj), A.CapAt(a, e).rights)
  }

  predicate Owns(rs: seq<M.Region>, r: nat, id: nat) {
    M.RegionAt(rs, r) < |rs| && rs[M.RegionAt(rs, r)].owner == id
  }

  ghost predicate Tenured(a: A.Auth, m: M.Mem) {
    MintedOwn(a, m.regions) && OwnersRights(a, m.regions, m.devs)
  }

  /** A region still live is where it was, as it was. */
  lemma {:induction false} StillThere(rs: seq<M.Region>, ss: seq<M.Region>, r: nat)
    requires M.DistinctIds(rs) && |ss| == |rs| && forall i :: 0 <= i < |rs| && ss[i].live ==> ss[i] == rs[i]
    requires M.RegionAt(ss, r) < |ss|
    ensures M.RegionAt(rs, r) == M.RegionAt(ss, r) && M.FramesOf(rs, r) == M.FramesOf(ss, r)
    ensures ss[M.RegionAt(ss, r)] == rs[M.RegionAt(ss, r)]
  {
    M.RegionAtIs(rs, M.RegionAt(ss, r));
  }

  /** Taking away breaks nobody's tenure. */
  lemma {:induction false} TamedTenure(a: A.Auth, b: A.Auth, m: M.Mem, n: M.Mem)
    requires Tenured(a, m) && A.Keeps(a, b) && Thinner(m, n) && M.DistinctIds(m.regions)
    ensures Tenured(b, n)
  {
    hide A.Occupied, A.CapAt, A.StampAt, M.RegionAt, M.FramesOf, M.DistinctIds, D.Agree;
    forall r: nat | M.RegionAt(n.regions, r) < |n.regions|
      ensures M.RegionAt(m.regions, r) == M.RegionAt(n.regions, r) && M.FramesOf(m.regions, r) == M.FramesOf(n.regions, r)
      ensures n.regions[M.RegionAt(n.regions, r)] == m.regions[M.RegionAt(n.regions, r)]
    {
      StillThere(m.regions, n.regions, r);
    }
    forall e, d | A.Occupied(b, e) && A.CapAt(b, e).ty == RegionCap && Owns(n.regions, A.CapAt(b, e).obj, e.id) && 0 <= d < |n.devs|
      ensures MappedAs(n.devs[d].dom.maps, M.FramesOf(n.regions, A.CapAt(b, e).obj), A.CapAt(b, e).rights)
    {
      assert Thin(m.devs[d], n.devs[d]);
      assert MappedAs(m.devs[d].dom.maps, M.FramesOf(m.regions, A.CapAt(a, e).obj), A.CapAt(a, e).rights);
    }
  }

  // ------------------------------------------------------------------- what a driver can name

  lemma {:induction false} CoreShape(s: State, ram: set<nat>)
    requires Core(s, ram)
    ensures Sized(s) && A.Sound(s.auth) && M.Sound(s.mem, ram) && A.Shaped(s.auth) && A.Lone(s.auth)
    ensures M.RegionsOk(s.mem.regions, s.mem.nextRegion) && M.Conserved(s.mem.pool, s.mem.regions, s.mem.spaces, ram)
    ensures M.OwnersOk(s.mem.regions, s.mem.spaces)
    ensures forall i :: 0 <= i < MAX_PROCS ==> AgreeAt(s, i) && HeldAt(s, i)
  {
    hide V.Sound, QueueIs, Held, M.WindowsOk, M.RecordsOk, M.DevicesOk, M.DevicesShaped, M.ReachOk, M.QuietOk, M.Shaped,
      A.HistoryOk, A.Stamped, A.Named, A.TracksBut;
  }

  /** Whoever commands a device has only regions of its own: what was handed over comes alone. */
  lemma {:induction false} DriverOwns(s: State, ram: set<nat>, i: nat, dom: nat, reg: nat)
    requires Core(s, ram) && Sized(s) && MintedOwn(s.auth, s.mem.regions) && i < MAX_PROCS && Live(s, i)
    requires ObjectOf(Caps(s, i), dom, IommuDomain, WRITE).Some? && ObjectOf(Caps(s, i), reg, RegionCap, READ).Some?
    ensures var e := Endpoint(i, s.auth.spaces[i].id, reg);
            && A.Occupied(s.auth, e) && A.CapAt(s.auth, e) == Caps(s, i)[reg] && A.CapAt(s.auth, e).ty == RegionCap
            && OwnsIfLive(s.mem.regions, Caps(s, i)[reg].obj, s.auth.spaces[i].id)
  {
    hide Body, A.Sound, M.SoundBut, Contains, A.Shaped, M.RegionsOk, M.Conserved, M.OwnersOk, HeldAt, M.RegionAt;
    CoreShape(s, ram);
    var e, f := Endpoint(i, s.auth.spaces[i].id, reg), Endpoint(i, s.auth.spaces[i].id, dom);
    assert AgreeAt(s, i);
    assert A.Occupied(s.auth, e) && A.Occupied(s.auth, f) && e != f;
  }

  /** Its mappings narrow nothing. */
  lemma {:induction false} DriverNarrowsNothing(s: State, ram: set<nat>, i: nat, dom: nat, reg: nat, d: nat, fs: seq<nat>)
    requires Core(s, ram) && Sized(s) && Tenured(s.auth, s.mem) && i < MAX_PROCS && Live(s, i) && d < |s.mem.devs|
    requires ObjectOf(Caps(s, i), dom, IommuDomain, WRITE).Some? && ObjectOf(Caps(s, i), reg, RegionCap, READ).Some?
    requires M.RegionAt(s.mem.regions, Caps(s, i)[reg].obj) < |s.mem.regions|
    requires forall f :: f in fs ==> f in M.FramesOf(s.mem.regions, Caps(s, i)[reg].obj)
    ensures D.NoNarrowing(s.mem.devs[d].dom.maps, fs, Caps(s, i)[reg].rights)
  {
    hide Core, A.Occupied, A.CapAt, Contains, M.RegionAt, M.FramesOf, MintedOwn;
    DriverOwns(s, ram, i, dom, reg);
    var e, rights := Endpoint(i, s.auth.spaces[i].id, reg), Caps(s, i)[reg].rights;
    assert MappedAs(s.mem.devs[d].dom.maps, M.FramesOf(s.mem.regions, A.CapAt(s.auth, e).obj), A.CapAt(s.auth, e).rights);
    ContainsIsPartialOrder(rights, rights, rights);
  }

  // ------------------------------------------------------------------- the calls that give

  /** A process that did not exist owns nothing yet. */
  lemma {:induction false} OwnersOld(s: State, ram: set<nat>, k: nat)
    requires Core(s, ram) && k < |s.mem.regions| && s.mem.regions[k].live
    ensures s.mem.regions[k].owner < s.auth.nextId
  {
    hide Body, A.Sound, M.SoundBut, M.RegionsOk, M.Conserved, HeldAt, A.Lone;
    CoreShape(s, ram);
    assert M.LiveId(s.mem.spaces, s.mem.regions[k].owner);
    var p :| 0 <= p < |s.mem.spaces| && s.mem.spaces[p].live && s.mem.spaces[p].id == s.mem.regions[k].owner;
    assert AgreeAt(s, p);
  }

  /** One more capability, over a region its holder does not own, handed over. */
  lemma {:induction false} GivenTenure(a: A.Auth, b: A.Auth, m: M.Mem, y: Endpoint, birth: A.Birth)
    requires Tenured(a, m) && A.Grows(a, b, y, birth) && birth.parent.Some?
    requires forall r: nat :: !Owns(m.regions, r, y.id)
    ensures Tenured(b, m)
  {
    hide A.Occupied, A.CapAt, A.StampAt, A.Shaped, M.RegionAt, M.FramesOf, MappedAs;
    forall e | A.Occupied(a, e) ensures A.Given(b, e) <==> A.Given(a, e) || A.StampAt(a, e) == |a.hist| {}
    forall e | A.Occupied(b, e) && A.CapAt(b, e).ty == RegionCap && !A.Given(b, e)
      ensures OwnsIfLive(m.regions, A.CapAt(b, e).obj, e.id)
    {
      assert e != y;
    }
  }

  lemma {:induction false} SpawnTenure(s: State, ram: set<nat>, i: nat, cap: nat, give: Option<nat>, request: bv64, load: Option<seq<nat>>)
    requires Core(s, ram) && Sized(s) && Tenured(s.auth, s.mem) && i < MAX_PROCS && Live(s, i)
    ensures var t := SpawnStep(s, i, cap, give, request, load); Tenured(t.auth, t.mem)
  {
    hide Core, Sized, Tenured, Started, A.Born, A.Delegated, A.Burned, Intersect, FromUser, Contains, FreeSlot, MayMint;
    var j := FreeSlot(s.rv.ports);
    Room(s);
    BornKeeps(s, ram, j);
    if j < MAX_PROCS && load.Some? {
      StartedSame(s, j, s.auth.nextId, load.value);
      SameTenure(s.auth, s.mem, Started(s, j, s.auth.nextId, load.value).mem);
      SameTenure(A.Born(s.auth, j), s.mem, Started(s, j, s.auth.nextId, load.value).mem);
      if give.Some? && Lookup(Caps(s, i), give.value).Some? && LiveCount(s.auth.edges) < |s.auth.edges| {
        var rights := Intersect(Caps(s, i)[give.value].rights, FromUser(request));
        HandedTenure(s, ram, i, give.value, j, rights);
        SameTenure(A.Delegated(s.auth, i, give.value, j, rights), s.mem, Started(s, j, s.auth.nextId, load.value).mem);
      }
    }
  }

  lemma {:induction false} SameTenure(a: A.Auth, m: M.Mem, n: M.Mem)
    requires n.regions == m.regions && n.devs == m.devs
    ensures Tenured(a, m) <==> Tenured(a, n)
  {}

  lemma {:induction false} StartedSame(s: State, j: nat, id: nat, fs: seq<nat>)
    requires Sized(s) && j < MAX_PROCS
    ensures Started(s, j, id, fs).mem.regions == s.mem.regions && Started(s, j, id, fs).mem.devs == s.mem.devs
  {
    hide L.SetOf;
  }

  lemma {:induction false} BornKeeps(s: State, ram: set<nat>, j: nat)
    requires Core(s, ram) && Sized(s) && Tenured(s.auth, s.mem)
    ensures Tenured(A.Burned(s.auth), s.mem)
    ensures j < MAX_PROCS && !Live(s, j) ==> Tenured(A.Born(s.auth, j), s.mem)
  {
    hide Body, A.Sound, M.SoundBut, Tenured, M.Conserved, M.OwnersOk, HeldAt, A.Lone, Thinner;
    CoreShape(s, ram);
    ThinnerSame(s.mem, s.mem);
    BurnedKeeps(s.auth);
    TamedTenure(s.auth, A.Burned(s.auth), s.mem, s.mem);
    if j < MAX_PROCS && !Live(s, j) {
      assert AgreeAt(s, j);
      NewbornKeeps(s.auth, j);
      TamedTenure(s.auth, A.Born(s.auth, j), s.mem, s.mem);
    }
  }

  lemma {:induction false} BurnedKeeps(a: A.Auth)
    ensures A.Keeps(a, A.Burned(a))
  {}

  lemma {:induction false} NewbornKeeps(a: A.Auth, j: nat)
    requires j < |a.spaces| && !a.spaces[j].live
    ensures A.Keeps(a, A.Born(a, j))
  {}

  lemma {:induction false} HandedTenure(s: State, ram: set<nat>, i: nat, c: nat, j: nat, rights: Rights)
    requires Core(s, ram) && Sized(s) && Tenured(s.auth, s.mem) && i < MAX_PROCS && Live(s, i) && j < MAX_PROCS && !Live(s, j)
    requires Lookup(Caps(s, i), c).Some?
    ensures Tenured(A.Delegated(s.auth, i, c, j, rights), s.mem)
  {
    hide Body, A.Sound, M.SoundBut, Tenured, M.Conserved, M.OwnersOk, HeldAt, A.Lone, Recorded, M.RegionAt;
    CoreShape(s, ram);
    assert AgreeAt(s, j) && AgreeAt(s, i);
    var a, y := s.auth, Endpoint(j, s.auth.nextId, 0);
    var b := A.Delegated(a, i, c, j, rights);
    var cap := a.spaces[i].caps[c].(rights := rights);
    assert A.Grows(a, b, y, A.Birth(cap, Some(a.spaces[i].stamps[c])));
    forall r: nat ensures !Owns(s.mem.regions, r, y.id) {
      if Owns(s.mem.regions, r, y.id) { OwnersOld(s, ram, M.RegionAt(s.mem.regions, r)); }
    }
    GivenTenure(a, b, s.mem, y, A.Birth(cap, Some(a.spaces[i].stamps[c])));
  }

  /** A region just made is where it was put; every other one is as it was. */
  lemma {:induction false} RegionMade(rs: seq<M.Region>, k: nat, x: M.Region, r: nat)
    requires M.DistinctIds(rs) && k < |rs| && !rs[k].live && x.live && x.id != 0
    requires forall j :: 0 <= j < |rs| && rs[j].live ==> rs[j].id != x.id
    ensures var ss := rs[k := x];
            if r == x.id then M.RegionAt(ss, r) == k && M.FramesOf(ss, r) == x.frames
            else M.RegionAt(ss, r) < |ss| ==>
                   && M.RegionAt(rs, r) == M.RegionAt(ss, r) && M.FramesOf(rs, r) == M.FramesOf(ss, r)
                   && ss[M.RegionAt(ss, r)] == rs[M.RegionAt(ss, r)]
  {
    var ss := rs[k := x];
    var i := M.RegionAt(ss, r);
    if r == x.id {
      assert ss[k].live && ss[k].id == r;
      assert i < |ss|;
    } else if i < |ss| {
      assert i != k && rs[i] == ss[i];
      M.RegionAtIs(rs, i);
    }
  }

  lemma {:induction false} MintedTenure(a: A.Auth, b: A.Auth, m: M.Mem, n: M.Mem, y: Endpoint, cap: Cap, k: nat, x: M.Region)
    requires Tenured(a, m) && A.Grows(a, b, y, A.Birth(cap, None)) && M.DistinctIds(m.regions)
    requires k < |m.regions| && !m.regions[k].live && x.live && x.id != 0 && x.owner == y.id && cap.obj == x.id && cap.ty == RegionCap
    requires forall j :: 0 <= j < |m.regions| && m.regions[j].live ==> m.regions[j].id != x.id
    requires forall e :: A.Occupied(a, e) && A.CapAt(a, e).ty == RegionCap ==> A.CapAt(a, e).obj != x.id
    requires n.regions == m.regions[k := x] && n.devs == m.devs
    requires forall d :: 0 <= d < |m.devs| ==> MappedAs(m.devs[d].dom.maps, x.frames, cap.rights)
    ensures Tenured(b, n)
  {
    hide A.Occupied, A.CapAt, A.StampAt, A.Shaped, M.RegionAt, M.FramesOf, MappedAs, M.DistinctIds;
    forall e | A.Occupied(b, e) && A.CapAt(b, e).ty == RegionCap && !A.Given(b, e)
      ensures OwnsIfLive(n.regions, A.CapAt(b, e).obj, e.id)
    {
      RegionMade(m.regions, k, x, A.CapAt(b, e).obj);
      if e != y { assert !A.Given(a, e) && OwnsIfLive(m.regions, A.CapAt(a, e).obj, e.id); }
    }
    forall e, d | A.Occupied(b, e) && A.CapAt(b, e).ty == RegionCap && Owns(n.regions, A.CapAt(b, e).obj, e.id) && 0 <= d < |n.devs|
      ensures MappedAs(n.devs[d].dom.maps, M.FramesOf(n.regions, A.CapAt(b, e).obj), A.CapAt(b, e).rights)
    {
      RegionMade(m.regions, k, x, A.CapAt(b, e).obj);
    }
  }

  lemma {:induction false} MakeRegionTenure(s: State, ram: set<nat>, i: nat, cap: nat, pages: nat, got: seq<nat>)
    requires Core(s, ram) && Sized(s) && Tenured(s.auth, s.mem) && i < MAX_PROCS && Live(s, i)
    requires Feasible(s, i, MakeRegion(cap, pages, got))
    ensures var t := MakeRegionStep(s, i, cap, pages, got); Tenured(t.auth, t.mem)
  {
    hide Body, A.Sound, M.SoundBut, Tenured, M.Conserved, M.OwnersOk, Held, A.Lone, Contains, OwnedCount, FreeRegionSlot, FirstFree,
      A.Minted, S.Available, L.SetOf, A.Occupied, A.CapAt, A.Shaped;
    CoreShape(s, ram);
    var slot := FreeRegionSlot(s.mem.regions);
    if MayMint(Caps(s, i), cap) && slot < |s.mem.regions| && |got| >= pages >= 1 {
      var region := Cap(RegionCap, Caps(s, i)[cap].rights, s.mem.nextRegion);
      var x := M.Region(true, s.mem.nextRegion, s.mem.spaces[i].id, got);
      if CanInsert(Caps(s, i), region) {
        assert AgreeAt(s, i);
        A.MintedGrows(s.auth, i, region);
        FramesFresh(s, ram, got, region.rights);
        OldObjects(s, ram);
        MintedTenure(s.auth, A.Minted(s.auth, i, region), s.mem, S.WithRegion(s.mem, i, slot, got),
                     Endpoint(i, s.auth.spaces[i].id, FirstFree(Caps(s, i))), region, slot, x);
      }
    }
  }

  /** No device maps a free frame. */
  lemma {:induction false} FramesFresh(s: State, ram: set<nat>, got: seq<nat>, rights: Rights)
    requires Core(s, ram) && S.Available(s.mem.pool, got)
    ensures forall d :: 0 <= d < |s.mem.devs| ==> MappedAs(s.mem.devs[d].dom.maps, got, rights)
  {
    hide Body, A.Sound, M.SoundBut, M.RegionsOk, M.Conserved, M.OwnersOk, HeldAt, A.Lone, A.Shaped, Contains;
    CoreShape(s, ram);
    S.NobodyReaches(s.mem, ram, got);
    forall d | 0 <= d < |s.mem.devs| ensures MappedAs(s.mem.devs[d].dom.maps, got, rights) {
      MapsGranted(s.mem, ram, d);
    }
  }

  lemma {:induction false} MapsGranted(m: M.Mem, ram: set<nat>, d: nat)
    requires M.Sound(m, ram) && d < |m.devs|
    ensures forall a :: a in m.devs[d].dom.maps ==> m.devs[d].dom.maps[a].frame in m.devs[d].dom.grants
  {
    hide M.Conserved, M.OwnersOk, M.RegionsOk, M.WindowsOk, M.RecordsOk, M.DevicesShaped, M.ReachOk, M.QuietOk, D.LeafFor, Contains;
    assert D.DeviceOk(m.devs[d]);
  }

  /** Every region capability names a region made before now. */
  lemma {:induction false} OldObjects(s: State, ram: set<nat>)
    requires Core(s, ram)
    ensures forall e :: A.Occupied(s.auth, e) && A.CapAt(s.auth, e).ty == RegionCap ==> A.CapAt(s.auth, e).obj < s.mem.nextRegion
  {
    hide Body, A.Sound, M.SoundBut, M.RegionsOk, M.Conserved, M.OwnersOk, A.Lone, A.Shaped, SharesHeld, RecordsHeld, WaitHeld, LinesHeld, BarHeld;
    CoreShape(s, ram);
    forall e | A.Occupied(s.auth, e) && A.CapAt(s.auth, e).ty == RegionCap ensures A.CapAt(s.auth, e).obj < s.mem.nextRegion {
      assert HeldAt(s, e.proc) && AgreeAt(s, e.proc);
    }
  }

  // ------------------------------------------------------------------- mapping for a device

  /** Any mapping there is after MAP_DMA was there before, or is of the region, with the call's rights. */
  lemma {:induction false} MapDmaMaps(m: M.Mem, ram: set<nat>, p: nat, domain: nat, region: nat, rights: Rights)
    requires M.Sound(m, ram) && p < |m.spaces| && m.spaces[p].live
    ensures M.Shaped(m) && M.RegionsOk(m.regions, m.nextRegion)
    ensures forall d :: 0 <= d < |m.devs| ==> |m.devs[d].leaves| == D.L1_SLOTS
    ensures var n := S.MapDma(m, p, domain, region, rights).m;
            && n.regions == m.regions && |n.devs| == |m.devs|
            && forall d, a :: 0 <= d < |m.devs| && a in n.devs[d].dom.maps ==>
                 || (a in m.devs[d].dom.maps && n.devs[d].dom.maps[a] == m.devs[d].dom.maps[a])
                 || (n.devs[d].dom.maps[a].rights == rights && n.devs[d].dom.maps[a].frame in M.FramesOf(m.regions, region))
  {
    hide M.SoundBut, D.MapPages, M.RegionAt, M.DomainAt, D.FindRun, D.FreeRun, S.FreeRecord, D.MapPre, D.LeafFor, Contains;
    S.LeafTables(m, ram);
    L.ShapeOf(m, ram, false);
    var d, i := M.DomainAt(m.devs, domain), M.RegionAt(m.regions, region);
    if d < |m.devs| && i < |m.regions| {
      var fs := m.regions[i].frames;
      S.FindRunRoom(m.devs[d].leaves, |fs|);
      var first := D.FindRun(m.devs[d].leaves, |fs|, D.FIRST_SLOT, 0);
      if first.Some? && m.devs[d].table && S.FreeRecord(m.spaces[p].dma) < |m.spaces[p].dma| {
        S.InstallPre(m, ram, d, i, first.value);
        PagesMaps(m.devs[d], fs, rights, first.value);
      }
    }
  }

  lemma {:induction false} PagesMaps(d: D.Device, fs: seq<nat>, rights: Rights, first: nat)
    requires D.MapPre(d, fs, first)
    ensures var out := D.MapPages(d, fs, rights, first, 0);
            forall a :: a in out.d.dom.maps ==>
              || (a in d.dom.maps && out.d.dom.maps[a] == d.dom.maps[a])
              || (out.d.dom.maps[a].rights == rights && out.d.dom.maps[a].frame in fs)
  {
    hide D.MapPages, D.LeafFor, Contains, D.DeviceOk, D.GrantsUsed, I.Sound;
    D.MapOutcome(d, fs, rights, first);
    D.AddedIs(fs, rights, first, |fs|);
  }

  lemma {:induction false} SameFrameSameRegion(m: M.Mem, ram: set<nat>, q: nat, r: nat, f: nat)
    requires M.Conserved(m.pool, m.regions, m.spaces, ram) && f in M.FramesOf(m.regions, q) && f in M.FramesOf(m.regions, r)
    ensures q == r && M.RegionAt(m.regions, r) < |m.regions|
  {
    M.RegionFrameIsExclusive(m, ram, M.RegionAt(m.regions, q));
  }

  /** The owner of a region has one capability over it. */
  lemma {:induction false} OneHolder(s: State, ram: set<nat>, e: Endpoint, f: Endpoint)
    requires Core(s, ram) && A.Occupied(s.auth, e) && A.Occupied(s.auth, f) && e.id == f.id
    requires A.CapAt(s.auth, e).ty == A.CapAt(s.auth, f).ty == RegionCap && A.CapAt(s.auth, e).obj == A.CapAt(s.auth, f).obj
    ensures e == f
  {
    hide Body, A.Sound, M.SoundBut, M.RegionsOk, M.Conserved, A.Lone, SharesHeld, RecordsHeld, WaitHeld, LinesHeld, BarHeld, M.LiveId;
    CoreShape(s, ram);
    assert AgreeAt(s, e.proc) && AgreeAt(s, f.proc) && HeldAt(s, e.proc);
  }

  lemma {:induction false} MapDmaTenure(s: State, ram: set<nat>, i: nat, dom: nat, reg: nat)
    requires Core(s, ram) && Sized(s) && Tenured(s.auth, s.mem) && i < MAX_PROCS && Live(s, i)
    ensures var t := MapDmaStep(s, i, dom, reg); Tenured(t.auth, t.mem)
  {
    hide Body, A.Sound, M.SoundBut, M.Conserved, M.OwnersOk, M.RegionsOk, HeldAt, A.Lone, A.Shaped, A.Occupied, A.CapAt, MintedOwn, MappedAs,
      S.MapDma, M.RegionAt, M.FramesOf, Contains, TablesSized;
    CoreShape(s, ram);
    var caps := Caps(s, i);
    var domain, region := ObjectOf(caps, dom, IommuDomain, WRITE), ObjectOf(caps, reg, RegionCap, READ);
    if domain.Some? && region.Some? && TablesSized(s.mem) {
      assert AgreeAt(s, i);
      MapDmaMaps(s.mem, ram, i, domain.value, region.value, caps[reg].rights);
      DriverOwns(s, ram, i, dom, reg);
      var n := S.MapDma(s.mem, i, domain.value, region.value, caps[reg].rights).m;
      forall e, d | A.Occupied(s.auth, e) && A.CapAt(s.auth, e).ty == RegionCap
                    && Owns(n.regions, A.CapAt(s.auth, e).obj, e.id) && 0 <= d < |n.devs|
        ensures MappedAs(n.devs[d].dom.maps, M.FramesOf(n.regions, A.CapAt(s.auth, e).obj), A.CapAt(s.auth, e).rights)
      {
        assert MappedAs(s.mem.devs[d].dom.maps, M.FramesOf(s.mem.regions, A.CapAt(s.auth, e).obj), A.CapAt(s.auth, e).rights);
        MapDmaRights(s, ram, i, reg, n, e, d);
      }
    }
  }

  /** After the owner's mapping, every mapping of its regions still carries its rights. */
  lemma {:induction false} MapDmaRights(s: State, ram: set<nat>, i: nat, reg: nat, n: M.Mem, e: Endpoint, d: nat)
    requires Core(s, ram) && i < |s.auth.spaces| && A.Occupied(s.auth, e) && A.CapAt(s.auth, e).ty == RegionCap
    requires Owns(s.mem.regions, A.CapAt(s.auth, e).obj, e.id) && d < |s.mem.devs| == |n.devs|
    requires MappedAs(s.mem.devs[d].dom.maps, M.FramesOf(s.mem.regions, A.CapAt(s.auth, e).obj), A.CapAt(s.auth, e).rights)
    requires var f := Endpoint(i, s.auth.spaces[i].id, reg);
             && A.Occupied(s.auth, f) && A.CapAt(s.auth, f).ty == RegionCap && OwnsIfLive(s.mem.regions, A.CapAt(s.auth, f).obj, f.id)
             && forall a :: a in n.devs[d].dom.maps ==>
                  || (a in s.mem.devs[d].dom.maps && n.devs[d].dom.maps[a] == s.mem.devs[d].dom.maps[a])
                  || (n.devs[d].dom.maps[a].rights == A.CapAt(s.auth, f).rights
                      && n.devs[d].dom.maps[a].frame in M.FramesOf(s.mem.regions, A.CapAt(s.auth, f).obj))
    ensures MappedAs(n.devs[d].dom.maps, M.FramesOf(s.mem.regions, A.CapAt(s.auth, e).obj), A.CapAt(s.auth, e).rights)
  {
    hide Core, A.Occupied, A.CapAt, M.RegionAt, M.FramesOf, M.Conserved;
    CoreShape(s, ram);
    var f := Endpoint(i, s.auth.spaces[i].id, reg);
    var maps := n.devs[d].dom.maps;
    forall a | a in maps && maps[a].frame in M.FramesOf(s.mem.regions, A.CapAt(s.auth, e).obj)
      ensures maps[a].rights == A.CapAt(s.auth, e).rights
    {
      if !(a in s.mem.devs[d].dom.maps && maps[a] == s.mem.devs[d].dom.maps[a]) {
        SameFrameSameRegion(s.mem, ram, A.CapAt(s.auth, e).obj, A.CapAt(s.auth, f).obj, maps[a].frame);
        OneHolder(s, ram, e, f);
      }
    }
  }

  // ------------------------------------------------------------------- over runs

  lemma {:induction false} ServiceTenure(s: State, ram: set<nat>, call: Call)
    requires Core(s, ram) && Sized(s) && Tenured(s.auth, s.mem)
    requires s.current < MAX_PROCS && Receptive(s, s.current) && Feasible(s, s.current, call)
    ensures var t := Service(s, s.current, call); Tenured(t.auth, t.mem)
  {
    hide Core, Sized, Tenured, Feasible, ExitStep, RevokeStep, FreeRegionStep, MapDmaStep, UnmapDmaStep, SpawnStep, MakeRegionStep,
      SendStep, RecvStep, MapRegionStep, UnmapRegionStep, PollStep, WaitStep, MapBarStep, A.Keeps, Thinner, M.RegionsOk;
    var i := s.current;
    if call.Spawn? {
      SpawnTenure(s, ram, i, call.cap, call.give, call.request, call.load);
    } else if call.MakeRegion? {
      MakeRegionTenure(s, ram, i, call.cap, call.pages, call.got);
    } else if call.MapDma? {
      MapDmaTenure(s, ram, i, call.dom, call.reg);
    } else {
      ServiceTamed(s, ram, call);
      CoreShape(s, ram);
      Distinct(s.mem);
      TamedTenure(s.auth, Service(s, i, call).auth, s.mem, Service(s, i, call).mem);
    }
  }

  lemma {:induction false} Distinct(m: M.Mem)
    requires M.RegionsOk(m.regions, m.nextRegion)
    ensures M.DistinctIds(m.regions)
  {}

  lemma {:induction false} StepTenure(s: State, ram: set<nat>, e: Event)
    requires Inv(s, ram) && Enabled(s, e) && Tenured(s.auth, s.mem)
    ensures Tenured(Step(s, e).auth, Step(s, e).mem)
  {
    hide Body, A.Sound, Service, V.Collected, Verdict, CreditTo, S.Cached, Tenured, Feasible, Sized;
    match e
    case Syscall(call, taken) =>
      ServiceTenure(s, ram, call);
      ServiceCore(s, ram, call);
      BodySized(Service(s, s.current, call), ram);
      DispatchInv(Service(s, s.current, call), ram, taken);
    case Interrupt(line, taken) => CreditSame(s, line, MAX_PROCS);
    case UnitCaches(d, slot) => CachedTenure(s.auth, s.mem, d, slot);
  }

  lemma {:induction false} CreditSame(s: State, line: nat, n: nat)
    requires Sized(s) && line < MAX_IRQ_LINES && n <= MAX_PROCS
    ensures CreditTo(s, line, n).auth == s.auth && CreditTo(s, line, n).mem == s.mem
  {
    hide Holds;
    if n > 0 { CreditSame(s, line, n - 1); }
  }

  lemma {:induction false} CachedTenure(a: A.Auth, m: M.Mem, d: nat, slot: nat)
    requires Tenured(a, m) && d < |m.devs|
    ensures Tenured(a, S.Cached(m, d, slot))
  {
    hide A.Occupied, A.CapAt, M.RegionAt, M.FramesOf, MappedAs;
    var n := S.Cached(m, d, slot);
    assert forall x :: 0 <= x < |m.devs| ==> n.devs[x].dom == m.devs[x].dom;
  }

  // ------------------------------------------------------------------- quotas

  /** The table slots of the live regions an identity owns. */
  function Owned(rs: seq<M.Region>, id: nat): set<nat> {
    set k: nat | k < |rs| && rs[k].live && rs[k].owner == id
  }

  ghost predicate WithinQuota(rs: seq<M.Region>) {
    forall id: nat :: |Owned(rs, id)| <= REGION_QUOTA
  }

  /** The kernel's count is the number of regions owned. */
  lemma {:induction false} CountsOwned(rs: seq<M.Region>, id: nat)
    ensures OwnedCount(rs, id) == |Owned(rs, id)|
  {
    if rs != [] {
      var n := |rs| - 1;
      CountsOwned(rs[..n], id);
      var last := if rs[n].live && rs[n].owner == id then {n} else {};
      assert Owned(rs, id) == Owned(rs[..n], id) + last;
    }
  }

  lemma {:induction false} FewerWithinQuota(rs: seq<M.Region>, ss: seq<M.Region>)
    requires WithinQuota(rs) && |ss| == |rs| && forall i :: 0 <= i < |rs| && ss[i].live ==> ss[i] == rs[i]
    ensures WithinQuota(ss)
  {
    forall id: nat ensures |Owned(ss, id)| <= REGION_QUOTA { CardinalitySubset(Owned(ss, id), Owned(rs, id)); }
  }

  lemma {:induction false} CardinalitySubset(a: set<nat>, b: set<nat>)
    requires a <= b
    ensures |a| <= |b|
  {
    assert b == a + (b - a);
  }

  /** One more region, for an owner the kernel counted below the quota. */
  lemma {:induction false} OneMoreWithinQuota(rs: seq<M.Region>, k: nat, x: M.Region)
    requires WithinQuota(rs) && k < |rs| && !rs[k].live && OwnedCount(rs, x.owner) < REGION_QUOTA
    ensures WithinQuota(rs[k := x])
  {
    CountsOwned(rs, x.owner);
    var ss := rs[k := x];
    forall id: nat ensures |Owned(ss, id)| <= REGION_QUOTA {
      var more := if x.live && id == x.owner then {k} else {};
      assert Owned(ss, id) == Owned(rs, id) + more;
    }
  }

  lemma {:induction false} MakeRegionQuota(s: State, i: nat, cap: nat, pages: nat, got: seq<nat>)
    requires Sized(s) && i < MAX_PROCS && WithinQuota(s.mem.regions)
    ensures WithinQuota(MakeRegionStep(s, i, cap, pages, got).mem.regions)
  {
    hide WithinQuota, OwnedCount, FreeRegionSlot, A.Minted, L.SetOf, MayMint, CanInsert, FirstFree;
    var slot := FreeRegionSlot(s.mem.regions);
    if slot < |s.mem.regions| && OwnedCount(s.mem.regions, s.mem.spaces[i].id) < REGION_QUOTA {
      OneMoreWithinQuota(s.mem.regions, slot, M.Region(true, s.mem.nextRegion, s.mem.spaces[i].id, got));
    }
  }

  lemma {:induction false} NoRegionMade(s: State, i: nat, call: Call)
    requires Sized(s) && i < MAX_PROCS && (call.Spawn? || call.MapDma?)
    ensures Service(s, i, call).mem.regions == s.mem.regions
  {
    hide FirstFree, Intersect, Contains, LiveCount, L.SetOf, FreeSlot, A.Delegated, A.Born, D.MapPages, D.FindRun, S.FreeRecord, M.RegionsOk;
  }

  lemma {:induction false} ServiceQuota(s: State, ram: set<nat>, call: Call)
    requires Core(s, ram) && Sized(s) && WithinQuota(s.mem.regions)
    requires s.current < MAX_PROCS && Receptive(s, s.current) && Feasible(s, s.current, call)
    ensures WithinQuota(Service(s, s.current, call).mem.regions)
  {
    hide Core, Sized, WithinQuota, Feasible, ExitStep, RevokeStep, FreeRegionStep, MapDmaStep, UnmapDmaStep, SpawnStep, MakeRegionStep,
      SendStep, RecvStep, MapRegionStep, UnmapRegionStep, PollStep, WaitStep, MapBarStep, A.Keeps, Thin;
    var i := s.current;
    if call.MakeRegion? {
      MakeRegionQuota(s, i, call.cap, call.pages, call.got);
    } else if call.Spawn? || call.MapDma? {
      NoRegionMade(s, i, call);
    } else {
      ServiceTamed(s, ram, call);
      FewerWithinQuota(s.mem.regions, Service(s, i, call).mem.regions);
    }
  }

  lemma {:induction false} StepQuota(s: State, ram: set<nat>, e: Event)
    requires Inv(s, ram) && Enabled(s, e) && WithinQuota(s.mem.regions)
    ensures WithinQuota(Step(s, e).mem.regions)
  {
    hide Body, A.Sound, Service, V.Collected, Verdict, CreditTo, WithinQuota, Feasible, Sized;
    match e
    case Syscall(call, taken) =>
      ServiceQuota(s, ram, call);
      ServiceCore(s, ram, call);
      BodySized(Service(s, s.current, call), ram);
      DispatchInv(Service(s, s.current, call), ram, taken);
    case Interrupt(line, taken) => CreditSame(s, line, MAX_PROCS);
    case UnitCaches(d, slot) =>
  }

  // ------------------------------------------------------------------- boot

  ghost predicate NoRegions(a: A.Auth) {
    forall p, c :: 0 <= p < |a.spaces| && 0 <= c < |a.spaces[p].caps| ==> a.spaces[p].caps[c].ty != RegionCap
  }

  lemma {:induction false} NoRegionsTenure(a: A.Auth, m: M.Mem)
    requires NoRegions(a)
    ensures Tenured(a, m)
  {}

  lemma {:induction false} GrantedNoRegions(a: A.Auth, j: nat, caps: seq<Cap>, n: nat)
    requires j < |a.spaces| && n <= |caps| && |a.spaces[j].caps| == |a.spaces[j].stamps| == CAP_SLOTS
    requires NoRegions(a) && forall c :: c in caps ==> c.ty != RegionCap
    ensures NoRegions(Granted(a, j, caps, n))
  {
    if n > 0 { GrantedNoRegions(a, j, caps, n - 1); }
  }

  lemma {:induction false} BootedNoRegions(s: State, roles: seq<Role>, n: nat)
    requires Sized(s) && n <= |roles| <= MAX_PROCS && RolesOk(s, roles, n) && NoRegions(s.auth)
    ensures NoRegions(BootedTo(s, roles, n).auth)
  {
    hide Sized, Started, Granted, NoRegions, S.Available;
    if n > 0 {
      BootedNoRegions(s, roles, n - 1);
      var t := BootedTo(s, roles, n - 1);
      assert RoleOk(BootedTo(s, roles, n - 1), roles[n - 1]);
      if Sized(t) {
        Room(t);
        BornNoRegions(t.auth, n - 1);
        GrantedNoRegions(A.Born(t.auth, n - 1), n - 1, roles[n - 1].caps, |roles[n - 1].caps|);
      }
    }
  }

  lemma {:induction false} BornNoRegions(a: A.Auth, j: nat)
    requires j < |a.spaces| && NoRegions(a)
    ensures NoRegions(A.Born(a, j)) && |A.Born(a, j).spaces| == |a.spaces|
    ensures |A.Born(a, j).spaces[j].caps| == |A.Born(a, j).spaces[j].stamps| == CAP_SLOTS
  {}

  lemma {:induction false} PowerOnNoRegions(b: Setup)
    ensures NoRegions(PowerOn(b.ram, b.units).auth)
  {}

  lemma {:induction false} BootTenure(b: Setup)
    requires SetupOk(b)
    ensures Tenured(Boot(b).auth, Boot(b).mem)
  {
    hide BootedTo, RoleOk, Verdict, V.Collected, Core, PowerOn, Tenured;
    var s := PowerOn(b.ram, b.units);
    PowerOnNoRegions(b);
    BootedNoRegions(s, b.roles, |b.roles|);
    PowerOnCore(b.ram, b.units);
    BootedToCore(s, b.ram, b.roles, |b.roles|);
    DispatchInv(BootedTo(s, b.roles, |b.roles|), b.ram, b.taken);
    NoRegionsTenure(Boot(b).auth, Boot(b).mem);
  }

  lemma {:induction false} BootedRegions(s: State, roles: seq<Role>, n: nat)
    requires Sized(s) && n <= |roles| <= MAX_PROCS
    ensures BootedTo(s, roles, n).mem.regions == s.mem.regions
  {
    hide Granted, L.SetOf, Sized;
    if n > 0 { BootedRegions(s, roles, n - 1); }
  }

  lemma {:induction false} BootQuota(b: Setup)
    requires SetupOk(b)
    ensures WithinQuota(Boot(b).mem.regions)
  {
    hide BootedTo, RoleOk, Verdict, V.Collected, Core, PowerOn;
    var s := PowerOn(b.ram, b.units);
    PowerOnCore(b.ram, b.units);
    BootedToCore(s, b.ram, b.roles, |b.roles|);
    DispatchInv(BootedTo(s, b.roles, |b.roles|), b.ram, b.taken);
    BootedRegions(s, b.roles, |b.roles|);
    PowerOnRegions(b);
  }

  lemma {:induction false} PowerOnRegions(b: Setup)
    ensures WithinQuota(PowerOn(b.ram, b.units).mem.regions)
  {
    forall id: nat ensures Owned(PowerOn(b.ram, b.units).mem.regions, id) == {} {}
  }

  /** In every run nobody owns more live regions than the quota allows. */
  lemma {:induction false} AlwaysWithinQuota(b: Setup, es: seq<Event>)
    requires SetupOk(b) && Possible(Boot(b), es)
    ensures WithinQuota(Run(Boot(b), es).mem.regions)
  {
    hide SetupOk, Boot, Step, Enabled, Inv, WithinQuota;
    if es == [] {
      BootQuota(b);
    } else {
      var t := Run(Boot(b), es[..|es| - 1]);
      AlwaysInv(b, es[..|es| - 1]);
      InvSized(t, b.ram);
      AlwaysWithinQuota(b, es[..|es| - 1]);
      StepQuota(t, b.ram, es[|es| - 1]);
    }
  }

  /** In every run, what was minted names its holder's own region, and every device mapping of a
      region carries exactly its owner's rights. */
  lemma {:induction false} AlwaysTenured(b: Setup, es: seq<Event>)
    requires SetupOk(b) && Possible(Boot(b), es)
    ensures Tenured(Run(Boot(b), es).auth, Run(Boot(b), es).mem)
  {
    hide SetupOk, Boot, Step, Enabled, Inv, Tenured;
    if es == [] {
      BootTenure(b);
    } else {
      var t := Run(Boot(b), es[..|es| - 1]);
      AlwaysInv(b, es[..|es| - 1]);
      InvSized(t, b.ram);
      AlwaysTenured(b, es[..|es| - 1]);
      StepTenure(t, b.ram, es[|es| - 1]);
    }
  }
}
