/** Every run of the nucleus, from boot: the invariant, and what it means. */
module Runs {
  import opened Abi
  import opened Basics
  import opened Graph
  import opened Capabilities
  import opened Deleg
  import opened Sched
  import opened Machine
  import opened Invariant
  import MS = MemorySteps
  import LS = LifeSteps
  import A = Authority
  import M = Memory
  import S = Supply
  import V = Rendezvous
  import D = Dma

  // ------------------------------------------------------------------- the end of an entry

  lemma {:induction false} ResumeInv(s: State, ram: set<nat>, taken: bool)
    requires Core(s, ram) && CanResume(s)
    ensures Inv(Resume(s, taken), ram)
  {
    hide A.Sound, M.SoundBut, V.Sound, Held, V.Collected, Coherent, Backed;
    var i := s.run.q[s.run.cur];
    assert i in s.run.q;
    V.CollectedSound(s.rv, i, taken);
    CollectedPort(s.rv, i, taken);
    var t := Resume(s, taken);
    SameStateQueue(s.run, s.rv.ports, i, t.rv.ports[i]);
    ResumeBody(s, t, ram, i);
  }

  lemma {:induction false} ResumeBody(s: State, t: State, ram: set<nat>, i: nat)
    requires Body(s, ram) && i < |s.rv.ports| && V.Sound(t.rv)
    requires t == s.(rv := t.rv, current := t.current, mode := t.mode)
    requires |t.rv.ports| == |s.rv.ports| && t.rv.ports == s.rv.ports[i := t.rv.ports[i]]
    requires t.rv.ports[i].state == s.rv.ports[i].state && t.rv.ports[i].id == s.rv.ports[i].id
    requires QueueIs(t.run, t.rv.ports)
    ensures Body(t, ram)
  {
    hide M.SoundBut, V.Sound, Held, QueueIs;
    TalkBody(s, t, ram);
  }

  lemma {:induction false} CollectedPort(rv: V.Rv, i: nat, taken: bool)
    requires i < |rv.ports|
    ensures var o := V.Collected(rv, i, taken);
            && |o.ports| == |rv.ports| && o.ports == rv.ports[i := o.ports[i]]
            && o.ports[i].state == rv.ports[i].state && o.ports[i].id == rv.ports[i].id
  {}

  /** No interrupt waiter is ever past answering: a wait is parked only under authority that is
      then kept or taken away with the wait. */
  lemma {:induction false} NobodyHopeless(s: State, ram: set<nat>)
    requires Body(s, ram)
    ensures Sized(s) && WakeHopeless(s) == s
    ensures forall i :: 0 <= i < MAX_PROCS ==> !UncreditableWait(s, i)
  {
    hide M.SoundBut, V.Sound, QueueIs, SharesHeld, RecordsHeld, LinesHeld, RegionCapsOk, Creditable, BarHeld;
    forall i | 0 <= i < MAX_PROCS ensures !UncreditableWait(s, i) {
      assert HeldAt(s, i);
    }
    NobodyWoken(s, seq(MAX_PROCS, i requires 0 <= i < MAX_PROCS => UncreditableWait(s, i)), MAX_PROCS);
  }

  lemma {:induction false} NobodyWoken(s: State, wake: seq<bool>, n: nat)
    requires n <= |wake| <= |s.rv.ports| && forall i :: 0 <= i < |wake| ==> !wake[i]
    ensures WakeRefusedWhere(s, wake, n) == s
  {
    if n > 0 { NobodyWoken(s, wake, n - 1); }
  }

  lemma {:induction false} QueueResumes(s: State, ram: set<nat>)
    requires Body(s, ram)
    ensures CanResume(s) <==> s.run.q != []
  {
    hide M.SoundBut, V.Sound, Coherent, Backed;
    if s.run.q != [] { assert s.run.q[s.run.cur] in s.run.q; }
  }

  lemma {:induction false} DispatchInv(s: State, ram: set<nat>, taken: bool)
    requires Core(s, ram)
    ensures Sized(s) && Inv(Dispatch(s, taken), ram)
    ensures Dispatch(s, taken) == if s.run.q != [] && CanResume(s) then Resume(s, taken) else s.(mode := Verdict(s))
  {
    hide A.Sound, Body, Resume, Verdict;
    BodySized(s, ram);
    QueueResumes(s, ram);
    if CanResume(s) {
      ResumeInv(s, ram, taken);
    } else {
      NobodyHopeless(s, ram);
      ModeBody(s, ram, Verdict(s));
      SetModeSized(s, Verdict(s));
      VerdictHalts(s, s.(mode := Verdict(s)));
    }
  }

  /** The verdict is never to run, and depends only on the processes' states and capabilities. */
  lemma {:induction false} VerdictHalts(s: State, t: State)
    requires Sized(s) && Sized(t) && t.auth == s.auth
    requires forall i :: 0 <= i < MAX_PROCS ==> t.rv.ports[i] == s.rv.ports[i]
    ensures !Verdict(s).Running? && Verdict(t) == Verdict(s)
  {
    hide Creditable;
    forall i | 0 <= i < MAX_PROCS
      ensures t.rv.ports[i].state == s.rv.ports[i].state && Caps(t, i) == Caps(s, i) && Live(t, i) == Live(s, i)
    {}
  }

  lemma {:induction false} SetModeSized(s: State, mode: Mode)
    requires Sized(s)
    ensures Sized(s.(mode := mode))
  {}

  lemma {:induction false} ModeBody(s: State, ram: set<nat>, mode: Mode)
    requires Body(s, ram)
    ensures Body(s.(mode := mode), ram)
  {
    hide M.SoundBut, V.Sound, QueueIs, Held;
    var t := s.(mode := mode);
    forall i | 0 <= i < MAX_PROCS ensures HeldAt(t, i) && AgreeAt(t, i) { assert HeldAt(s, i) && AgreeAt(s, i); }
  }

  // ------------------------------------------------------------------- one step

  lemma {:induction false} YieldCore(s: State, ram: set<nat>)
    requires Core(s, ram)
    ensures Core(s.(run := Next(s.run)), ram)
  {
    hide A.Sound, M.SoundBut, V.Sound, Held;
    NextOk(s.run);
    var t := s.(run := Next(s.run));
    forall i | 0 <= i < MAX_PROCS ensures HeldAt(t, i) && AgreeAt(t, i) { assert HeldAt(s, i) && AgreeAt(s, i); }
  }

  /** Servicing any system call of the running process. */
  lemma {:induction false} ServiceCore(s: State, ram: set<nat>, call: Call)
    requires Inv(s, ram) && s.mode.Running? && Sized(s) && s.current < MAX_PROCS && Feasible(s, s.current, call)
    ensures Core(Service(s, s.current, call), ram)
  {
    hide Body, A.Sound, Feasible, ExitStep, SendStep, RecvStep, SpawnStep, RevokeStep, MakeRegionStep, MapRegionStep,
      UnmapRegionStep, FreeRegionStep, MapDmaStep, UnmapDmaStep, PollStep, WaitStep, MapBarStep;
    var i := s.current;
    match call
    case Yield => YieldCore(s, ram);
    case Exit => LS.ExitCore(s, ram, i);
    case Send(cap, word, len, mem) => SendCore(s, ram, i, cap, word, len, mem);
    case Recv(cap, dst, max, writable, copied) => RecvCore(s, ram, i, cap, dst, max, writable, copied);
    case Spawn(cap, give, request, load) => LS.SpawnCore(s, ram, i, cap, give, request, load);
    case Revoke(cap, order) => LS.RevokeCore(s, ram, i, cap, order);
    case MakeRegion(cap, pages, got) => MS.MakeRegionCore(s, ram, i, cap, pages, got);
    case MapRegion(cap, tables, installed) => MS.MapRegionCore(s, ram, i, cap, tables, installed);
    case UnmapRegion(cap) => MS.UnmapRegionCore(s, ram, i, cap);
    case FreeRegion(cap) => MS.FreeRegionCore(s, ram, i, cap);
    case MapDma(dom, reg) => MS.MapDmaCore(s, ram, i, dom, reg);
    case UnmapDma(dom, reg) => MS.UnmapDmaCore(s, ram, i, dom, reg);
    case PollIrq(cap) => PollCore(s, ram, i, cap);
    case WaitIrq(cap) => WaitCore(s, ram, i, cap);
    case MapBar(cap, known, tables, installed, copied) => MS.MapBarCore(s, ram, i, cap, known, tables, installed, copied);
  }

  lemma {:induction false} InterruptInv(s: State, ram: set<nat>, line: nat, taken: bool)
    requires Inv(s, ram) && Sized(s) && (s.mode.Running? || s.mode.Idle?) && Delivers(line)
    ensures Inv(InterruptStep(s, line, taken), ram)
  {
    hide A.Sound, Body, Credit, Resume, Credited, Verdict;
    CreditCore(s, ram, line);
    var t := Credit(s, line);
    QueueResumes(t, ram);
    if s.mode.Idle? {
      if CanResume(t) { ResumeInv(t, ram, taken); } else { StillIdle(s, t, ram, line); }
    } else {
      YieldCore(t, ram);
      var u := if line == TIMER || s.current !in t.run.q then t.(run := Next(t.run)) else t;
      NextNonempty(t.run);
      QueueResumes(u, ram);
      ResumeInv(u, ram, taken);
    }
  }

  /** An interrupt that woke nobody changed no process's state. */
  lemma {:induction false} StillIdle(s: State, t: State, ram: set<nat>, line: nat)
    requires Credited(s, t, line, MAX_PROCS) && Body(t, ram) && t.run.q == []
    ensures Sized(s) && Sized(t) && Verdict(t) == Verdict(s)
  {
    hide M.SoundBut, V.Sound, Held, Holds, Verdict;
    forall i | 0 <= i < MAX_PROCS ensures t.rv.ports[i] == s.rv.ports[i] {
      assert t.rv.ports[i].state.Ready? ==> i in t.run.q;
    }
    VerdictHalts(s, t);
  }

  lemma {:induction false} NextNonempty(r: RunQ)
    ensures Next(r).q == r.q
  {}

  lemma {:induction false} UnitInv(s: State, ram: set<nat>, d: nat, slot: nat)
    requires Inv(s, ram) && d < |s.mem.devs|
    ensures Inv(s.(mem := S.Cached(s.mem, d, slot)), ram)
  {
    hide A.Sound, M.SoundBut, V.Sound, QueueIs, Held;
    S.CachedSound(s.mem, ram, d, slot);
    var t := s.(mem := S.Cached(s.mem, d, slot));
    VerdictHalts(s, t);
    forall i | 0 <= i < MAX_PROCS ensures HeldAt(t, i) && AgreeAt(t, i) { assert HeldAt(s, i) && AgreeAt(s, i); }
  }

  /** Every enabled kernel entry, and every unit's own step, keeps the invariant. */
  lemma {:induction false} StepInv(s: State, ram: set<nat>, e: Event)
    requires Inv(s, ram) && Enabled(s, e)
    ensures Inv(Step(s, e), ram)
  {
    hide A.Sound, Body, Service, Dispatch, InterruptStep, ModeOk, S.Cached;
    match e
    case Syscall(call, taken) =>
      ServiceCore(s, ram, call);
      BodySized(Service(s, s.current, call), ram);
      DispatchInv(Service(s, s.current, call), ram, taken);
    case Interrupt(line, taken) => InterruptInv(s, ram, line, taken);
    case UnitCaches(d, slot) => UnitInv(s, ram, d, slot);
  }

  // ------------------------------------------------------------------- boot

  /** What the boot code loads: a process image's frames, and its role's capabilities. */
  datatype Role = Role(caps: seq<Cap>, frames: seq<nat>)

  function NoSpace(): A.Space {
    A.Space(false, 0, seq(CAP_SLOTS, _ => EMPTY_CAP), seq(CAP_SLOTS, _ => 0))
  }

  function NoMemSpace(): M.Space {
    M.Space(false, 0, [], [0, 0, 0, 0], [M.NO_WINDOW, M.NO_WINDOW, M.NO_WINDOW, M.NO_WINDOW],
            [M.NO_RECORD, M.NO_RECORD, M.NO_RECORD, M.NO_RECORD])
  }

  function NoPort(): V.Port {
    V.Port(0, V.Free, seq(MAX_MSG_BYTES, _ => 0), 0, 0, 0, 0, 0, 0)
  }

  /** A domain as boot publishes it: an empty model, and an empty table or none. */
  function EmptyUnit(id: nat, table: bool): D.Device {
    D.Blank(id, table && id != 0)
  }

  /** The machine before any process exists. */
  function PowerOn(ram: set<nat>, units: seq<D.Device>): State {
    State(A.Auth(seq(MAX_PROCS, _ => NoSpace()), seq(MAX_DELEGATIONS, _ => DEAD), [], 0),
          M.Mem(ram, seq(MAX_REGIONS, _ => M.NO_REGION), seq(MAX_PROCS, _ => NoMemSpace()), units, 1),
          V.Rv(seq(MAX_PROCS, _ => NoPort()), [], [], []),
          seq(MAX_PROCS, _ => Own(None, seq(MAX_IRQ_LINES, _ => Line(0, 0, 0, 0)))),
          RunQ([], 0), 0, AllDone, seq(MAX_IRQ_LINES, _ => 0))
  }

  /** The domains boot found: each its own identity, unclaimed slots zero. */
  ghost predicate UnitsOk(units: seq<D.Device>) {
    && |units| == MAX_DOMAINS
    && (forall d :: 0 <= d < |units| ==> units[d] == EmptyUnit(units[d].id, units[d].table))
    && (forall d, e :: 0 <= d < e < |units| && units[d].id != 0 ==> units[d].id != units[e].id)
  }

  lemma {:induction false} EmptyUnitOk(id: nat, table: bool)
    ensures D.DeviceOk(EmptyUnit(id, table))
  {}

  lemma {:induction false} PowerOnMem(ram: set<nat>, units: seq<D.Device>)
    requires UnitsOk(units)
    ensures M.Sound(PowerOn(ram, units).mem, ram)
  {
    hide D.DeviceOk, M.FramesOf;
    var m := PowerOn(ram, units).mem;
    M.SumEmpty(M.Held(m.spaces));
    M.SumEmpty(M.Shared(m.regions));
    forall d | 0 <= d < |m.devs| ensures D.DeviceOk(m.devs[d]) { EmptyUnitOk(m.devs[d].id, m.devs[d].table); }
  }

  lemma {:induction false} PowerOnAuth(ram: set<nat>, units: seq<D.Device>)
    ensures A.Sound(PowerOn(ram, units).auth)
  {
    var a := PowerOn(ram, units).auth;
    forall x ensures !Reach(Links(a.edges), x, x) {
      if Reach(Links(a.edges), x, x) { var c := FirstLink(Links(a.edges), x, x); }
    }
  }

  lemma {:induction false} PowerOnTalk(ram: set<nat>, units: seq<D.Device>)
    ensures var s := PowerOn(ram, units);
            V.Sound(s.rv) && QueueIs(s.run, s.rv.ports) && forall i :: 0 <= i < MAX_PROCS ==> !Live(s, i)
  {
    hide V.Sound, QueueIs;
    var ports := PowerOn(ram, units).rv.ports;
    forall i | 0 <= i < |ports| ensures ports[i].state.Free? && |ports[i].msg| == MAX_MSG_BYTES { assert ports[i] == NoPort(); }
    NobodyTalks(ports);
  }

  lemma {:induction false} NobodyTalks(ports: seq<V.Port>)
    requires forall i :: 0 <= i < |ports| ==> ports[i].state.Free? && |ports[i].msg| == MAX_MSG_BYTES
    ensures V.Sound(V.Rv(ports, [], [], [])) && QueueIs(RunQ([], 0), ports)
  {
    hide V.PortOk, V.MatchesOk, V.ReceiptsOk, QueueIs;
    forall i | 0 <= i < |ports| ensures V.PortOk(ports[i], [], [], []) { FreePortOk(ports[i]); }
    NoHistoryOk();
    NobodyQueued(ports);
  }

  lemma {:induction false} FreePortOk(p: V.Port)
    requires p.state.Free? && |p.msg| == MAX_MSG_BYTES
    ensures V.PortOk(p, [], [], [])
  {}

  lemma {:induction false} NoHistoryOk()
    ensures V.MatchesOk([], []) && V.ReceiptsOk([], [], [])
  {}

  lemma {:induction false} NobodyQueued(ports: seq<V.Port>)
    requires forall i :: 0 <= i < |ports| ==> ports[i].state.Free?
    ensures QueueIs(RunQ([], 0), ports)
  {}

  lemma {:induction false} PowerOnSized(ram: set<nat>, units: seq<D.Device>)
    ensures Sized(PowerOn(ram, units))
    ensures forall i :: 0 <= i < MAX_PROCS ==> AgreeAt(PowerOn(ram, units), i)
  {
    hide EmptyUnit;
    var s := PowerOn(ram, units);
    forall i | 0 <= i < MAX_PROCS
      ensures s.auth.spaces[i] == NoSpace() && s.mem.spaces[i] == NoMemSpace() && s.rv.ports[i] == NoPort()
    {}
  }

  lemma {:induction false} PowerOnCore(ram: set<nat>, units: seq<D.Device>)
    requires UnitsOk(units)
    ensures Core(PowerOn(ram, units), ram) && Sized(PowerOn(ram, units))
    ensures forall i :: 0 <= i < MAX_PROCS ==> !Live(PowerOn(ram, units), i)
  {
    hide A.Sound, M.SoundBut, Held, PowerOn, Sized, V.Sound, QueueIs, Live, AgreeAt, UnitsOk;
    PowerOnMem(ram, units);
    PowerOnAuth(ram, units);
    PowerOnTalk(ram, units);
    PowerOnSized(ram, units);
  }

  /** Capabilities of a role, inserted one by one. */
  function Granted(a: A.Auth, j: nat, caps: seq<Cap>, n: nat): (b: A.Auth)
    requires j < |a.spaces| && n <= |caps| && |a.spaces[j].caps| == |a.spaces[j].stamps| == CAP_SLOTS
    ensures |b.spaces| == |a.spaces| && |b.spaces[j].caps| == |b.spaces[j].stamps| == CAP_SLOTS
    ensures b.spaces[j].live == a.spaces[j].live && b.spaces[j].id == a.spaces[j].id && b.nextId == a.nextId
    ensures forall q :: 0 <= q < |a.spaces| && q != j ==> b.spaces[q] == a.spaces[q]
  {
    if n == 0 then a else A.Minted(Granted(a, j, caps, n - 1), j, caps[n - 1])
  }

  /** Role tables contain no region: regions are only ever minted. */
  ghost predicate RoleOk(s: State, r: Role) {
    && S.Available(s.mem.pool, r.frames) && |r.frames| <= MAX_PROC_FRAMES
    && forall c :: c in r.caps ==> c.ty != RegionCap
  }

  /** Load one process at boot, in table slot `j`. */
  ghost function Booted(s: State, j: nat, r: Role): State
    requires Sized(s) && j < MAX_PROCS
  {
    Started(s, j, s.auth.nextId, r.frames).(auth := Granted(A.Born(s.auth, j), j, r.caps, |r.caps|))
  }

  lemma {:induction false} GrantedSound(a: A.Auth, j: nat, caps: seq<Cap>, n: nat)
    requires A.Sound(a) && j < |a.spaces| && a.spaces[j].live && n <= |caps|
    requires |a.spaces[j].caps| == |a.spaces[j].stamps| == CAP_SLOTS
    requires forall c :: c in caps ==> c.ty != RegionCap
    requires forall k :: 0 <= k < CAP_SLOTS ==> a.spaces[j].caps[k].ty != RegionCap
    requires A.Ungiven(a, j)
    ensures A.Sound(Granted(a, j, caps, n)) && A.Ungiven(Granted(a, j, caps, n), j)
    ensures forall k :: 0 <= k < CAP_SLOTS ==> Granted(a, j, caps, n).spaces[j].caps[k].ty != RegionCap
  {
    hide A.Sound, A.Ungiven;
    if n > 0 {
      GrantedSound(a, j, caps, n - 1);
      A.MintedUngiven(Granted(a, j, caps, n - 1), j, caps[n - 1]);
      A.MintedSound(Granted(a, j, caps, n - 1), j, caps[n - 1]);
    }
  }

  lemma {:induction false} BootedCore(s: State, ram: set<nat>, j: nat, r: Role)
    requires Core(s, ram) && Sized(s) && j < MAX_PROCS && !Live(s, j) && RoleOk(s, r)
    ensures Core(Booted(s, j, r), ram) && Sized(Booted(s, j, r))
  {
    hide A.Sound, Body, Started;
    LS.BodyAgrees(s, ram, j);
    A.BornSound(s.auth, j);
    A.BornUngiven(s.auth, j);
    GrantedSound(A.Born(s.auth, j), j, r.caps, |r.caps|);
    LS.StartedCore(s, ram, j, Granted(A.Born(s.auth, j), j, r.caps, |r.caps|), r.frames);
  }

  /** The first `n` processes loaded, in order. */
  ghost function BootedTo(s: State, roles: seq<Role>, n: nat): State
    requires Sized(s) && n <= |roles| <= MAX_PROCS
  {
    if n == 0 then s
    else
      var t := BootedTo(s, roles, n - 1);
      if Sized(t) then Booted(t, n - 1, roles[n - 1]) else t
  }

  ghost predicate RolesOk(s: State, roles: seq<Role>, n: nat)
    requires Sized(s) && n <= |roles| <= MAX_PROCS
  {
    forall k: nat :: k < n ==> RoleOk(BootedTo(s, roles, k), roles[k])
  }

  lemma {:induction false} BootedToCore(s: State, ram: set<nat>, roles: seq<Role>, n: nat)
    requires Core(s, ram) && Sized(s) && n <= |roles| <= MAX_PROCS && RolesOk(s, roles, n)
    requires forall j :: 0 <= j < MAX_PROCS ==> !Live(s, j)
    ensures Core(BootedTo(s, roles, n), ram) && Sized(BootedTo(s, roles, n))
    ensures forall j :: n <= j < MAX_PROCS ==> !Live(BootedTo(s, roles, n), j)
  {
    hide Core, Booted, Sized, RoleOk;
    if n > 0 {
      BootedToCore(s, ram, roles, n - 1);
      var t := BootedTo(s, roles, n - 1);
      BootedCore(t, ram, n - 1, roles[n - 1]);
      BootedOne(t, n - 1, roles[n - 1]);
    }
  }

  lemma {:induction false} BootedOne(s: State, j: nat, r: Role)
    requires Sized(s) && j < MAX_PROCS
    ensures forall q :: 0 <= q < MAX_PROCS && q != j ==> Live(Booted(s, j, r), q) == Live(s, q)
  {}

  /** A machine booted on these frames, with these domains and these initial processes. */
  datatype Setup = Setup(ram: set<nat>, units: seq<D.Device>, roles: seq<Role>, taken: bool)

  ghost predicate SetupOk(b: Setup) {
    && UnitsOk(b.units) && |b.roles| <= MAX_PROCS
    && Sized(PowerOn(b.ram, b.units)) && RolesOk(PowerOn(b.ram, b.units), b.roles, |b.roles|)
  }

  ghost function Boot(b: Setup): State
    requires SetupOk(b)
  {
    var t := BootedTo(PowerOn(b.ram, b.units), b.roles, |b.roles|);
    if Sized(t) then Dispatch(t, b.taken) else t
  }

  lemma {:induction false} BootInv(b: Setup)
    requires SetupOk(b)
    ensures Inv(Boot(b), b.ram)
  {
    hide Core, Booted, RoleOk, Dispatch, Inv;
    var s := PowerOn(b.ram, b.units);
    PowerOnCore(b.ram, b.units);
    BootedToCore(s, b.ram, b.roles, |b.roles|);
    DispatchInv(BootedTo(s, b.roles, |b.roles|), b.ram, b.taken);
  }

  // ------------------------------------------------------------------- runs

  /** The state after a sequence of events. */
  ghost function Run(s: State, es: seq<Event>): State {
    if es == [] then s
    else
      var t := Run(s, es[..|es| - 1]);
      if Sized(t) then Step(t, es[|es| - 1]) else t
  }

  /** Each event was possible when it happened. */
  ghost predicate Possible(s: State, es: seq<Event>) {
    es == [] || (Possible(s, es[..|es| - 1]) && Enabled(Run(s, es[..|es| - 1]), es[|es| - 1]))
  }

  /** The invariant holds at every kernel-entry boundary of every run from every boot. */
  lemma {:induction false} AlwaysInv(b: Setup, es: seq<Event>)
    requires SetupOk(b) && Possible(Boot(b), es)
    ensures Inv(Run(Boot(b), es), b.ram)
  {
    hide Inv, SetupOk, Boot, Enabled, Step;
    if es == [] {
      BootInv(b);
    } else {
      AlwaysInv(b, es[..|es| - 1]);
      var t := Run(Boot(b), es[..|es| - 1]);
      InvSized(t, b.ram);
      StepInv(t, b.ram, es[|es| - 1]);
    }
  }

  lemma {:induction false} InvSized(s: State, ram: set<nat>)
    requires Inv(s, ram)
    ensures Sized(s) && M.Sound(s.mem, ram) && V.Sound(s.rv) && A.Sound(s.auth) && QueueIs(s.run, s.rv.ports) && ModeOk(s)
    ensures forall i :: 0 <= i < MAX_PROCS ==> AgreeAt(s, i) && HeldAt(s, i)
  {
    hide A.Sound, M.SoundBut, V.Sound, QueueIs, Held;
  }
}
