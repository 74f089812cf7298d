/** The nucleus as a state machine: one step per kernel entry, over the authority, memory,
    message-passing and scheduling state together. */
module Machine {
  import opened Abi
  import opened Basics
  import opened Capabilities
  import opened Deleg
  import opened Sched
  import A = Authority
  import M = Memory
  import L = Lifetime
  import P = Plans
  import S = Supply
  import V = Rendezvous
  import D = Dma
  import R = Regions

  /** One interrupt line of one process: uncollected interrupts, and the history of the rest:
      the line's count when the process was loaded, what it has collected, what saturation lost. */
  datatype Line = Line(pending: nat, since: nat, returned: nat, dropped: nat)

  /** A mapped device window: the physical base it shows, and whether it may be written. */
  datatype Bar = Bar(base: nat, writable: bool)

  /** What else a process has: its device window, if one is mapped, and its interrupt lines. */
  datatype Own = Own(bar: Option<Bar>, irq: seq<Line>)

  datatype Mode = Running | Idle | Deadlocked | AllDone

  /** The process table is split by concern: entry `i` of each part is process-table slot `i`.
      `fired` counts every line's interrupts. */
  datatype State = State(auth: A.Auth, mem: M.Mem, rv: V.Rv, own: seq<Own>,
                         run: RunQ, current: nat, mode: Mode, fired: seq<nat>)

  const TIMER := 0
  const CONSOLE := 1
  const U64_MAX := 0xFFFF_FFFF_FFFF_FFFF

  const SPAWN_NO_CAP := U64_MAX
  const SPAWN_NO_DELEGATE := U64_MAX - 1
  const SPAWN_NO_SLOT := U64_MAX - 2
  const SPAWN_NO_MEM := U64_MAX - 3

  /** The lines the kernel delivers at all. */
  predicate Delivers(line: nat) {
    line == TIMER || line == CONSOLE
  }

  // ------------------------------------------------------------------- events

  /** A system call, with what the world contributes to it: what the caller's memory holds or
      accepts, which free frames the allocator yields, in which order the ledger reports. */
  datatype Call =
    | Yield
    | Exit
    | Send(cap: nat, word: nat, len: nat, mem: seq<nat>)
    | Recv(cap: nat, dst: nat, max: nat, writable: bool, copied: bool)
    | Spawn(cap: nat, give: Option<nat>, request: bv64, load: Option<seq<nat>>)
    | Revoke(cap: nat, order: seq<Endpoint>)
    | MakeRegion(cap: nat, pages: nat, got: seq<nat>)
    | MapRegion(cap: nat, tables: seq<nat>, installed: bool)
    | UnmapRegion(cap: nat)
    | FreeRegion(cap: nat)
    | MapDma(dom: nat, reg: nat)
    | UnmapDma(dom: nat, reg: nat)
    | PollIrq(cap: nat)
    | WaitIrq(cap: nat)
    | MapBar(cap: nat, known: bool, tables: seq<nat>, installed: bool, copied: bool)

  /** A kernel entry, or a unit caching a table entry between two. `taken` says whether the process
      resumed afterwards accepts the copy it is owed. A fault is an `Exit` the process did not
      choose. */
  datatype Event =
    | Syscall(call: Call, taken: bool)
    | Interrupt(line: nat, taken: bool)
    | UnitCaches(d: nat, slot: nat)

  // ------------------------------------------------------------------- small changes

  ghost predicate Sized(s: State) {
    && |s.auth.spaces| == |s.mem.spaces| == |s.rv.ports| == |s.own| == MAX_PROCS
    && |s.fired| == MAX_IRQ_LINES
    && (forall i :: 0 <= i < MAX_PROCS ==>
          |s.auth.spaces[i].caps| == |s.auth.spaces[i].stamps| == CAP_SLOTS && |s.own[i].irq| == MAX_IRQ_LINES
          && |s.mem.spaces[i].dma| == |s.mem.spaces[i].shares| == |s.mem.spaces[i].windows| == SHARE_SLOTS)
  }

  predicate Live(s: State, i: nat) {
    i < |s.rv.ports| && !s.rv.ports[i].state.Free?
  }

  function Caps(s: State, i: nat): seq<Cap>
    requires i < |s.auth.spaces|
  {
    s.auth.spaces[i].caps
  }

  /** Slot `i` of the message-passing table becomes `p`. */
  function SetPort(s: State, i: nat, p: V.Port): State
    requires i < |s.rv.ports|
  {
    s.(rv := s.rv.(ports := s.rv.ports[i := p]))
  }

  function Return(s: State, i: nat, r0: nat): State
    requires i < |s.rv.ports|
  {
    SetPort(s, i, s.rv.ports[i].(r0 := r0))
  }

  function Return3(s: State, i: nat, r0: nat, r1: nat, r2: nat): State
    requires i < |s.rv.ports|
  {
    SetPort(s, i, s.rv.ports[i].(r0 := r0, r1 := r1, r2 := r2))
  }

  /** Make a blocked process runnable with status `r0`. */
  function Wake(s: State, i: nat, r0: nat): State
    requires i < |s.rv.ports|
  {
    SetPort(s, i, s.rv.ports[i].(state := V.Ready, r0 := r0)).(run := Add(s.run, i))
  }

  /** Wake a process whose rendezvous or wait can never happen. Exactly the registers its call
      returns are written: three for a receiver, one otherwise. */
  function WakeRefused(s: State, i: nat): State
    requires i < |s.rv.ports|
  {
    var p := s.rv.ports[i];
    var q := if p.state.BlockedRecv? then p.(r0 := NO_CAP, r1 := 0, r2 := 0) else p.(r0 := NO_CAP);
    SetPort(s, i, q.(state := V.Ready, pending := 0)).(run := Add(s.run, i))
  }

  function WakeRefusedWhere(s: State, wake: seq<bool>, n: nat): (t: State)
    requires n <= |wake| <= |s.rv.ports|
    ensures |t.rv.ports| == |s.rv.ports|
  {
    if n == 0 then s
    else
      var t := WakeRefusedWhere(s, wake, n - 1);
      if wake[n - 1] then WakeRefused(t, n - 1) else t
  }

  function Block(s: State, i: nat, state: V.PState): State
    requires i < |s.rv.ports|
  {
    SetPort(s, i, s.rv.ports[i].(state := state)).(run := Remove(s.run, i))
  }

  function SetLine(s: State, i: nat, line: nat, l: Line): State
    requires i < |s.own| && line < |s.own[i].irq|
  {
    s.(own := s.own[i := s.own[i].(irq := s.own[i].irq[line := l])])
  }

  // ------------------------------------------------------------------- interrupts

  /** Can a wait on `line` by a holder of `caps` ever be answered? */
  predicate Creditable(caps: seq<Cap>, line: nat) {
    Delivers(line) && Holds(caps, Irq, line, READ)
  }

  function Take(l: Line): Line {
    l.(pending := 0, returned := l.returned + l.pending)
  }

  /** One more uncollected interrupt, if the counter can still grow. */
  function Accrue(l: Line): Line {
    if l.pending < U64_MAX then l.(pending := l.pending + 1) else l.(dropped := l.dropped + 1)
  }

  /** Process `i` is credited if it holds the line, and woken if it was waiting for it. */
  function CreditOne(s: State, line: nat, i: nat): State
    requires i < |s.rv.ports| && i < |s.own| && i < |s.auth.spaces| && line < |s.own[i].irq|
  {
    if Live(s, i) && Holds(Caps(s, i), Irq, line, READ) then
      var l := Accrue(s.own[i].irq[line]);
      if s.rv.ports[i].state == V.BlockedIrq(line) then Wake(SetLine(s, i, line, Take(l)), i, l.pending)
      else SetLine(s, i, line, l)
    else s
  }

  ghost function CreditTo(s: State, line: nat, n: nat): (t: State)
    requires Sized(s) && line < MAX_IRQ_LINES && n <= MAX_PROCS
    ensures Sized(t)
  {
    if n == 0 then s.(fired := s.fired[line := s.fired[line] + 1])
    else CreditOne(CreditTo(s, line, n - 1), line, n - 1)
  }

  ghost function Credit(s: State, line: nat): (t: State)
    requires Sized(s)
    ensures Sized(t)
  {
    if line < MAX_IRQ_LINES then CreditTo(s, line, MAX_PROCS) else s
  }

  ghost function PollStep(s: State, i: nat, cap: nat): State
    requires Sized(s) && i < MAX_PROCS
  {
    var line := ObjectOf(Caps(s, i), cap, Irq, READ);
    if line.None? then Return(s, i, NO_CAP)
    else if line.value < MAX_IRQ_LINES then
      var l := s.own[i].irq[line.value];
      Return(SetLine(s, i, line.value, Take(l)), i, l.pending)
    else Return(s, i, 0)
  }

  ghost function WaitStep(s: State, i: nat, cap: nat): State
    requires Sized(s) && i < MAX_PROCS
  {
    var line := ObjectOf(Caps(s, i), cap, Irq, READ);
    if line.None? then Return(s, i, NO_CAP)
    else if Delivers(line.value) then
      var l := s.own[i].irq[line.value];
      if l.pending > 0 then Return(SetLine(s, i, line.value, Take(l)), i, l.pending)
      else Block(s, i, V.BlockedIrq(line.value))
    else Return(s, i, 0)
  }

  // ------------------------------------------------------------------- SEND and RECV

  function SendStep(s: State, i: nat, cap: nat, word: nat, len: nat, mem: seq<nat>): State
    requires i < |s.auth.spaces| && i < |s.rv.ports|
  {
    var ep := ObjectOf(Caps(s, i), cap, EndpointCap, WRITE);
    if ep.None? then Return(s, i, NO_CAP)
    else if len > MAX_MSG_BYTES then Return(s, i, FAULT)
    else
      var r := V.FindRecv(s.rv.ports, ep.value);
      if r < |s.rv.ports| then
        if V.Min(len, s.rv.ports[r].state.max) > |mem| then Return(s, i, FAULT)
        else s.(rv := V.SendMatched(s.rv, i, r, word, len, mem), run := Add(s.run, r))
      else if len > |mem| then Return(s, i, FAULT)
      else s.(rv := V.SendParked(s.rv, i, ep.value, word, len, mem), run := Remove(s.run, i))
  }

  function RecvStep(s: State, i: nat, cap: nat, dst: nat, want: nat, writable: bool, copied: bool): State
    requires i < |s.auth.spaces| && i < |s.rv.ports|
  {
    var max := V.Min(want, MAX_MSG_BYTES);
    if max > 0 && !writable then Return3(s, i, FAULT, 0, 0)
    else
      var ep := ObjectOf(Caps(s, i), cap, EndpointCap, READ);
      if ep.None? then Return3(s, i, NO_CAP, 0, 0)
      else
        var q := V.FindSend(s.rv.ports, ep.value);
        if q < |s.rv.ports| then
          if V.Min(s.rv.ports[q].state.len, max) > 0 && !copied then Return3(s, i, FAULT, 0, 0)
          else s.(rv := V.RecvMatched(s.rv, i, q, max), run := Add(s.run, q))
        else s.(rv := V.RecvParked(s.rv, i, ep.value, dst, max), run := Remove(s.run, i))
  }

  // ------------------------------------------------------------------- creating and destroying processes

  function FreeSlot(ports: seq<V.Port>): (i: nat)
    ensures i <= |ports|
    ensures i < |ports| ==> ports[i].state.Free?
    ensures forall j :: 0 <= j < i ==> !ports[j].state.Free?
  {
    if ports == [] then 0
    else
      var i := FreeSlot(ports[..|ports| - 1]);
      if i < |ports| - 1 || ports[|ports| - 1].state.Free? then i else |ports|
  }

  function NewOwn(fired: seq<nat>): Own {
    Own(None, seq(|fired|, line requires 0 <= line < |fired| => Line(0, fired[line], 0, 0)))
  }

  /** A fresh process starts with clear registers and nothing owed. */
  function NewPort(p: V.Port, id: nat): V.Port {
    p.(id := id, state := V.Ready, pending := 0, r0 := 0, r1 := 0, r2 := 0)
  }

  /** Everything about slot `j` but its capabilities, for a process just built from frames `fs`. */
  function Started(s: State, j: nat, id: nat, fs: seq<nat>): State
    requires j < |s.mem.spaces| && j < |s.rv.ports| && j < |s.own|
  {
    s.(mem := S.Load(s.mem, j, id, fs), own := s.own[j := NewOwn(s.fired)],
       rv := s.rv.(ports := s.rv.ports[j := NewPort(s.rv.ports[j], id)]), run := Add(s.run, j))
  }

  predicate MayMint(caps: seq<Cap>, cap: nat) {
    cap < |caps| && IsMintSource(caps[cap].ty) && Contains(caps[cap].rights, WRITE)
  }

  ghost function SpawnStep(s: State, i: nat, cap: nat, give: Option<nat>, request: bv64, load: Option<seq<nat>>): State
    requires Sized(s) && i < MAX_PROCS
  {
    if !MayMint(Caps(s, i), cap) then Return(s, i, SPAWN_NO_CAP)
    else if give.Some? && !(Lookup(Caps(s, i), give.value).Some? && LiveCount(s.auth.edges) < |s.auth.edges|)
    then Return(s, i, SPAWN_NO_DELEGATE)
    else
      var j := FreeSlot(s.rv.ports);
      if j == MAX_PROCS then Return(s, i, SPAWN_NO_SLOT)
      else if load.None? then Return(s.(auth := A.Burned(s.auth)), i, SPAWN_NO_MEM)
      else
        var id := s.auth.nextId;
        var auth := if give.None? then A.Born(s.auth, j)
                    else A.Delegated(s.auth, i, give.value, j, Intersect(Caps(s, i)[give.value].rights, FromUser(request)));
        Return(Started(s, j, id, load.value).(auth := auth), i, id)
  }

  /** Every sweep a plan asks for. */
  ghost function SweptBy(a: A.Auth, steps: seq<R.Step>, n: nat): (b: A.Auth)
    requires n <= |steps|
    ensures |b.spaces| == |a.spaces|
  {
    if n == 0 then a
    else
      var b := SweptBy(a, steps, n - 1);
      if steps[n - 1].ForgetCaps? then A.Swept(b, steps[n - 1].region) else b
  }

  /** A region plan carried out: against memory, and against capabilities and the ledger. */
  ghost function Executed(s: State, plan: seq<R.Step>): State {
    s.(mem := P.RunPlan(s.mem, plan), auth := SweptBy(s.auth, plan, |plan|))
  }

  /** Someone other than `i` could still answer `i`'s rendezvous. */
  ghost predicate Answerable(s: State, i: nat, ep: nat, need: Rights)
    requires Sized(s)
  {
    exists j :: 0 <= j < MAX_PROCS && j != i && Live(s, j) && Holds(Caps(s, j), EndpointCap, ep, need)
  }

  ghost predicate StrandedByDeath(s: State, i: nat)
    requires Sized(s) && i < MAX_PROCS
  {
    match s.rv.ports[i].state
    case BlockedSend(ep, _, _) => !Answerable(s, i, ep, READ)
    case BlockedRecv(ep, _, _) => !Answerable(s, i, ep, WRITE)
    case _ => false
  }

  /** A process is gone: its device reach, its regions and windows, its frames, its place in the
      ledger, its slot and its turn. */
  ghost function Buried(s: State, i: nat): State
    requires Sized(s) && i < MAX_PROCS
  {
    var w := s.(mem := L.Withdrew(s.mem, i, P.EVERY_SLOT));
    var t := Executed(w, P.TeardownPlan(w.mem, i));
    t.(mem := P.Vacated(t.mem, i), auth := A.Died(t.auth, i),
       rv := t.rv.(ports := t.rv.ports[i := t.rv.ports[i].(state := V.Free)]), run := Remove(t.run, i))
  }

  /** Then every peer nobody can answer any more is woken. */
  ghost function ExitStep(s: State, i: nat): State
    requires Sized(s) && i < MAX_PROCS
  {
    var t := Buried(s, i);
    if Sized(t) then
      WakeRefusedWhere(t, seq(MAX_PROCS, j requires 0 <= j < MAX_PROCS => StrandedByDeath(t, j)), MAX_PROCS)
    else t
  }

  // ------------------------------------------------------------------- revocation

  /** Share slots whose region the process may no longer read. */
  ghost function LostShares(caps: seq<Cap>, shares: seq<nat>): (r: seq<bool>)
    ensures |r| == |shares|
  {
    seq(|shares|, k requires 0 <= k < |shares| => shares[k] != 0 && !Holds(caps, RegionCap, shares[k], READ))
  }

  /** Recorded device mappings the process no longer has both authorities for. */
  ghost function LostRecords(caps: seq<Cap>, dma: seq<M.Record>): (r: seq<bool>)
    ensures |r| == |dma|
  {
    seq(|dma|, k requires 0 <= k < |dma| =>
      dma[k].region != 0 && !(Holds(caps, RegionCap, dma[k].region, READ) && Holds(caps, IommuDomain, dma[k].domain, WRITE)))
  }

  function DropShares(m: M.Mem, p: nat, drop: seq<bool>, n: nat): (r: M.Mem)
    requires n <= |drop|
    ensures |r.spaces| == |m.spaces|
  {
    if n == 0 then m
    else if drop[n - 1] then L.DropShare(DropShares(m, p, drop, n - 1), p, n - 1)
    else DropShares(m, p, drop, n - 1)
  }

  ghost function KeptLines(caps: seq<Cap>, irq: seq<Line>): (r: seq<Line>)
    ensures |r| == |irq|
  {
    seq(|irq|, line requires 0 <= line < |irq| =>
      if Holds(caps, Irq, line, READ) then irq[line] else irq[line].(pending := 0))
  }

  /** A blocked process that no longer has the authority it blocked under. */
  predicate StrandedByLoss(caps: seq<Cap>, state: V.PState) {
    match state
    case BlockedSend(ep, _, _) => !Holds(caps, EndpointCap, ep, WRITE)
    case BlockedRecv(ep, _, _) => !Holds(caps, EndpointCap, ep, READ)
    case BlockedIrq(line) => !Creditable(caps, line)
    case _ => false
  }

  /** Take from process `p` everything its remaining capabilities do not authorize. */
  ghost function Stripped(s: State, p: nat): State
    requires Sized(s) && p < MAX_PROCS
  {
    var caps := Caps(s, p);
    var m := DropShares(s.mem, p, LostShares(caps, s.mem.spaces[p].shares), SHARE_SLOTS);
    var lost := LostRecords(caps, s.mem.spaces[p].dma);
    var mem := if |m.spaces[p].dma| == |lost| then L.Withdrew(m, p, lost) else m;
    var own := s.own[p].(bar := if HoldsMmio(caps) then s.own[p].bar else None, irq := KeptLines(caps, s.own[p].irq));
    var t := s.(mem := mem, own := s.own[p := own]);
    if StrandedByLoss(caps, s.rv.ports[p].state) then WakeRefused(t, p) else t
  }

  /** One reported endpoint: its slot is emptied, and its holder stripped. */
  ghost function RevokeOne(s: State, e: Endpoint): State
    requires Sized(s)
  {
    if e.proc < MAX_PROCS && Live(s, e.proc) && s.auth.spaces[e.proc].id == e.id
    then
      var t := s.(auth := A.Stricken(s.auth, e));
      if Sized(t) then Stripped(t, e.proc) else t
    else s
  }

  ghost function RevokeTo(s: State, order: seq<Endpoint>, n: nat): State
    requires Sized(s) && n <= |order|
  {
    if n == 0 then s
    else
      var t := RevokeTo(s, order, n - 1);
      if Sized(t) then RevokeOne(t, order[n - 1]) else t
  }

  ghost function RevokeStep(s: State, i: nat, cap: nat, order: seq<Endpoint>): State
    requires Sized(s) && i < MAX_PROCS
  {
    if Lookup(Caps(s, i), cap).None? then Return(s, i, NO_CAP)
    else
      var root := Endpoint(i, s.auth.spaces[i].id, cap);
      var t := RevokeTo(s.(auth := s.auth.(edges := Revoked(s.auth.edges, root))), order, |order|);
      if i < |t.rv.ports| then Return(t, i, OK) else t
  }

  // ------------------------------------------------------------------- regions

  /** How many live regions this identity owns. */
  function OwnedCount(rs: seq<M.Region>, id: nat): nat {
    if rs == [] then 0
    else OwnedCount(rs[..|rs| - 1], id) + if rs[|rs| - 1].live && rs[|rs| - 1].owner == id then 1 else 0
  }

  function FreeRegionSlot(rs: seq<M.Region>): (i: nat)
    ensures i <= |rs|
    ensures i < |rs| ==> !rs[i].live
    ensures forall j :: 0 <= j < i ==> rs[j].live
  {
    if rs == [] then 0
    else
      var i := FreeRegionSlot(rs[..|rs| - 1]);
      if i < |rs| - 1 || !rs[|rs| - 1].live then i else |rs|
  }

  ghost function MakeRegionStep(s: State, i: nat, cap: nat, pages: nat, got: seq<nat>): State
    requires Sized(s) && i < MAX_PROCS
  {
    var caps := Caps(s, i);
    if !MayMint(caps, cap) then Return(s, i, NO_CAP)
    else if !(1 <= pages <= REGION_MAX_PAGES) then Return(s, i, NO_MEM)
    else
      var slot := FreeRegionSlot(s.mem.regions);
      var region := Cap(RegionCap, caps[cap].rights, s.mem.nextRegion);
      if OwnedCount(s.mem.regions, s.mem.spaces[i].id) >= REGION_QUOTA || slot == |s.mem.regions|
         || s.mem.nextRegion >= U64_MAX || |got| < pages || !CanInsert(caps, region)
      then Return(s, i, NO_MEM)
      else
        Return(s.(auth := A.Minted(s.auth, i, region), mem := S.WithRegion(s.mem, i, slot, got)), i, FirstFree(caps))
  }

  /** The first share slot holding `id`, or the number of slots. */
  function ShareSlot(shares: seq<nat>, id: nat): (k: nat)
    ensures k <= |shares|
    ensures k < |shares| ==> shares[k] == id
    ensures forall j :: 0 <= j < k ==> shares[j] != id
  {
    if shares == [] then 0
    else if shares[0] == id then 0
    else 1 + ShareSlot(shares[1..], id)
  }

  /** The share slot a mapping of region `id` goes to: the one it has, or the first free one. */
  function MapSlot(shares: seq<nat>, id: nat): (k: nat)
    ensures k <= |shares|
    ensures k < |shares| ==> shares[k] == id || shares[k] == 0
  {
    var k := ShareSlot(shares, id);
    if k < |shares| then k else ShareSlot(shares, 0)
  }

  /** The address of a share slot, from the base of the share window. */
  function ShareVa(slot: nat): nat {
    slot * REGION_MAX_PAGES * S.PAGE_SIZE
  }

  ghost function MapRegionStep(s: State, i: nat, cap: nat, tables: seq<nat>, installed: bool): State
    requires Sized(s) && i < MAX_PROCS
  {
    var caps := Caps(s, i);
    var id := ObjectOf(caps, cap, RegionCap, READ);
    if id.None? then Return(s, i, NO_CAP)
    else
      var at := M.RegionAt(s.mem.regions, id.value);
      var shares := s.mem.spaces[i].shares;
      var k := MapSlot(shares, id.value);
      if at == |s.mem.regions| then Return(s, i, NO_CAP)
      else if k == |shares| then Return(s, i, NO_MEM)
      else
        var m := S.Charged(s.mem, i, tables);
        if installed then
          var w := M.Window(s.mem.regions[at].frames, Contains(caps[cap].rights, WRITE));
          Return(s.(mem := L.SetWindow(m, i, k, id.value, w)), i, ShareVa(k))
        else Return(s.(mem := L.SetWindow(m, i, k, shares[k], M.NO_WINDOW)), i, NO_MEM)
  }

  function SlotsShowing(shares: seq<nat>, id: nat): (r: seq<bool>)
    ensures |r| == |shares|
  {
    seq(|shares|, k requires 0 <= k < |shares| => shares[k] == id)
  }

  ghost function UnmapRegionStep(s: State, i: nat, cap: nat): State
    requires Sized(s) && i < MAX_PROCS
  {
    var held := Lookup(Caps(s, i), cap);
    var shares := s.mem.spaces[i].shares;
    if held.Some? && held.value.ty == RegionCap && held.value.obj in shares then
      Return(s.(mem := DropShares(s.mem, i, SlotsShowing(shares, held.value.obj), SHARE_SLOTS)), i, OK)
    else Return(s, i, NO_CAP)
  }

  ghost function FreeRegionStep(s: State, i: nat, cap: nat): State
    requires Sized(s) && i < MAX_PROCS
  {
    var id := ObjectOf(Caps(s, i), cap, RegionCap, WRITE);
    if id.None? then Return(s, i, NO_CAP)
    else
      var at := M.RegionAt(s.mem.regions, id.value);
      if at < |s.mem.regions| && s.mem.regions[at].owner == s.mem.spaces[i].id then
        Return(Executed(s, P.DestroyPlan(s.mem, id.value)), i, OK)
      else Return(s, i, NO_CAP)
  }

  // ------------------------------------------------------------------- device reach

  ghost predicate TablesSized(m: M.Mem) {
    && M.Shaped(m) && M.RegionsOk(m.regions, m.nextRegion)
    && forall d :: 0 <= d < |m.devs| ==> |m.devs[d].leaves| == D.L1_SLOTS
  }

  ghost function MapDmaStep(s: State, i: nat, dom: nat, reg: nat): State
    requires Sized(s) && i < MAX_PROCS
  {
    var caps := Caps(s, i);
    var domain, region := ObjectOf(caps, dom, IommuDomain, WRITE), ObjectOf(caps, reg, RegionCap, READ);
    if domain.Some? && region.Some? && TablesSized(s.mem) then
      var out := S.MapDma(s.mem, i, domain.value, region.value, caps[reg].rights);
      Return(s.(mem := out.m), i, out.ret)
    else Return(s, i, NO_CAP)
  }

  ghost function UnmapDmaStep(s: State, i: nat, dom: nat, reg: nat): State
    requires Sized(s) && i < MAX_PROCS
  {
    var caps := Caps(s, i);
    var domain, region := ObjectOf(caps, dom, IommuDomain, WRITE), ObjectOf(caps, reg, RegionCap, READ);
    if domain.None? || region.None? then Return(s, i, NO_CAP)
    else if forall d :: 0 <= d < |s.mem.devs| ==> s.mem.devs[d].id == 0 then Return(s, i, NO_MEM)
    else
      var d, at := M.DomainAt(s.mem.devs, domain.value), M.RegionAt(s.mem.regions, region.value);
      if d == |s.mem.devs| || at == |s.mem.regions| then Return(s, i, NO_CAP)
      else Return(s.(mem := L.UnmapDma(s.mem, i, d, at)), i, OK)
  }

  // ------------------------------------------------------------------- the device window

  ghost function MapBarStep(s: State, i: nat, cap: nat, known: bool, tables: seq<nat>, installed: bool, copied: bool): State
    requires Sized(s) && i < MAX_PROCS
  {
    var caps := Caps(s, i);
    if !(cap < |caps| && caps[cap].ty == Mmio && Contains(caps[cap].rights, READ)) then Return(s, i, NO_CAP)
    else if !known then Return(s, i, NO_MEM)
    else
      var bar := if installed && copied then Some(Bar(caps[cap].obj, Contains(caps[cap].rights, WRITE))) else None;
      var t := s.(mem := S.Charged(s.mem, i, tables), own := s.own[i := s.own[i].(bar := bar)]);
      Return(t, i, if !installed then NO_MEM else if copied then OK else FAULT)
  }

  // ------------------------------------------------------------------- one entry

  ghost function Service(s: State, i: nat, call: Call): State
    requires Sized(s) && i < MAX_PROCS
  {
    match call
    case Yield => s.(run := Next(s.run))
    case Exit => ExitStep(s, i)
    case Send(cap, word, len, mem) => SendStep(s, i, cap, word, len, mem)
    case Recv(cap, dst, max, writable, copied) => RecvStep(s, i, cap, dst, max, writable, copied)
    case Spawn(cap, give, request, load) => SpawnStep(s, i, cap, give, request, load)
    case Revoke(cap, order) => RevokeStep(s, i, cap, order)
    case MakeRegion(cap, pages, got) => MakeRegionStep(s, i, cap, pages, got)
    case MapRegion(cap, tables, installed) => MapRegionStep(s, i, cap, tables, installed)
    case UnmapRegion(cap) => UnmapRegionStep(s, i, cap)
    case FreeRegion(cap) => FreeRegionStep(s, i, cap)
    case MapDma(dom, reg) => MapDmaStep(s, i, dom, reg)
    case UnmapDma(dom, reg) => UnmapDmaStep(s, i, dom, reg)
    case PollIrq(cap) => PollStep(s, i, cap)
    case WaitIrq(cap) => WaitStep(s, i, cap)
    case MapBar(cap, known, tables, installed, copied) => MapBarStep(s, i, cap, known, tables, installed, copied)
  }

  ghost predicate UncreditableWait(s: State, i: nat)
    requires Sized(s) && i < MAX_PROCS
  {
    s.rv.ports[i].state.BlockedIrq? && !Creditable(Caps(s, i), s.rv.ports[i].state.line)
  }

  /** Interrupt waiters that can never be answered are woken before the machine is judged. */
  ghost function WakeHopeless(s: State): State
    requires Sized(s)
  {
    WakeRefusedWhere(s, seq(MAX_PROCS, i requires 0 <= i < MAX_PROCS => UncreditableWait(s, i)), MAX_PROCS)
  }

  /** With nothing runnable: wait for an interrupt, report a deadlock, or finish. */
  ghost function Verdict(s: State): Mode
    requires Sized(s)
  {
    if exists i :: 0 <= i < MAX_PROCS && s.rv.ports[i].state.BlockedIrq? && Creditable(Caps(s, i), s.rv.ports[i].state.line)
    then Idle
    else if exists i :: 0 <= i < MAX_PROCS && Live(s, i) then Deadlocked
    else AllDone
  }

  /** Resume whoever is current, first giving it the copy it is owed. */
  function Resume(s: State, taken: bool): State
    requires s.run.cur < |s.run.q| && s.run.q[s.run.cur] < |s.rv.ports|
  {
    var i := s.run.q[s.run.cur];
    s.(current := i, mode := Running, rv := V.Collected(s.rv, i, taken))
  }

  ghost predicate CanResume(s: State) {
    s.run.q != [] && s.run.cur < |s.run.q| && s.run.q[s.run.cur] < |s.rv.ports|
  }

  /** The end of every entry. */
  ghost function Dispatch(s: State, taken: bool): State
    requires Sized(s)
  {
    if CanResume(s) then Resume(s, taken)
    else
      var t := WakeHopeless(s);
      if !Sized(t) then t
      else if CanResume(t) then Resume(t, taken)
      else t.(mode := Verdict(t))
  }

  /** An interrupt credits its line's holders. The timer also ends the running process's turn; an
      interrupt taken while parked runs whoever it woke, or parks again. */
  ghost function InterruptStep(s: State, line: nat, taken: bool): State
    requires Sized(s)
  {
    var t := Credit(s, line);
    if s.mode.Idle? then if CanResume(t) then Resume(t, taken) else t
    else
      var u := if line == TIMER || s.current !in t.run.q then t.(run := Next(t.run)) else t;
      if CanResume(u) then Resume(u, taken) else u
  }

  ghost function Step(s: State, e: Event): State
    requires Sized(s)
  {
    match e
    case Syscall(call, taken) =>
      if s.current < MAX_PROCS && Sized(Service(s, s.current, call)) then Dispatch(Service(s, s.current, call), taken) else s
    case Interrupt(line, taken) => InterruptStep(s, line, taken)
    case UnitCaches(d, slot) => if d < |s.mem.devs| then s.(mem := S.Cached(s.mem, d, slot)) else s
  }

  // ------------------------------------------------------------------- what the world may do

  /** The allocator yields distinct free frames; the ledger reports what it killed, in some order. */
  ghost predicate Feasible(s: State, i: nat, call: Call)
    requires Sized(s) && i < MAX_PROCS
  {
    match call
    case Spawn(_, _, _, load) => load.Some? ==> S.Available(s.mem.pool, load.value) && |load.value| <= MAX_PROC_FRAMES
    case MakeRegion(_, pages, got) => S.Available(s.mem.pool, got) && |got| <= pages
    case MapRegion(_, tables, _) => S.Available(s.mem.pool, tables) && |s.mem.spaces[i].frames| + |tables| <= MAX_PROC_FRAMES
    case MapBar(_, _, tables, _, _) => S.Available(s.mem.pool, tables) && |s.mem.spaces[i].frames| + |tables| <= MAX_PROC_FRAMES
    case Revoke(cap, order) =>
      var root := Endpoint(i, s.auth.spaces[i].id, cap);
      multiset(order) == Killed(s.auth.edges, Revoked(s.auth.edges, root))
    case _ => true
  }

  ghost predicate Enabled(s: State, e: Event) {
    && Sized(s)
    && match e
       case Syscall(call, _) => s.mode.Running? && s.current < MAX_PROCS && Feasible(s, s.current, call)
       case Interrupt(line, _) => (s.mode.Running? || s.mode.Idle?) && Delivers(line)
       case UnitCaches(d, _) => d < |s.mem.devs|
  }
}
