/** What every run of the nucleus guarantees, read off its invariant. */
module Guarantees {
  import opened Abi
  import opened Basics
  import opened Graph
  import opened Capabilities
  import opened Deleg
  import opened Sched
  import opened Machine
  import opened Invariant
  import opened Runs
  import opened Tenure
  import A = Authority
  import M = Memory
  import L = Lifetime
  import S = Supply
  import V = Rendezvous
  import D = Dma
  import G = Agreement

  // ------------------------------------------------------------------- frames

  /** The frames of region `i` are free nowhere, are no process's own, and are no other region's. */
  ghost predicate OnlyIn(m: M.Mem, i: nat)
    requires i < |m.regions|
  {
    forall f :: f in m.regions[i].frames ==>
      && f !in m.pool
      && (forall j :: 0 <= j < |m.regions| && j != i ==> f !in m.regions[j].frames)
      && (forall p :: 0 <= p < |m.spaces| ==> f !in m.spaces[p].frames)
  }

  /** Frames are conserved, and each is in one place: the pool, one process's list or one region. */
  lemma {:induction false} FramesConserved(b: Setup, es: seq<Event>)
    requires SetupOk(b) && Possible(Boot(b), es)
    ensures var m := Run(Boot(b), es).mem;
            && multiset(m.pool) + M.Sum(M.Held(m.spaces)) + M.Sum(M.Shared(m.regions)) == multiset(b.ram)
            && forall i :: 0 <= i < |m.regions| ==> OnlyIn(m, i)
  {
    hide SetupOk, Boot, Possible, Run, Inv;
    AlwaysInv(b, es);
    var m := Run(Boot(b), es).mem;
    InvSized(Run(Boot(b), es), b.ram);
    MemConserved(m, b.ram);
    OneRegionEach(m, b.ram);
  }

  lemma {:induction false} OneRegionEach(m: M.Mem, ram: set<nat>)
    requires M.Conserved(m.pool, m.regions, m.spaces, ram)
    ensures forall i :: 0 <= i < |m.regions| ==> OnlyIn(m, i)
  {
    hide M.Conserved;
    forall i | 0 <= i < |m.regions| ensures OnlyIn(m, i) { M.RegionFrameIsExclusive(m, ram, i); }
  }

  lemma {:induction false} MemConserved(m: M.Mem, ram: set<nat>)
    requires M.Sound(m, ram)
    ensures M.Conserved(m.pool, m.regions, m.spaces, ram)
  {
    hide M.Conserved, M.DevicesOk, M.RegionsOk, M.WindowsOk, M.RecordsOk, M.ReachOk, M.OwnersOk, M.QuietOk, M.Shaped, M.DevicesShaped;
  }

  /** No frame in the pool is named by a window, a table entry, a cached translation or a grant. */
  lemma {:induction false} PoolUnreachable(b: Setup, es: seq<Event>)
    requires SetupOk(b) && Possible(Boot(b), es)
    ensures M.NoFreeFrameNamed(Run(Boot(b), es).mem)
  {
    hide SetupOk, Boot, Possible, Run, Inv, M.SoundBut, M.NoFreeFrameNamed;
    AlwaysInv(b, es);
    InvSized(Run(Boot(b), es), b.ram);
    M.SoundMeansUnreachable(Run(Boot(b), es).mem, b.ram);
  }

  /** The ledger stands in for the whole delegation history: it joins two capabilities in place
      exactly when one descends from the other, and then the descendant confers no more. */
  lemma {:induction false} LedgerIsHistory(b: Setup, es: seq<Event>, e: Endpoint, f: Endpoint)
    requires SetupOk(b) && Possible(Boot(b), es)
    requires var a := Run(Boot(b), es).auth; A.Occupied(a, e) && A.Occupied(a, f)
    ensures var a := Run(Boot(b), es).auth;
            && (Reach(Links(a.edges), e, f) <==> A.Ancestor(a.hist, A.StampAt(a, e), A.StampAt(a, f)))
            && (Reach(Links(a.edges), e, f) ==> A.Derives(A.CapAt(a, e), A.CapAt(a, f)))
  {
    hide SetupOk, Boot, Possible, Run, Inv, Reach, Links, A.Ancestor, A.Derives, A.Occupied;
    AlwaysInv(b, es);
    InvSized(Run(Boot(b), es), b.ram);
    var a := Run(Boot(b), es).auth;
    if Reach(Links(a.edges), e, f) { A.ReachDerives(a, e, f); }
  }

  /** Everything a live process has, it holds a capability for, of the right type, object and
      rights: windows, device mappings, waits, interrupt credits, the device window. */
  lemma {:induction false} HoldingsAreBacked(b: Setup, es: seq<Event>, i: nat)
    requires SetupOk(b) && Possible(Boot(b), es) && i < MAX_PROCS && Live(Run(Boot(b), es), i)
    ensures var s := Run(Boot(b), es);
            && Sized(s)
            && SharesHeld(Caps(s, i), s.mem.spaces[i].shares, s.mem.spaces[i].windows)
            && RecordsHeld(Caps(s, i), s.mem.spaces[i].dma)
            && WaitHeld(Caps(s, i), s.rv.ports[i].state, s.own[i].irq)
            && LinesHeld(Caps(s, i), s.own[i].irq, s.fired)
            && BarHeld(Caps(s, i), s.own[i].bar)
  {
    hide SetupOk, Boot, Possible, Run, Inv, SharesHeld, RecordsHeld, WaitHeld, LinesHeld, BarHeld, RegionCapsOk;
    AlwaysInv(b, es);
    InvSized(Run(Boot(b), es), b.ram);
    assert HeldAt(Run(Boot(b), es), i);
  }

  /** Whatever a device can reach, a live process asked for, and still holds both the region and the
      domain. */
  lemma {:induction false} DeviceReachIsAuthorized(b: Setup, es: seq<Event>, d: nat, slot: nat)
    requires SetupOk(b) && Possible(Boot(b), es)
    requires var m := Run(Boot(b), es).mem; d < |m.devs| && slot < |m.devs[d].leaves| && m.devs[d].leaves[slot].Present?
    ensures var s := Run(Boot(b), es);
            && Sized(s)
            && exists i, r :: 0 <= i < MAX_PROCS && Live(s, i) && s.mem.devs[d].leaves[slot].frame in M.FramesOf(s.mem.regions, r)
                 && Holds(Caps(s, i), RegionCap, r, READ) && Holds(Caps(s, i), IommuDomain, s.mem.devs[d].id, WRITE)
  {
    hide SetupOk, Boot, Possible, Run, Inv, M.SoundBut, Holds, M.FramesOf, A.Sound, V.Sound;
    AlwaysInv(b, es);
    var s := Run(Boot(b), es);
    InvSized(s, b.ram);
    var i, k := Asker(s.mem, b.ram, d, slot);
    assert HeldAt(s, i) && AgreeAt(s, i);
    assert RecordsHeld(Caps(s, i), s.mem.spaces[i].dma);
  }

  /** Whatever a device can reach belongs to a live process that commands the device, and is open to it
      exactly as far as that process's own capability over the region goes. */
  lemma {:induction false} DeviceEntriesAreTheOwners(b: Setup, es: seq<Event>, d: nat, slot: nat)
    requires SetupOk(b) && Possible(Boot(b), es)
    requires var m := Run(Boot(b), es).mem; d < |m.devs| && slot < |m.devs[d].leaves| && m.devs[d].leaves[slot].Present?
    ensures var s := Run(Boot(b), es);
            && Sized(s)
            && exists i, c :: 0 <= i < MAX_PROCS && 0 <= c < CAP_SLOTS && OwnerOf(s, i, c, s.mem.devs[d].id, s.mem.devs[d].leaves[slot])
  {
    hide SetupOk, Boot, Possible, Run, Inv, Core, M.SoundBut, Holds, M.FramesOf, A.Sound, V.Sound, G.AllAgree, Tenured, Contains, D.LeafFor,
      M.RegionAt;
    AlwaysInv(b, es);
    AlwaysTenured(b, es);
    G.TablesMatchModels(b, es);
    var s := Run(Boot(b), es);
    InvSized(s, b.ram);
    InvCore(s, b.ram);
    var i, k := Asker(s.mem, b.ram, d, slot);
    assert HeldAt(s, i) && AgreeAt(s, i);
    assert RecordsHeld(Caps(s, i), s.mem.spaces[i].dma);
    var c := Holder(Caps(s, i), RegionCap, s.mem.spaces[i].dma[k].region, READ);
    var dom := Holder(Caps(s, i), IommuDomain, s.mem.devs[d].id, WRITE);
    DriverEntry(s, b.ram, i, dom, c, d, slot);
  }

  /** Process `i` owns the region of its capability `c`, commands the domain, and `leaf` shows a frame of
      that region with exactly the capability's access. */
  ghost predicate OwnerOf(s: State, i: nat, c: nat, domain: nat, leaf: D.Leaf)
    requires Sized(s) && i < MAX_PROCS && c < CAP_SLOTS && leaf.Present?
  {
    var cap := Caps(s, i)[c];
    && Live(s, i) && cap.ty == RegionCap && Owns(s.mem.regions, cap.obj, s.auth.spaces[i].id)
    && Holds(Caps(s, i), IommuDomain, domain, WRITE)
    && leaf.frame in M.FramesOf(s.mem.regions, cap.obj) && leaf == D.LeafFor(leaf.frame, cap.rights)
  }

  lemma {:induction false} InvCore(s: State, ram: set<nat>)
    requires Inv(s, ram)
    ensures Core(s, ram)
  {}

  lemma {:induction false} Holder(caps: seq<Cap>, ty: CapType, obj: nat, need: Rights) returns (c: nat)
    requires Holds(caps, ty, obj, need) && ty != Null
    ensures c < |caps| && caps[c].ty == ty && caps[c].obj == obj && ObjectOf(caps, c, ty, need) == Some(obj)
  {
    c :| 0 <= c < |caps| && caps[c].ty == ty && caps[c].obj == obj && Contains(caps[c].rights, need);
  }

  lemma {:induction false} DriverEntry(s: State, ram: set<nat>, i: nat, dom: nat, c: nat, d: nat, slot: nat)
    requires Core(s, ram) && Sized(s) && Tenured(s.auth, s.mem) && G.AllAgree(s.mem.devs) && i < MAX_PROCS && c < CAP_SLOTS && Live(s, i)
    requires d < |s.mem.devs| && slot < |s.mem.devs[d].leaves| && s.mem.devs[d].leaves[slot].Present?
    requires ObjectOf(Caps(s, i), dom, IommuDomain, WRITE) == Some(s.mem.devs[d].id)
    requires ObjectOf(Caps(s, i), c, RegionCap, READ).Some?
    requires s.mem.devs[d].leaves[slot].frame in M.FramesOf(s.mem.regions, Caps(s, i)[c].obj)
    ensures OwnerOf(s, i, c, s.mem.devs[d].id, s.mem.devs[d].leaves[slot])
  {
    hide Core, A.Occupied, A.CapAt, Contains, D.LeafFor, MintedOwn;
    DriverOwns(s, ram, i, dom, c);
    var e := Endpoint(i, s.auth.spaces[i].id, c);
    assert MappedAs(s.mem.devs[d].dom.maps, M.FramesOf(s.mem.regions, A.CapAt(s.auth, e).obj), A.CapAt(s.auth, e).rights);
    assert D.Agree(s.mem.devs[d]);
    var target := s.mem.devs[d].dom.maps[slot];
    D.LeafPresent(target.frame, target.rights);
  }

  lemma {:induction false} Asker(m: M.Mem, ram: set<nat>, d: nat, slot: nat) returns (p: nat, k: nat)
    requires M.Sound(m, ram) && d < |m.devs| && slot < |m.devs[d].leaves| && m.devs[d].leaves[slot].Present?
    ensures p < |m.spaces| && m.spaces[p].live && k < |m.spaces[p].dma| && m.spaces[p].dma[k].region != 0
    ensures m.spaces[p].dma[k].domain == m.devs[d].id
    ensures m.devs[d].leaves[slot].frame in M.FramesOf(m.regions, m.spaces[p].dma[k].region)
  {
    hide M.Conserved, M.DevicesOk, M.RegionsOk, M.WindowsOk, M.RecordsOk, M.OwnersOk, M.DevicesShaped, M.FramesOf;
    assert M.Attributed(m.regions, m.spaces, m.devs[d].id, m.devs[d].leaves[slot].frame);
    p, k :| 0 <= p < |m.spaces| && 0 <= k < |m.spaces[p].dma|
            && m.spaces[p].dma[k].region != 0 && m.spaces[p].dma[k].domain == m.devs[d].id
            && m.devs[d].leaves[slot].frame in M.FramesOf(m.regions, m.spaces[p].dma[k].region);
  }

  /** A match's receiver either has its one receipt or is still owed it. */
  ghost predicate OneReceipt(rv: V.Rv, m: nat) {
    && (V.Receipted(rv.receipts, m) <==> !exists i :: 0 <= i < |rv.ports| && V.Owes(rv.ports[i], m))
    && (forall j, k :: 0 <= j < |rv.receipts| && 0 <= k < |rv.receipts| && rv.receipts[j].of == rv.receipts[k].of == m ==> j == k)
  }

  /** Message passing is an atomic rendezvous: every receipt is its receiver's, of one SEND on the same
      endpoint, taken once, with its word and the first bytes of its memory at the call; every match
      has its one receipt or is owed it; no endpoint ever has both a sender and a receiver waiting,
      and the run queue is exactly the ready processes. */
  lemma {:induction false} RendezvousIsAtomic(b: Setup, es: seq<Event>)
    requires SetupOk(b) && Possible(Boot(b), es)
    ensures var s := Run(Boot(b), es);
            && V.MatchesOk(s.rv.sends, s.rv.matches) && V.ReceiptsOk(s.rv.sends, s.rv.matches, s.rv.receipts)
            && (forall m :: 0 <= m < |s.rv.matches| ==> OneReceipt(s.rv, m))
            && V.OneSided(s.rv.ports) && QueueIs(s.run, s.rv.ports)
  {
    hide SetupOk, Boot, Possible, Run, Inv, M.SoundBut, A.Sound, V.MatchesOk, V.ReceiptsOk, V.OneSided, V.PortOk, V.Answered, V.TagsDistinct, QueueIs, OneReceipt;
    AlwaysInv(b, es);
    InvSized(Run(Boot(b), es), b.ram);
    var rv := Run(Boot(b), es).rv;
    forall m | 0 <= m < |rv.matches| ensures OneReceipt(rv, m) { ReceiptOrOwed(rv, m); }
  }

  lemma {:induction false} ReceiptOrOwed(rv: V.Rv, m: nat)
    requires V.Sound(rv) && m < |rv.matches|
    ensures OneReceipt(rv, m)
  {
    hide V.MatchesOk, V.OneSided, V.TagsDistinct, V.ParkedOk, V.Delivered;
    if i :| 0 <= i < |rv.ports| && V.Owes(rv.ports[i], m) {
      assert V.PortOk(rv.ports[i], rv.sends, rv.matches, rv.receipts);
    }
  }

  /** A machine that has finished holds nothing: the pool is every frame, and no device reaches
      anything. */
  lemma {:induction false} FinishedHoldsNothing(b: Setup, es: seq<Event>)
    requires SetupOk(b) && Possible(Boot(b), es) && Run(Boot(b), es).mode.AllDone?
    ensures var m := Run(Boot(b), es).mem;
            && m.pool == b.ram
            && (forall i :: 0 <= i < |m.regions| ==> !m.regions[i].live)
            && (forall d, a :: 0 <= d < |m.devs| && 0 <= a < |m.devs[d].leaves| ==> m.devs[d].leaves[a].Absent?)
            && (forall d :: 0 <= d < |m.devs| ==> m.devs[d].dom.grants.Keys == {})
  {
    hide SetupOk, Boot, Possible, Run, Inv, M.SoundBut, A.Sound, V.Sound, HeldAt;
    AlwaysInv(b, es);
    var s := Run(Boot(b), es);
    InvSized(s, b.ram);
    DoneMeansDone(s, b.ram);
    L.ShapeOf(s.mem, b.ram, false);
    forall p | 0 <= p < |s.mem.spaces| ensures !s.mem.spaces[p].live { assert AgreeAt(s, p); }
    M.AllGone(s.mem, b.ram);
  }

  // ------------------------------------------------------------------- windows, caches and interrupts

  /** Every frame a process's window shows is the named region's, readable, and writable only under
      a capability that says so. */
  lemma {:induction false} WindowsAreAuthorized(b: Setup, es: seq<Event>, i: nat, k: nat, f: nat)
    requires SetupOk(b) && Possible(Boot(b), es) && i < MAX_PROCS && k < SHARE_SLOTS
    requires var m := Run(Boot(b), es).mem;
             i < |m.spaces| && k < |m.spaces[i].windows| && f in m.spaces[i].windows[k].frames
    ensures var s := Run(Boot(b), es);
            && Sized(s) && Live(s, i)
            && f in M.FramesOf(s.mem.regions, s.mem.spaces[i].shares[k])
            && Holds(Caps(s, i), RegionCap, s.mem.spaces[i].shares[k], READ)
            && (s.mem.spaces[i].windows[k].writable ==> Holds(Caps(s, i), RegionCap, s.mem.spaces[i].shares[k], WRITE))
  {
    hide SetupOk, Boot, Possible, Run, Inv, M.SoundBut, Holds, M.FramesOf, A.Sound, V.Sound;
    AlwaysInv(b, es);
    var s := Run(Boot(b), es);
    InvSized(s, b.ram);
    WindowShows(s.mem, b.ram, i, k, f);
    assert HeldAt(s, i) && AgreeAt(s, i);
    assert SharesHeld(Caps(s, i), s.mem.spaces[i].shares, s.mem.spaces[i].windows);
  }

  lemma {:induction false} WindowShows(m: M.Mem, ram: set<nat>, p: nat, k: nat, f: nat)
    requires M.Sound(m, ram) && p < |m.spaces| && k < |m.spaces[p].windows| && f in m.spaces[p].windows[k].frames
    ensures m.spaces[p].live && k < |m.spaces[p].shares| && m.spaces[p].shares[k] != 0
    ensures f in M.FramesOf(m.regions, m.spaces[p].shares[k])
  {
    hide M.Conserved, M.DevicesOk, M.RegionsOk, M.RecordsOk, M.OwnersOk, M.DevicesShaped, M.ReachOk, M.FramesOf;
    assert M.WindowOk(m.regions, m.spaces[p].shares[k], m.spaces[p].windows[k]);
  }

  /** Whatever a unit has cached is, at every kernel-entry boundary, still what its table says: a
      withdrawn translation is never still in use once the entry that withdrew it has ended. */
  lemma {:induction false} CachedIsCurrent(b: Setup, es: seq<Event>, d: nat, slot: nat, leaf: D.Leaf)
    requires SetupOk(b) && Possible(Boot(b), es)
    requires var m := Run(Boot(b), es).mem; d < |m.devs| && (slot, leaf) in m.devs[d].tlb
    ensures var m := Run(Boot(b), es).mem;
            slot < |m.devs[d].leaves| && m.devs[d].leaves[slot] == leaf && leaf.Present? && leaf.frame !in m.pool
  {
    hide SetupOk, Boot, Possible, Run, Inv, M.SoundBut, A.Sound, V.Sound, HeldAt;
    AlwaysInv(b, es);
    var s := Run(Boot(b), es);
    InvSized(s, b.ram);
    DevicesAre(s.mem, b.ram, d);
    M.CachedIsLeaf(s.mem.devs[d], (slot, leaf));
    M.CachedPresent(s.mem.devs[d], (slot, leaf));
    M.SoundMeansUnreachable(s.mem, b.ram);
  }

  lemma {:induction false} DevicesAre(m: M.Mem, ram: set<nat>, d: nat)
    requires M.Sound(m, ram) && d < |m.devs|
    ensures D.DeviceOk(m.devs[d])
  {
    hide M.Conserved, M.RegionsOk, M.RecordsOk, M.OwnersOk, M.DevicesShaped, M.ReachOk, M.WindowsOk, M.QuietOk, D.DeviceOk;
  }

  /** For a line a process holds, every interrupt since it was loaded has been handed to it, is still
      waiting for it, or was lost to a saturated counter; a line it does not hold has nothing
      waiting. */
  lemma {:induction false} InterruptsAccounted(b: Setup, es: seq<Event>, i: nat, line: nat)
    requires SetupOk(b) && Possible(Boot(b), es) && i < MAX_PROCS && line < MAX_IRQ_LINES && Live(Run(Boot(b), es), i)
    ensures var s := Run(Boot(b), es);
            && Sized(s)
            && var l := s.own[i].irq[line];
            if Holds(Caps(s, i), Irq, line, READ) then l.since + l.returned + l.pending + l.dropped == s.fired[line]
            else l.pending == 0
  {
    hide SetupOk, Boot, Possible, Run, Inv, M.SoundBut, A.Sound, V.Sound, Holds;
    AlwaysInv(b, es);
    var s := Run(Boot(b), es);
    InvSized(s, b.ram);
    assert HeldAt(s, i);
    assert LinesHeld(Caps(s, i), s.own[i].irq, s.fired);
  }

  // ------------------------------------------------------------------- the machine never hangs idle

  /** A parked machine always has an interrupt that would wake it, and finished means everyone has
      exited. */
  lemma {:induction false} IdleCanAlwaysWake(s: State, ram: set<nat>, taken: bool) returns (line: nat)
    requires Inv(s, ram) && s.mode.Idle?
    ensures Enabled(s, Interrupt(line, taken)) && Step(s, Interrupt(line, taken)).mode.Running?
  {
    hide M.SoundBut, A.Sound, V.Sound, HeldAt, Credit, Holds, Coherent, Backed;
    InvSized(s, ram);
    assert Verdict(s) == Idle;
    var i :| 0 <= i < MAX_PROCS && s.rv.ports[i].state.BlockedIrq? && Creditable(Caps(s, i), s.rv.ports[i].state.line);
    line := s.rv.ports[i].state.line;
    CreditCore(s, ram, line);
    var t := Credit(s, line);
    QueueResumes(t, ram);
    assert t.rv.ports[i].state.Ready?;
    assert i in t.run.q;
  }

  lemma {:induction false} DoneMeansDone(s: State, ram: set<nat>)
    requires Inv(s, ram) && s.mode.AllDone?
    ensures forall i :: 0 <= i < MAX_PROCS ==> !Live(s, i)
  {
    hide M.SoundBut, A.Sound, V.Sound, HeldAt, Holds, Creditable, Coherent, Backed;
    InvSized(s, ram);
    assert Verdict(s) == AllDone;
  }

  /** A process waiting in SEND or RECV. */
  predicate Talking(p: V.Port) {
    p.state.BlockedSend? || p.state.BlockedRecv?
  }

  /** A deadlock verdict is true: someone is alive, everyone alive waits in SEND or RECV, nobody waits
      at the other end of any of those endpoints, and no interrupt of any line, delivered or not,
      would move anyone. */
  lemma {:induction false} DeadlockIsReal(s: State, ram: set<nat>)
    requires Inv(s, ram) && s.mode.Deadlocked?
    ensures Sized(s) && s.run.q == [] && exists i :: 0 <= i < MAX_PROCS && Live(s, i)
    ensures forall i :: 0 <= i < MAX_PROCS && Live(s, i) ==> Talking(s.rv.ports[i])
    ensures forall i, j :: 0 <= i < MAX_PROCS && 0 <= j < MAX_PROCS && s.rv.ports[i].state.BlockedSend? && s.rv.ports[j].state.BlockedRecv? ==>
              s.rv.ports[i].state.ep != s.rv.ports[j].state.ep
    ensures forall line :: Credit(s, line).rv == s.rv && Credit(s, line).run == s.run
  {
    hide M.SoundBut, A.Sound, V.Sound, HeldAt, Credit, Holds, Coherent, Backed, SharesHeld, RecordsHeld, LinesHeld, BarHeld, RegionCapsOk;
    InvSized(s, ram);
    assert Verdict(s) == Deadlocked;
    forall i | 0 <= i < MAX_PROCS && Live(s, i) ensures Talking(s.rv.ports[i]) {
      assert HeldAt(s, i);
      StillWaits(s, i);
    }
    Unmatched(s.rv);
    forall line: nat ensures Credit(s, line).rv == s.rv && Credit(s, line).run == s.run { NobodyCredited(s, line); }
  }

  /** Neither ready nor waiting for an interrupt. */
  lemma {:induction false} StillWaits(s: State, i: nat)
    requires Sized(s) && i < MAX_PROCS && Live(s, i) && HeldAt(s, i) && QueueIs(s.run, s.rv.ports) && s.run.q == []
    requires Verdict(s) == Deadlocked
    ensures Talking(s.rv.ports[i])
  {
    hide Creditable, SharesHeld, RecordsHeld, LinesHeld, BarHeld, RegionCapsOk;
    assert !(i in s.run.q);
  }

  lemma {:induction false} Unmatched(rv: V.Rv)
    requires V.Sound(rv)
    ensures V.OneSided(rv.ports)
  {}

  lemma {:induction false} NobodyCredited(s: State, line: nat)
    requires Sized(s) && forall i :: 0 <= i < MAX_PROCS && Live(s, i) ==> Talking(s.rv.ports[i])
    ensures Credit(s, line).rv == s.rv && Credit(s, line).run == s.run
  {
    hide CreditTo;
    if line < MAX_IRQ_LINES { NobodyCreditedTo(s, line, MAX_PROCS); }
  }

  lemma {:induction false} NobodyCreditedTo(s: State, line: nat, n: nat)
    requires Sized(s) && line < MAX_IRQ_LINES && n <= MAX_PROCS
    requires forall i :: 0 <= i < MAX_PROCS && Live(s, i) ==> Talking(s.rv.ports[i])
    ensures CreditTo(s, line, n).rv == s.rv && CreditTo(s, line, n).run == s.run
  {
    hide Holds, Accrue, Take;
    if n > 0 { NobodyCreditedTo(s, line, n - 1); }
  }

  /** And it is final: whatever still happens, everyone stays where they are. */
  lemma {:induction false} DeadlockIsFinal(s: State, es: seq<Event>)
    requires s.mode.Deadlocked? && Possible(s, es)
    ensures Run(s, es) == s.(mem := Run(s, es).mem)
  {
    hide Sized, S.Cached, Service, InterruptStep, Feasible;
    if es != [] { DeadlockIsFinal(s, es[..|es| - 1]); }
  }

  // ------------------------------------------------------------------- refusals

  /** A SEND that returns anything but success has changed nothing but that return: no peer is
      woken or consumed, nothing is recorded, the sender does not block. */
  lemma {:induction false} RefusedSendIsSilent(s: State, i: nat, cap: nat, word: nat, len: nat, mem: seq<nat>)
    requires i < |s.auth.spaces| && i < |s.rv.ports| && s.rv.ports[i].state.Ready?
    ensures var t := SendStep(s, i, cap, word, len, mem);
            && i < |t.rv.ports|
            && (t.rv.ports[i].state.Ready? && t.rv.ports[i].r0 != OK ==> t == Return(s, i, t.rv.ports[i].r0))
            && (t.rv.matches != s.rv.matches ==>
                  && |t.rv.matches| == |s.rv.matches| + 1 && |t.rv.sends| == |s.rv.sends| + 1
                  && t.rv.ports[i].r0 == OK && t.rv.matches[|s.rv.matches|].send == |s.rv.sends|)
  {
    hide Holds, Contains, V.Filled;
    assert forall x: seq<V.Match>, y :: x + [y] != x;
  }

  /** The same for RECV. */
  lemma {:induction false} RefusedRecvIsSilent(s: State, i: nat, cap: nat, dst: nat, want: nat, writable: bool, copied: bool)
    requires i < |s.auth.spaces| && i < |s.rv.ports| && s.rv.ports[i].state.Ready?
    ensures var t := RecvStep(s, i, cap, dst, want, writable, copied);
            && i < |t.rv.ports|
            && (t.rv.ports[i].state.Ready? && t.rv.ports[i].r0 != OK ==> t == Return3(s, i, t.rv.ports[i].r0, 0, 0))
            && (t.rv.matches != s.rv.matches ==>
                  |t.rv.matches| == |s.rv.matches| + 1 && t.rv.sends == s.rv.sends && t.rv.ports[i].r0 == OK)
  {
    hide Holds, Contains;
  }

  // ------------------------------------------------------------------- authority comes from somewhere

  /** A later history only adds births, and those without a parent are of region capabilities. */
  ghost predicate Grew(h: seq<A.Birth>, g: seq<A.Birth>) {
    h <= g && forall k :: |h| <= k < |g| && g[k].parent.None? ==> g[k].cap.ty == RegionCap
  }

  lemma {:induction false} GrewTwice(x: seq<A.Birth>, y: seq<A.Birth>, z: seq<A.Birth>)
    requires Grew(x, y) && Grew(y, z)
    ensures Grew(x, z)
  {
    forall k | |x| <= k < |z| && z[k].parent.None? ensures z[k].cap.ty == RegionCap {
      assert k < |y| ==> z[k] == y[k];
    }
  }

  lemma {:induction false} ServiceHistory(s: State, ram: set<nat>, call: Call)
    requires Core(s, ram) && Sized(s) && s.current < MAX_PROCS && Receptive(s, s.current) && Feasible(s, s.current, call)
    ensures Grew(s.auth.hist, Service(s, s.current, call).auth.hist)
  {
    hide Sized, Core, Feasible, Thinner, ExitStep, RevokeStep, FreeRegionStep, SpawnStep, MakeRegionStep, MapDmaStep, UnmapDmaStep,
      SendStep, RecvStep, MapRegionStep, UnmapRegionStep, PollStep, WaitStep, MapBarStep, A.Occupied, A.CapAt, A.StampAt;
    var i := s.current;
    if call.Spawn? {
      SpawnHistory(s, i, call.cap, call.give, call.request, call.load);
    } else if call.MakeRegion? {
      MakeHistory(s, i, call.cap, call.pages, call.got);
    } else if call.MapDma? {
      MapDmaHistory(s, i, call.dom, call.reg);
    } else {
      ServiceTamed(s, ram, call);
    }
  }

  lemma {:induction false} MapDmaHistory(s: State, i: nat, dom: nat, reg: nat)
    requires Sized(s) && i < MAX_PROCS
    ensures MapDmaStep(s, i, dom, reg).auth == s.auth
  {
    hide S.MapDma, TablesSized;
  }

  lemma {:induction false} SpawnHistory(s: State, i: nat, cap: nat, give: Option<nat>, request: bv64, load: Option<seq<nat>>)
    requires Sized(s) && i < MAX_PROCS
    ensures Grew(s.auth.hist, SpawnStep(s, i, cap, give, request, load).auth.hist)
  {
    hide S.Load, FreeSlot, Intersect, Contains, LiveCount, Recorded, FromUser;
  }

  lemma {:induction false} MakeHistory(s: State, i: nat, cap: nat, pages: nat, got: seq<nat>)
    requires Sized(s) && i < MAX_PROCS
    ensures Grew(s.auth.hist, MakeRegionStep(s, i, cap, pages, got).auth.hist)
  {
    hide S.WithRegion, FreeRegionSlot, Contains, OwnedCount, FirstFree;
  }

  /** No kernel entry creates authority except over a new region. */
  lemma {:induction false} StepHistory(s: State, ram: set<nat>, e: Event)
    requires Inv(s, ram) && Enabled(s, e)
    ensures Grew(s.auth.hist, Step(s, e).auth.hist)
  {
    hide Body, A.Sound, Service, V.Collected, Verdict, CreditTo, S.Cached, Feasible;
    match e
    case Syscall(call, taken) =>
      ServiceHistory(s, ram, call);
      Runs.ServiceCore(s, ram, call);
      DispatchInv(Service(s, s.current, call), ram, taken);
    case Interrupt(line, taken) => CreditSame(s, line, MAX_PROCS);
    case UnitCaches(_, _) =>
  }

  lemma {:induction false} RunHistory(b: Setup, es: seq<Event>)
    requires SetupOk(b) && Possible(Boot(b), es)
    ensures Grew(Boot(b).auth.hist, Run(Boot(b), es).auth.hist)
  {
    hide SetupOk, Boot, Step, Enabled, Inv;
    if es != [] {
      var t := Run(Boot(b), es[..|es| - 1]);
      AlwaysInv(b, es[..|es| - 1]);
      InvSized(t, b.ram);
      RunHistory(b, es[..|es| - 1]);
      StepHistory(t, b.ram, es[|es| - 1]);
      GrewTwice(Boot(b).auth.hist, t.auth.hist, Run(Boot(b), es).auth.hist);
    }
  }

  /** Following parents leads to a birth without one, which confers at least as much. */
  lemma {:induction false} RootBirth(h: seq<A.Birth>, d: nat) returns (k: nat)
    requires A.HistoryOk(h) && d < |h|
    ensures k <= d && h[k].parent.None? && (k == d || A.Ancestor(h, k, d)) && A.Derives(h[k].cap, h[d].cap)
    decreases d
  {
    if h[d].parent.None? {
      k := d;
      ContainsIsPartialOrder(h[d].cap.rights, h[d].cap.rights, h[d].cap.rights);
    } else {
      var p := h[d].parent.value;
      k := RootBirth(h, p);
      AncestorThrough(h, k, p, d);
      A.DerivesTransitive(h[k].cap, h[p].cap, h[d].cap);
    }
  }

  lemma {:induction false} AncestorThrough(h: seq<A.Birth>, k: nat, p: nat, d: nat)
    requires d < |h| && h[d].parent == Some(p) && p < d && (k == p || A.Ancestor(h, k, p))
    ensures A.Ancestor(h, k, d)
  {}

  /** Every capability a process ever holds, other than over a region, comes down by delegation from
      one a role was granted at boot, and confers no more: spawning creates no authority. */
  lemma {:induction false} AuthorityComesFromBoot(b: Setup, es: seq<Event>, e: Endpoint) returns (k: nat)
    requires SetupOk(b) && Possible(Boot(b), es)
    requires var a := Run(Boot(b), es).auth; A.Occupied(a, e) && A.CapAt(a, e).ty != RegionCap
    ensures var a, h := Run(Boot(b), es).auth, Boot(b).auth.hist;
            && k < |h| <= |a.hist| && h[k] == a.hist[k]
            && A.Derives(h[k].cap, A.CapAt(a, e))
            && (k == A.StampAt(a, e) || A.Ancestor(a.hist, k, A.StampAt(a, e)))
  {
    hide SetupOk, Boot, Possible, Run, Inv, A.Ancestor, A.Occupied, A.StampAt, A.CapAt, Contains;
    AlwaysInv(b, es);
    InvSized(Run(Boot(b), es), b.ram);
    RunHistory(b, es);
    var a := Run(Boot(b), es).auth;
    k := RootBirth(a.hist, A.StampAt(a, e));
  }
}
