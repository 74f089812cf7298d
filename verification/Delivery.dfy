/** What becomes of a SEND: it is taken once or never, one that was refused is never taken later, and
    what its receiver is told is what is in its registers. */
module Delivery {
  import opened Abi
  import opened Basics
  import opened Capabilities
  import opened Deleg
  import opened Sched
  import opened Machine
  import opened Invariant
  import opened Runs
  import A = Authority
  import M = Memory
  import L = Lifetime
  import P = Plans
  import S = Supply
  import V = Rendezvous

  /** A sender is blocked with send `k`. */
  ghost predicate Parked(rv: V.Rv, k: nat) {
    exists i :: 0 <= i < |rv.ports| && rv.ports[i].state.BlockedSend? && rv.ports[i].tag == k
  }

  /** Send `k` was made, was never taken, and nobody is waiting with it any more. */
  ghost predicate Dropped(rv: V.Rv, k: nat) {
    k < |rv.sends| && !Parked(rv, k) && forall j :: 0 <= j < |rv.matches| ==> rv.matches[j].send != k
  }

  // ------------------------------------------------------------------- going on

  /** From `rv` to `o`, whatever is newly taken or waiting was waiting before or is newly sent. */
  ghost predicate Onward(rv: V.Rv, o: V.Rv) {
    && rv.sends <= o.sends && rv.matches <= o.matches
    && (forall j :: |rv.matches| <= j < |o.matches| ==> o.matches[j].send >= |rv.sends| || Parked(rv, o.matches[j].send))
    && (forall k: nat :: Parked(o, k) ==> k >= |rv.sends| || Parked(rv, k))
  }

  /** This receiver's registers say what the receipt says, and it is owed nothing more. */
  predicate Has(p: V.Port, r: V.Receipt) {
    p.state.Ready? && p.pending == 0 && p.id == r.to && p.r0 == r.status && p.r1 == r.word && p.r2 == r.count
  }

  ghost predicate Told(ports: seq<V.Port>, r: V.Receipt) {
    exists i :: 0 <= i < |ports| && Has(ports[i], r)
  }

  /** Receipts are only added, and every new one is in its receiver's registers. */
  ghost predicate HandedOver(rv: V.Rv, o: V.Rv) {
    && rv.receipts <= o.receipts
    && forall k :: |rv.receipts| <= k < |o.receipts| ==> Told(o.ports, o.receipts[k])
  }

  lemma {:induction false} OnwardTwice(x: V.Rv, y: V.Rv, z: V.Rv)
    requires Onward(x, y) && Onward(y, z)
    ensures Onward(x, z)
  {
    hide Parked;
    forall j | |x.matches| <= j < |z.matches| ensures z.matches[j].send >= |x.sends| || Parked(x, z.matches[j].send) {
      if j < |y.matches| { assert z.matches[j] == y.matches[j]; }
    }
  }

  lemma {:induction false} OnwardDropped(rv: V.Rv, o: V.Rv, k: nat)
    requires Onward(rv, o) && Dropped(rv, k)
    ensures Dropped(o, k)
  {
    hide Parked;
    forall j | 0 <= j < |o.matches| ensures o.matches[j].send != k {
      if j < |rv.matches| { assert o.matches[j] == rv.matches[j]; }
    }
  }

  /** Nothing is sent or taken, and nobody starts to wait with a send. */
  ghost predicate Quieter(rv: V.Rv, o: V.Rv) {
    && o.sends == rv.sends && o.matches == rv.matches && o.receipts == rv.receipts && |o.ports| == |rv.ports|
    && forall i :: 0 <= i < |rv.ports| && o.ports[i].state.BlockedSend? ==>
         rv.ports[i].state.BlockedSend? && rv.ports[i].tag == o.ports[i].tag
  }

  /** Nobody's waiting send is touched. */
  ghost predicate Still(rv: V.Rv, o: V.Rv) {
    && o.matches == rv.matches && |o.ports| == |rv.ports|
    && forall i :: 0 <= i < |rv.ports| && rv.ports[i].state.BlockedSend? ==> o.ports[i] == rv.ports[i]
  }

  lemma {:induction false} QuieterOnward(rv: V.Rv, o: V.Rv)
    requires Quieter(rv, o)
    ensures Onward(rv, o) && HandedOver(rv, o) && o.sends == rv.sends
  {}

  // ------------------------------------------------------------------- which entries are quiet

  lemma {:induction false} WakeQuieter(s: State, wake: seq<bool>, n: nat)
    requires n <= |wake| <= |s.rv.ports|
    ensures Quieter(s.rv, WakeRefusedWhere(s, wake, n).rv)
  {
    if n > 0 { WakeQuieter(s, wake, n - 1); }
  }

  lemma {:induction false} CreditQuieter(s: State, line: nat, n: nat)
    requires Sized(s) && line < MAX_IRQ_LINES && n <= MAX_PROCS
    ensures Quieter(s.rv, CreditTo(s, line, n).rv)
  {
    hide Holds, Accrue, Take;
    if n > 0 { CreditQuieter(s, line, n - 1); }
  }

  lemma {:induction false} StrippedQuieter(s: State, p: nat)
    requires Sized(s) && p < MAX_PROCS
    ensures Quieter(s.rv, Stripped(s, p).rv)
  {
    hide DropShares, L.Withdrew, LostShares, LostRecords, StrandedByLoss, KeptLines, HoldsMmio;
  }

  lemma {:induction false} RevokeToQuieter(s: State, order: seq<Endpoint>, n: nat)
    requires Sized(s) && n <= |order|
    ensures Quieter(s.rv, RevokeTo(s, order, n).rv)
  {
    hide Sized, Stripped, A.Stricken;
    if n > 0 {
      RevokeToQuieter(s, order, n - 1);
      var t := RevokeTo(s, order, n - 1);
      var e := order[n - 1];
      if Sized(t) && e.proc < MAX_PROCS {
        var u := t.(auth := A.Stricken(t.auth, e));
        if Sized(u) { StrippedQuieter(u, e.proc); }
      }
    }
  }

  lemma {:induction false} RevokeQuieter(s: State, i: nat, cap: nat, order: seq<Endpoint>)
    requires Sized(s) && i < MAX_PROCS && Sized(s.(auth := s.auth.(edges := Revoked(s.auth.edges, Endpoint(i, s.auth.spaces[i].id, cap)))))
    ensures Quieter(s.rv, RevokeStep(s, i, cap, order).rv)
  {
    hide RevokeTo, Revoked;
    if Lookup(Caps(s, i), cap).Some? {
      RevokeToQuieter(s.(auth := s.auth.(edges := Revoked(s.auth.edges, Endpoint(i, s.auth.spaces[i].id, cap)))), order, |order|);
    }
  }

  lemma {:induction false} ExitQuieter(s: State, i: nat)
    requires Sized(s) && i < MAX_PROCS
    ensures Quieter(s.rv, ExitStep(s, i).rv)
  {
    hide Sized, SweptBy, P.RunPlan, P.TeardownPlan, L.Withdrew, WakeRefusedWhere, StrandedByDeath, P.Vacated, A.Died;
    Ports(s);
    var t := Buried(s, i);
    if Sized(t) {
      Ports(t);
      WakeQuieter(t, seq(MAX_PROCS, j requires 0 <= j < MAX_PROCS => StrandedByDeath(t, j)), MAX_PROCS);
    }
  }

  lemma {:induction false} Ports(s: State)
    requires Sized(s)
    ensures |s.rv.ports| == |s.auth.spaces| == |s.mem.spaces| == MAX_PROCS
    ensures forall i :: 0 <= i < MAX_PROCS ==> |s.mem.spaces[i].dma| == SHARE_SLOTS
  {}

  lemma {:induction false} CollectedOnward(rv: V.Rv, i: nat, taken: bool)
    requires i < |rv.ports|
    ensures Onward(rv, V.Collected(rv, i, taken)) && V.Collected(rv, i, taken).sends == rv.sends
  {}

  /** A process that collects what it is owed has its receipt in its registers, and whoever had theirs
      still does. */
  lemma {:induction false} CollectedHands(rv: V.Rv, o: V.Rv, i: nat, taken: bool)
    requires HandedOver(rv, o) && V.Sound(o) && i < |o.ports| && o.ports[i].state.Ready?
    ensures HandedOver(rv, V.Collected(o, i, taken))
  {
    hide V.MatchesOk, V.ReceiptsOk, V.Answered, V.OneSided, V.TagsDistinct, V.ParkedOk, V.Delivered;
    assert V.PortOk(o.ports[i], o.sends, o.matches, o.receipts);
    var c := V.Collected(o, i, taken);
    assert o.receipts <= c.receipts;
    forall k | |rv.receipts| <= k < |c.receipts| ensures Told(c.ports, c.receipts[k]) {
      if k < |o.receipts| {
        var j :| 0 <= j < |o.ports| && Has(o.ports[j], o.receipts[k]);
        assert Has(c.ports[j], c.receipts[k]);
      } else {
        assert Has(c.ports[i], c.receipts[k]);
      }
    }
  }

  // ------------------------------------------------------------------- SEND and RECV

  lemma {:induction false} SendOnward(s: State, i: nat, cap: nat, word: nat, len: nat, mem: seq<nat>)
    requires i < |s.auth.spaces| && i < |s.rv.ports| && s.rv.ports[i].state.Ready?
    ensures Onward(s.rv, SendStep(s, i, cap, word, len, mem).rv)
  {
    hide Holds, V.Filled, Contains;
    var t := SendStep(s, i, cap, word, len, mem);
    forall k: nat | Parked(t.rv, k) ensures k >= |s.rv.sends| || Parked(s.rv, k) {
      var j :| 0 <= j < |t.rv.ports| && t.rv.ports[j].state.BlockedSend? && t.rv.ports[j].tag == k;
      if k < |s.rv.sends| { assert s.rv.ports[j].state.BlockedSend? && s.rv.ports[j].tag == k; }
    }
  }

  lemma {:induction false} RecvOnward(s: State, i: nat, cap: nat, dst: nat, want: nat, writable: bool, copied: bool)
    requires i < |s.auth.spaces| && i < |s.rv.ports| && s.rv.ports[i].state.Ready?
    ensures Onward(s.rv, RecvStep(s, i, cap, dst, want, writable, copied).rv)
    ensures RecvStep(s, i, cap, dst, want, writable, copied).rv.sends == s.rv.sends
  {
    hide Holds, Contains;
    var t := RecvStep(s, i, cap, dst, want, writable, copied);
    forall k: nat | Parked(t.rv, k) ensures Parked(s.rv, k) {
      var j :| 0 <= j < |t.rv.ports| && t.rv.ports[j].state.BlockedSend? && t.rv.ports[j].tag == k;
      assert s.rv.ports[j].state.BlockedSend? && s.rv.ports[j].tag == k;
    }
    forall j | |s.rv.matches| <= j < |t.rv.matches| ensures Parked(s.rv, t.rv.matches[j].send) {
      var ep := ObjectOf(Caps(s, i), cap, EndpointCap, READ);
      var q := V.FindSend(s.rv.ports, ep.value);
      assert s.rv.ports[q].state.BlockedSend? && s.rv.ports[q].tag == t.rv.matches[j].send;
    }
  }

  lemma {:induction false} SendHands(s: State, i: nat, cap: nat, word: nat, len: nat, mem: seq<nat>)
    requires i < |s.auth.spaces| && i < |s.rv.ports| && s.rv.ports[i].state.Ready?
    ensures HandedOver(s.rv, SendStep(s, i, cap, word, len, mem).rv)
  {
    hide Holds, V.Filled, Contains;
    var t := SendStep(s, i, cap, word, len, mem);
    if |t.rv.receipts| > |s.rv.receipts| {
      var r := V.FindRecv(s.rv.ports, ObjectOf(Caps(s, i), cap, EndpointCap, WRITE).value);
      assert Has(t.rv.ports[r], t.rv.receipts[|s.rv.receipts|]);
    }
  }

  lemma {:induction false} RecvHands(s: State, i: nat, cap: nat, dst: nat, want: nat, writable: bool, copied: bool)
    requires i < |s.auth.spaces| && Receptive(s, i)
    ensures HandedOver(s.rv, RecvStep(s, i, cap, dst, want, writable, copied).rv)
  {
    hide Holds, Contains;
    var t := RecvStep(s, i, cap, dst, want, writable, copied);
    if |t.rv.receipts| > |s.rv.receipts| { assert Has(t.rv.ports[i], t.rv.receipts[|s.rv.receipts|]); }
  }

  // ------------------------------------------------------------------- every step

  lemma {:induction false} ReturnQuieter(s: State, u: State, i: nat, r: nat)
    requires u.rv == s.rv && i < |s.rv.ports| && s.rv.ports[i].state.Ready?
    ensures Quieter(s.rv, Return(u, i, r).rv) && Still(s.rv, Return(u, i, r).rv)
  {}

  /** The calls about regions and devices only return. */
  lemma {:induction false} OwnershipQuieter(s: State, i: nat, call: Call)
    requires Sized(s) && i < MAX_PROCS && s.rv.ports[i].state.Ready? && (call.MakeRegion? || call.FreeRegion?)
    ensures Quieter(s.rv, Service(s, i, call).rv) && Still(s.rv, Service(s, i, call).rv)
  {
    hide Holds, Contains, M.RegionAt, FirstFree, OwnedCount, L.SetOf, A.Minted, P.RunPlan, SweptBy, Quieter, Still, Return, CanInsert;
    forall u: State, r: nat | u.rv == s.rv ensures Quieter(s.rv, Return(u, i, r).rv) && Still(s.rv, Return(u, i, r).rv) { ReturnQuieter(s, u, i, r); }
  }

  lemma {:induction false} MappingQuieter(s: State, i: nat, call: Call)
    requires Sized(s) && i < MAX_PROCS && s.rv.ports[i].state.Ready? && (call.MapRegion? || call.UnmapRegion? || call.MapBar?)
    ensures Quieter(s.rv, Service(s, i, call).rv) && Still(s.rv, Service(s, i, call).rv)
  {
    hide DropShares, Holds, Contains, M.RegionAt, L.SetOf, MapSlot, Quieter, Still, Return;
    forall u: State, r: nat | u.rv == s.rv ensures Quieter(s.rv, Return(u, i, r).rv) && Still(s.rv, Return(u, i, r).rv) { ReturnQuieter(s, u, i, r); }
  }

  lemma {:induction false} DeviceQuieter(s: State, i: nat, call: Call)
    requires Sized(s) && i < MAX_PROCS && s.rv.ports[i].state.Ready? && (call.MapDma? || call.UnmapDma?)
    ensures Quieter(s.rv, Service(s, i, call).rv) && Still(s.rv, Service(s, i, call).rv)
  {
    hide S.MapDma, L.UnmapDma, Holds, Contains, M.RegionAt, M.DomainAt, L.SetOf, TablesSized, Quieter, Still, Return;
    forall u: State, r: nat | u.rv == s.rv ensures Quieter(s.rv, Return(u, i, r).rv) && Still(s.rv, Return(u, i, r).rv) { ReturnQuieter(s, u, i, r); }
  }

  lemma {:induction false} SpawnQuieter(s: State, i: nat, cap: nat, give: Option<nat>, request: bv64, load: Option<seq<nat>>)
    requires Sized(s) && i < MAX_PROCS && s.rv.ports[i].state.Ready?
    ensures Quieter(s.rv, SpawnStep(s, i, cap, give, request, load).rv) && Still(s.rv, SpawnStep(s, i, cap, give, request, load).rv)
  {
    hide Contains, Intersect, FromUser, LiveCount, L.SetOf, A.Delegated, A.Born, S.Load;
  }

  /** The remaining calls, which take a turn or collect interrupts. */
  lemma {:induction false} OthersQuieter(s: State, i: nat, call: Call)
    requires Sized(s) && i < MAX_PROCS && s.rv.ports[i].state.Ready? && (call.Yield? || call.PollIrq? || call.WaitIrq?)
    ensures Quieter(s.rv, Service(s, i, call).rv) && Still(s.rv, Service(s, i, call).rv)
  {
    hide Holds, Contains, Quieter, Still, Return, SetLine, Take, Block;
    forall u: State, r: nat | u.rv == s.rv ensures Quieter(s.rv, Return(u, i, r).rv) && Still(s.rv, Return(u, i, r).rv) { ReturnQuieter(s, u, i, r); }
    forall line: nat, l: Line | line < MAX_IRQ_LINES ensures SetLine(s, i, line, l).rv == s.rv { LineQuieter(s, i, line, l); }
    forall line: nat ensures Quieter(s.rv, Block(s, i, V.BlockedIrq(line)).rv) && Still(s.rv, Block(s, i, V.BlockedIrq(line)).rv) { BlockQuieter(s, i, line); }
    RunQuieter(s);
  }

  lemma {:induction false} LineQuieter(s: State, i: nat, line: nat, l: Line)
    requires i < |s.own| && line < |s.own[i].irq|
    ensures SetLine(s, i, line, l).rv == s.rv
  {}

  lemma {:induction false} BlockQuieter(s: State, i: nat, line: nat)
    requires i < |s.rv.ports| && s.rv.ports[i].state.Ready?
    ensures Quieter(s.rv, Block(s, i, V.BlockedIrq(line)).rv) && Still(s.rv, Block(s, i, V.BlockedIrq(line)).rv)
  {}

  lemma {:induction false} RunQuieter(s: State)
    ensures Quieter(s.rv, s.rv) && Still(s.rv, s.rv)
  {}

  lemma {:induction false} ServiceOnward(s: State, ram: set<nat>, call: Call)
    requires Core(s, ram) && Sized(s) && s.current < MAX_PROCS && Receptive(s, s.current)
    ensures Onward(s.rv, Service(s, s.current, call).rv) && HandedOver(s.rv, Service(s, s.current, call).rv)
    ensures !call.Send? ==> Service(s, s.current, call).rv.sends == s.rv.sends
  {
    hide Core, Sized, Quieter, Onward, HandedOver, ExitStep, RevokeStep, SendStep, RecvStep, FreeRegionStep, MapDmaStep, UnmapDmaStep, SpawnStep,
      MakeRegionStep, MapRegionStep, UnmapRegionStep, PollStep, WaitStep, MapBarStep, Revoked, Still;
    var i := s.current;
    CallerIsReady(s);
    var t := Service(s, i, call);
    if call.Send? {
      Ports(s);
      SendOnward(s, i, call.cap, call.word, call.len, call.mem);
      SendHands(s, i, call.cap, call.word, call.len, call.mem);
    } else if call.Recv? {
      Ports(s);
      RecvOnward(s, i, call.cap, call.dst, call.max, call.writable, call.copied);
      RecvHands(s, i, call.cap, call.dst, call.max, call.writable, call.copied);
    } else {
      if call.Exit? {
        ExitQuieter(s, i);
      } else if call.Revoke? {
        EdgesSized(s, i, call.cap);
        RevokeQuieter(s, i, call.cap, call.order);
      } else if call.Spawn? {
        SpawnQuieter(s, i, call.cap, call.give, call.request, call.load);
      } else if call.MakeRegion? || call.FreeRegion? {
        OwnershipQuieter(s, i, call);
      } else if call.MapRegion? || call.UnmapRegion? || call.MapBar? {
        MappingQuieter(s, i, call);
      } else if call.MapDma? || call.UnmapDma? {
        DeviceQuieter(s, i, call);
      } else {
        OthersQuieter(s, i, call);
      }
      QuieterOnward(s.rv, t.rv);
    }
  }

  lemma {:induction false} CallerIsReady(s: State)
    requires Receptive(s, s.current)
    ensures s.current < |s.rv.ports| && s.rv.ports[s.current].state.Ready?
  {}

  /** The calls that neither talk nor take away touch nobody's waiting send. */
  lemma {:induction false} ServiceStill(s: State, call: Call)
    requires Sized(s) && s.current < MAX_PROCS && Receptive(s, s.current)
    requires !call.Send? && !call.Recv? && !call.Exit? && !call.Revoke?
    ensures Still(s.rv, Service(s, s.current, call).rv)
  {
    hide Sized, Quieter, Still, FreeRegionStep, MapDmaStep, UnmapDmaStep, SpawnStep, MakeRegionStep, MapRegionStep, UnmapRegionStep,
      PollStep, WaitStep, MapBarStep;
    var i := s.current;
    CallerIsReady(s);
    if call.Spawn? {
      SpawnQuieter(s, i, call.cap, call.give, call.request, call.load);
    } else if call.MakeRegion? || call.FreeRegion? {
      OwnershipQuieter(s, i, call);
    } else if call.MapRegion? || call.UnmapRegion? || call.MapBar? {
      MappingQuieter(s, i, call);
    } else if call.MapDma? || call.UnmapDma? {
      DeviceQuieter(s, i, call);
    } else {
      OthersQuieter(s, i, call);
    }
  }

  lemma {:induction false} EdgesSized(s: State, i: nat, cap: nat)
    requires Sized(s) && i < MAX_PROCS
    ensures Sized(s.(auth := s.auth.(edges := Revoked(s.auth.edges, Endpoint(i, s.auth.spaces[i].id, cap)))))
  {}

  /** Whoever runs next takes what it is owed, and nothing else changes hands. */
  lemma {:induction false} ResumeOnward(rv: V.Rv, s: State, ram: set<nat>, taken: bool)
    requires Onward(rv, s.rv) && HandedOver(rv, s.rv) && Core(s, ram) && CanResume(s)
    ensures Onward(rv, Resume(s, taken).rv) && HandedOver(rv, Resume(s, taken).rv) && Resume(s, taken).rv.sends == s.rv.sends
  {
    hide V.Collected, V.Sound, M.SoundBut, A.Sound, Coherent, Backed, Onward, HandedOver;
    var i := s.run.q[s.run.cur];
    assert i in s.run.q;
    CollectedOnward(s.rv, i, taken);
    CollectedHands(rv, s.rv, i, taken);
    OnwardTwice(rv, s.rv, Resume(s, taken).rv);
  }

  /** Over one entry, whatever is newly taken was waiting or is newly sent, only SEND sends, and every
      receipt made is what its receiver finds in its registers. */
  lemma {:induction false} StepOnward(s: State, ram: set<nat>, e: Event)
    requires Inv(s, ram) && Enabled(s, e)
    ensures Onward(s.rv, Step(s, e).rv) && HandedOver(s.rv, Step(s, e).rv)
    ensures !(e.Syscall? && e.call.Send?) ==> Step(s, e).rv.sends == s.rv.sends
  {
    hide Body, A.Sound, Service, V.Collected, Verdict, CreditTo, S.Cached, Onward, HandedOver, Quieter, Feasible, Resume, WakeHopeless;
    match e
    case Syscall(call, taken) =>
      var t := Service(s, s.current, call);
      ServiceOnward(s, ram, call);
      ServiceCore(s, ram, call);
      BodySized(t, ram);
      DispatchInv(t, ram, taken);
      if CanResume(t) { ResumeOnward(s.rv, t, ram, taken); }
    case Interrupt(line, taken) =>
      var t := Credit(s, line);
      CreditQuieter(s, line, MAX_PROCS);
      QuieterOnward(s.rv, t.rv);
      var u := if s.mode.Idle? then t else if line == TIMER || s.current !in t.run.q then t.(run := Next(t.run)) else t;
      CreditCore(s, ram, line);
      YieldCore(t, ram);
      if CanResume(u) { ResumeOnward(s.rv, u, ram, taken); }
    case UnitCaches(_, _) => SelfOnward(s.rv);
  }

  lemma {:induction false} SelfOnward(rv: V.Rv)
    ensures Onward(rv, rv) && HandedOver(rv, rv)
  {}

  // ------------------------------------------------------------------- over runs

  lemma {:induction false} RunInv(s: State, ram: set<nat>, es: seq<Event>)
    requires Inv(s, ram) && Possible(s, es)
    ensures Inv(Run(s, es), ram)
  {
    hide Inv, Enabled, Step;
    if es != [] {
      var t := Run(s, es[..|es| - 1]);
      RunInv(s, ram, es[..|es| - 1]);
      InvSized(t, ram);
      StepInv(t, ram, es[|es| - 1]);
    }
  }

  /** A send nobody took and nobody waits with is never taken, whatever happens next. */
  lemma {:induction false} DroppedStaysDropped(s: State, ram: set<nat>, es: seq<Event>, k: nat)
    requires Inv(s, ram) && Possible(s, es) && Dropped(s.rv, k)
    ensures Dropped(Run(s, es).rv, k)
  {
    hide Inv, Enabled, Step, Dropped, Onward;
    if es != [] {
      var t := Run(s, es[..|es| - 1]);
      DroppedStaysDropped(s, ram, es[..|es| - 1], k);
      RunInv(s, ram, es[..|es| - 1]);
      InvSized(t, ram);
      StepOnward(t, ram, es[|es| - 1]);
      OnwardDropped(t.rv, Step(t, es[|es| - 1]).rv, k);
    }
  }

  /** A blocked sender woken with a refusal leaves its send dropped. */
  lemma {:induction false} RefusedIsDropped(s: State, i: nat)
    requires V.Sound(s.rv) && i < |s.rv.ports| && s.rv.ports[i].state.BlockedSend?
    ensures WakeRefused(s, i).rv.ports[i].r0 == NO_CAP && Dropped(WakeRefused(s, i).rv, s.rv.ports[i].tag)
  {
    hide V.MatchesOk, V.ReceiptsOk, V.OwedOk, V.Answered, V.OneSided;
    assert V.PortOk(s.rv.ports[i], s.rv.sends, s.rv.matches, s.rv.receipts);
  }
}
