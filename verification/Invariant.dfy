/** What holds at every kernel-entry boundary, and how the parts of the state hang together. */
module Invariant {
  import opened Abi
  import opened Basics
  import opened Capabilities
  import opened Deleg
  import opened Sched
  import opened Machine
  import A = Authority
  import M = Memory
  import V = Rendezvous

  // ------------------------------------------------------------------- authority in use is authority held

  /** Every mapped window is backed by a capability carrying the access it gives. */
  ghost predicate SharesHeld(caps: seq<Cap>, shares: seq<nat>, windows: seq<M.Window>) {
    forall k :: 0 <= k < |shares| && k < |windows| && shares[k] != 0 ==>
      && Holds(caps, RegionCap, shares[k], READ)
      && (windows[k].writable && windows[k].frames != [] ==> Holds(caps, RegionCap, shares[k], WRITE))
  }

  /** Every recorded device mapping is backed by both capabilities it was made under. */
  ghost predicate RecordsHeld(caps: seq<Cap>, dma: seq<M.Record>) {
    forall k :: 0 <= k < |dma| && dma[k].region != 0 ==>
      Holds(caps, RegionCap, dma[k].region, READ) && Holds(caps, IommuDomain, dma[k].domain, WRITE)
  }

  /** A blocked process holds what it is blocked under, and an interrupt waiter can be answered and
      has nothing left to collect. */
  ghost predicate WaitHeld(caps: seq<Cap>, state: V.PState, irq: seq<Line>) {
    match state
    case BlockedSend(ep, _, _) => Holds(caps, EndpointCap, ep, WRITE)
    case BlockedRecv(ep, _, _) => Holds(caps, EndpointCap, ep, READ)
    case BlockedIrq(line) => Creditable(caps, line) && line < |irq| && irq[line].pending == 0
    case _ => true
  }

  /** For each line a process holds, every interrupt since it was loaded has been collected, is
      still pending, or was lost to saturation; a line it does not hold has nothing pending. */
  ghost predicate LinesHeld(caps: seq<Cap>, irq: seq<Line>, fired: seq<nat>) {
    forall line :: 0 <= line < |irq| && line < |fired| ==>
      && irq[line].pending <= U64_MAX
      && if Holds(caps, Irq, line, READ)
         then irq[line].since + irq[line].returned + irq[line].pending + irq[line].dropped == fired[line]
         else irq[line].pending == 0
  }

  /** A process has at most one capability over any region, and only over regions that existed. */
  ghost predicate RegionCapsOk(caps: seq<Cap>, next: nat) {
    && (forall c :: 0 <= c < |caps| && caps[c].ty == RegionCap ==> 0 < caps[c].obj < next)
    && (forall c, d :: 0 <= c < d < |caps| && caps[c].ty == RegionCap && caps[d].ty == RegionCap ==> caps[c].obj != caps[d].obj)
  }

  /** The device window is backed by one capability naming its base, readable, and writable if the
      window is. */
  ghost predicate BarHeld(caps: seq<Cap>, bar: Option<Bar>) {
    bar.Some? ==> exists c :: 0 <= c < |caps| && Shows(caps[c], bar.value)
  }

  predicate Shows(cap: Cap, bar: Bar) {
    cap.ty == Mmio && cap.obj == bar.base && Contains(cap.rights, READ) && (bar.writable ==> Contains(cap.rights, WRITE))
  }

  ghost predicate Held(caps: seq<Cap>, sp: M.Space, state: V.PState, own: Own, fired: seq<nat>, next: nat) {
    && SharesHeld(caps, sp.shares, sp.windows)
    && RecordsHeld(caps, sp.dma)
    && WaitHeld(caps, state, own.irq)
    && LinesHeld(caps, own.irq, fired)
    && BarHeld(caps, own.bar)
    && RegionCapsOk(caps, next)
  }

  /** What process `i` has, it has authority for, its interrupts accounted against `fired`. */
  ghost predicate HeldAgainst(s: State, i: nat, fired: seq<nat>)
    requires Sized(s) && i < MAX_PROCS
  {
    Live(s, i) ==>
      Held(Caps(s, i), s.mem.spaces[i], s.rv.ports[i].state, s.own[i], fired, s.mem.nextRegion)
  }

  ghost predicate HeldAt(s: State, i: nat)
    requires Sized(s) && i < MAX_PROCS
  {
    HeldAgainst(s, i, s.fired)
  }

  ghost predicate Backed(s: State)
    requires Sized(s)
  {
    forall i :: 0 <= i < MAX_PROCS ==> HeldAt(s, i)
  }

  // ------------------------------------------------------------------- the parts agree

  ghost predicate AgreeAt(s: State, i: nat)
    requires Sized(s) && i < MAX_PROCS
  {
    && s.auth.spaces[i].live == s.mem.spaces[i].live == Live(s, i)
    && s.auth.spaces[i].id == s.mem.spaces[i].id == s.rv.ports[i].id
  }

  ghost predicate Coherent(s: State)
    requires Sized(s)
  {
    forall i :: 0 <= i < MAX_PROCS ==> AgreeAt(s, i)
  }

  /** The run queue is exactly the ready processes, each once. */
  ghost predicate QueueIs(run: RunQ, ports: seq<V.Port>) {
    QueueOk(run) && forall i: nat :: i in run.q <==> i < |ports| && ports[i].state.Ready?
  }

  /** Everything but the ledger's exactness. */
  ghost predicate Body(s: State, ram: set<nat>) {
    && Sized(s) && Coherent(s) && Backed(s)
    && M.Sound(s.mem, ram) && V.Sound(s.rv) && QueueIs(s.run, s.rv.ports)
  }

  ghost predicate Core(s: State, ram: set<nat>) {
    Body(s, ram) && A.Sound(s.auth)
  }

  /** The running process is ready, is the queue's current one, and is owed no copy; otherwise
      nothing is runnable, and the machine is parked, deadlocked or done as its processes say. */
  ghost predicate ModeOk(s: State) {
    if s.mode.Running? then
      && s.run.cur < |s.run.q| && s.run.q[s.run.cur] == s.current < |s.rv.ports|
      && s.rv.ports[s.current].state.Ready? && s.rv.ports[s.current].pending == 0
    else Sized(s) && s.run.q == [] && s.mode == Verdict(s)
  }

  ghost predicate Inv(s: State, ram: set<nat>) {
    Core(s, ram) && ModeOk(s)
  }

  // ------------------------------------------------------------------- changing one process's port

  /** `t` is `s` except for message passing, interrupt lines and scheduling. */
  ghost predicate OnlyTalk(s: State, t: State) {
    t.auth == s.auth && t.mem == s.mem && |t.rv.ports| == |s.rv.ports| && |t.own| == |s.own|
  }

  /** A change to message passing and scheduling keeps everything else, given the new waits are
      held. */
  lemma {:induction false} TalkBody(s: State, t: State, ram: set<nat>)
    requires Body(s, ram) && OnlyTalk(s, t) && t.own == s.own && t.fired == s.fired
    requires V.Sound(t.rv) && QueueIs(t.run, t.rv.ports)
    requires forall i :: 0 <= i < MAX_PROCS ==>
               t.rv.ports[i].id == s.rv.ports[i].id && (t.rv.ports[i].state.Free? <==> s.rv.ports[i].state.Free?)
    requires forall i :: 0 <= i < MAX_PROCS ==>
               t.rv.ports[i].state == s.rv.ports[i].state || WaitHeld(Caps(s, i), t.rv.ports[i].state, s.own[i].irq)
    ensures Body(t, ram)
  {
    hide M.SoundBut, V.Sound, QueueIs, WaitHeld, SharesHeld, RecordsHeld, LinesHeld, RegionCapsOk, BarHeld;
    forall i | 0 <= i < MAX_PROCS ensures HeldAt(t, i) && AgreeAt(t, i) {
      assert HeldAt(s, i) && AgreeAt(s, i);
    }
  }

  /** The port of a live process may change to any calm one. */
  lemma {:induction false} CalmBody(s: State, t: State, ram: set<nat>, i: nat, p: V.Port)
    requires Body(s, ram) && i < MAX_PROCS && Live(s, i) && s.rv.ports[i].pending == 0
    requires V.Calm(p) && p.id == s.rv.ports[i].id && !p.state.Free?
    requires t == SetPort(s, i, p).(run := t.run)
    requires p.state == s.rv.ports[i].state || WaitHeld(Caps(s, i), p.state, s.own[i].irq)
    requires QueueIs(t.run, t.rv.ports)
    ensures Body(t, ram)
  {
    hide M.SoundBut, V.Sound, QueueIs, WaitHeld, Held, V.Calm;
    V.CalmSound(s.rv, i, p);
    TalkBody(s, t, ram);
  }

  lemma {:induction false} SameStateQueue(run: RunQ, ports: seq<V.Port>, i: nat, p: V.Port)
    requires QueueIs(run, ports) && i < |ports| && (p.state.Ready? <==> ports[i].state.Ready?)
    ensures QueueIs(run, ports[i := p])
  {}

  lemma {:induction false} AddQueue(run: RunQ, ports: seq<V.Port>, i: nat, p: V.Port)
    requires QueueIs(run, ports) && i < |ports| && p.state.Ready?
    ensures QueueIs(Add(run, i), ports[i := p])
  {
    AddOk(run, i);
  }

  lemma {:induction false} RemoveQueue(run: RunQ, ports: seq<V.Port>, i: nat, p: V.Port)
    requires QueueIs(run, ports) && i < |ports| && !p.state.Ready?
    ensures QueueIs(Remove(run, i), ports[i := p])
  {
    RemoveOk(run, i);
  }

  /** A process able to receive a result: ready and owed nothing. */
  ghost predicate Receptive(s: State, i: nat) {
    i < |s.rv.ports| && s.rv.ports[i].state.Ready? && s.rv.ports[i].pending == 0
  }

  lemma {:induction false} PortShape(s: State, i: nat)
    requires V.Sound(s.rv) && i < |s.rv.ports|
    ensures |s.rv.ports[i].msg| == MAX_MSG_BYTES
    ensures s.rv.ports[i].state.BlockedRecv? || s.rv.ports[i].state.BlockedSend? || s.rv.ports[i].state.BlockedIrq? ==> s.rv.ports[i].pending == 0
  {
    assert V.PortOk(s.rv.ports[i], s.rv.sends, s.rv.matches, s.rv.receipts);
  }

  /** Handing a result to a receptive process changes nothing else. */
  lemma {:induction false} ReturnBody(s: State, ram: set<nat>, i: nat, r0: nat, r1: nat, r2: nat)
    requires Body(s, ram) && i < MAX_PROCS && Receptive(s, i)
    ensures Body(Return(s, i, r0), ram) && Body(Return3(s, i, r0, r1, r2), ram)
    ensures Receptive(Return(s, i, r0), i) && Receptive(Return3(s, i, r0, r1, r2), i)
  {
    hide M.SoundBut, V.Sound, WaitHeld, Held, QueueIs;
    PortShape(s, i);
    var p := s.rv.ports[i];
    SameStateQueue(s.run, s.rv.ports, i, p.(r0 := r0));
    SameStateQueue(s.run, s.rv.ports, i, p.(r0 := r0, r1 := r1, r2 := r2));
    CalmBody(s, Return(s, i, r0), ram, i, p.(r0 := r0));
    CalmBody(s, Return3(s, i, r0, r1, r2), ram, i, p.(r0 := r0, r1 := r1, r2 := r2));
  }

  lemma {:induction false} ReturnCore(s: State, ram: set<nat>, i: nat, r0: nat, r1: nat, r2: nat)
    requires Core(s, ram) && i < MAX_PROCS && Receptive(s, i)
    ensures Core(Return(s, i, r0), ram) && Core(Return3(s, i, r0, r1, r2), ram)
    ensures Receptive(Return(s, i, r0), i) && Receptive(Return3(s, i, r0, r1, r2), i)
  {
    hide Body, A.Sound;
    ReturnBody(s, ram, i, r0, r1, r2) by { BodySized(s, ram); }
  }

  lemma {:induction false} BodySized(s: State, ram: set<nat>)
    requires Body(s, ram)
    ensures Sized(s)
  {}

  lemma {:induction false} WakeRefusedBody(s: State, ram: set<nat>, i: nat)
    requires Body(s, ram) && i < MAX_PROCS && Live(s, i) && s.rv.ports[i].pending == 0
    ensures Body(WakeRefused(s, i), ram)
  {
    hide M.SoundBut, V.Sound, Held, QueueIs;
    PortShape(s, i);
    var p := s.rv.ports[i];
    var q := (if p.state.BlockedRecv? then p.(r0 := NO_CAP, r1 := 0, r2 := 0) else p.(r0 := NO_CAP)).(state := V.Ready, pending := 0);
    AddQueue(s.run, s.rv.ports, i, q);
    CalmBody(s, WakeRefused(s, i), ram, i, q);
  }

  lemma {:induction false} WakeRefusedWhereBody(s: State, ram: set<nat>, wake: seq<bool>, n: nat)
    requires Body(s, ram) && n <= |wake| == MAX_PROCS && |s.rv.ports| == MAX_PROCS
    requires forall i :: 0 <= i < MAX_PROCS && wake[i] ==> Live(s, i) && s.rv.ports[i].pending == 0
    ensures var t := WakeRefusedWhere(s, wake, n);
            && Body(t, ram) && t.auth == s.auth && t.mem == s.mem && t.own == s.own && t.fired == s.fired
            && t.mode == s.mode && t.current == s.current
            && forall i :: 0 <= i < MAX_PROCS && !(i < n && wake[i]) ==> t.rv.ports[i] == s.rv.ports[i]
  {
    hide Body, Held;
    if n > 0 {
      WakeRefusedWhereBody(s, ram, wake, n - 1);
      if wake[n - 1] { WakeRefusedBody(WakeRefusedWhere(s, wake, n - 1), ram, n - 1); }
    }
  }

  /** A running process blocks, under authority it holds. */
  lemma {:induction false} BlockIrqBody(s: State, ram: set<nat>, i: nat, line: nat)
    requires Body(s, ram) && i < MAX_PROCS && Receptive(s, i)
    requires WaitHeld(Caps(s, i), V.BlockedIrq(line), s.own[i].irq)
    ensures Body(Block(s, i, V.BlockedIrq(line)), ram)
  {
    hide M.SoundBut, V.Sound, Held, QueueIs, WaitHeld;
    PortShape(s, i);
    var p := s.rv.ports[i].(state := V.BlockedIrq(line));
    RemoveQueue(s.run, s.rv.ports, i, p);
    CalmBody(s, Block(s, i, V.BlockedIrq(line)), ram, i, p);
  }

  // ------------------------------------------------------------------- interrupt lines

  /** A line's account stays balanced when what was pending is handed over, or one more accrues. */
  lemma {:induction false} LineBody(s: State, ram: set<nat>, i: nat, line: nat, l: Line)
    requires Body(s, ram) && i < MAX_PROCS && line < MAX_IRQ_LINES
    requires Live(s, i) ==> Holds(Caps(s, i), Irq, line, READ)
    requires l.pending <= U64_MAX
    requires var o := s.own[i].irq[line];
             l.since + l.returned + l.pending + l.dropped == o.since + o.returned + o.pending + o.dropped
    requires s.rv.ports[i].state == V.BlockedIrq(line) ==> l.pending == 0
    ensures Body(SetLine(s, i, line, l), ram)
  {
    hide M.SoundBut, V.Sound, QueueIs, SharesHeld, RecordsHeld, RegionCapsOk, BarHeld, Holds;
    var t := SetLine(s, i, line, l);
    forall j | 0 <= j < MAX_PROCS ensures HeldAt(t, j) && AgreeAt(t, j) {
      assert HeldAt(s, j) && AgreeAt(s, j);
    }
  }

  lemma {:induction false} PollCore(s: State, ram: set<nat>, i: nat, cap: nat)
    requires Core(s, ram) && i < MAX_PROCS && Receptive(s, i)
    ensures Core(PollStep(s, i, cap), ram)
  {
    hide A.Sound, M.SoundBut, V.Sound, QueueIs, Held, Holds, Coherent;
    var line := ObjectOf(Caps(s, i), cap, Irq, READ);
    if line.Some? && line.value < MAX_IRQ_LINES {
      var l := s.own[i].irq[line.value];
      LineBody(s, ram, i, line.value, Take(l));
      ReturnBody(SetLine(s, i, line.value, Take(l)), ram, i, l.pending, 0, 0);
    } else {
      ReturnCore(s, ram, i, NO_CAP, 0, 0);
      ReturnCore(s, ram, i, 0, 0, 0);
    }
  }

  lemma {:induction false} WaitCore(s: State, ram: set<nat>, i: nat, cap: nat)
    requires Core(s, ram) && i < MAX_PROCS && Receptive(s, i)
    ensures Core(WaitStep(s, i, cap), ram)
  {
    hide A.Sound, M.SoundBut, V.Sound, QueueIs, Held, Holds, Coherent;
    var line := ObjectOf(Caps(s, i), cap, Irq, READ);
    if line.Some? && Delivers(line.value) {
      var l := s.own[i].irq[line.value];
      if l.pending > 0 {
        LineBody(s, ram, i, line.value, Take(l));
        ReturnBody(SetLine(s, i, line.value, Take(l)), ram, i, l.pending, 0, 0);
      } else {
        BlockIrqBody(s, ram, i, line.value);
      }
    } else {
      ReturnCore(s, ram, i, NO_CAP, 0, 0);
      ReturnCore(s, ram, i, 0, 0, 0);
    }
  }

  // ------------------------------------------------------------------- SEND and RECV

  lemma {:induction false} SendCore(s: State, ram: set<nat>, i: nat, cap: nat, word: nat, len: nat, mem: seq<nat>)
    requires Core(s, ram) && i < MAX_PROCS && Receptive(s, i)
    ensures Core(SendStep(s, i, cap, word, len, mem), ram)
  {
    hide A.Sound, M.SoundBut, V.Sound, QueueIs, Held, Holds, Coherent, V.Filled, V.SendMatched, V.SendParked;
    ReturnCore(s, ram, i, NO_CAP, 0, 0);
    ReturnCore(s, ram, i, FAULT, 0, 0);
    var ep := ObjectOf(Caps(s, i), cap, EndpointCap, WRITE);
    if ep.Some? && len <= MAX_MSG_BYTES {
      var r := V.FindRecv(s.rv.ports, ep.value);
      if r < |s.rv.ports| {
        if V.Min(len, s.rv.ports[r].state.max) <= |mem| { SendMatchedBody(s, ram, i, r, word, len, mem); }
      } else if len <= |mem| {
        SendParkedBody(s, ram, i, ep.value, word, len, mem);
      }
    }
  }

  lemma {:induction false} SendMatchedBody(s: State, ram: set<nat>, i: nat, r: nat, word: nat, len: nat, mem: seq<nat>)
    requires Body(s, ram) && i < MAX_PROCS && Receptive(s, i) && r < MAX_PROCS
    requires s.rv.ports[r].state.BlockedRecv? && V.Min(len, s.rv.ports[r].state.max) <= |mem|
    ensures Body(s.(rv := V.SendMatched(s.rv, i, r, word, len, mem), run := Add(s.run, r)), ram)
  {
    hide M.SoundBut, V.Sound, QueueIs, Held, Holds, Coherent, V.Filled;
    V.SendMatchedSound(s.rv, i, r, word, len, mem);
    var t := s.(rv := V.SendMatched(s.rv, i, r, word, len, mem), run := Add(s.run, r));
    var ports := s.rv.ports[r := t.rv.ports[r]];
    AddQueue(s.run, s.rv.ports, r, t.rv.ports[r]);
    SameStateQueue(Add(s.run, r), ports, i, t.rv.ports[i]);
    assert t.rv.ports == ports[i := t.rv.ports[i]];
    TalkBody(s, t, ram);
  }

  lemma {:induction false} SendParkedBody(s: State, ram: set<nat>, i: nat, ep: nat, word: nat, len: nat, mem: seq<nat>)
    requires Body(s, ram) && i < MAX_PROCS && Receptive(s, i) && len <= MAX_MSG_BYTES && len <= |mem|
    requires Holds(Caps(s, i), EndpointCap, ep, WRITE)
    requires forall j :: 0 <= j < |s.rv.ports| ==> !(s.rv.ports[j].state.BlockedRecv? && s.rv.ports[j].state.ep == ep)
    ensures Body(s.(rv := V.SendParked(s.rv, i, ep, word, len, mem), run := Remove(s.run, i)), ram)
  {
    hide M.SoundBut, V.Sound, QueueIs, Held, Holds, Coherent, V.Filled;
    V.SendParkedSound(s.rv, i, ep, word, len, mem);
    var t := s.(rv := V.SendParked(s.rv, i, ep, word, len, mem), run := Remove(s.run, i));
    RemoveQueue(s.run, s.rv.ports, i, t.rv.ports[i]);
    TalkBody(s, t, ram);
  }

  lemma {:induction false} RecvCore(s: State, ram: set<nat>, i: nat, cap: nat, dst: nat, want: nat, writable: bool, copied: bool)
    requires Core(s, ram) && i < MAX_PROCS && Receptive(s, i)
    ensures Core(RecvStep(s, i, cap, dst, want, writable, copied), ram)
  {
    hide A.Sound, M.SoundBut, V.Sound, QueueIs, Held, Holds, Coherent, V.RecvMatched, V.RecvParked;
    ReturnCore(s, ram, i, 0, NO_CAP, 0);
    ReturnCore(s, ram, i, NO_CAP, 0, 0);
    ReturnCore(s, ram, i, FAULT, 0, 0);
    var max := V.Min(want, MAX_MSG_BYTES);
    var ep := ObjectOf(Caps(s, i), cap, EndpointCap, READ);
    if ep.Some? {
      var q := V.FindSend(s.rv.ports, ep.value);
      if q < |s.rv.ports| {
        RecvMatchedBody(s, ram, i, q, max);
      } else {
        RecvParkedBody(s, ram, i, ep.value, dst, max);
      }
    }
  }

  lemma {:induction false} RecvMatchedBody(s: State, ram: set<nat>, i: nat, q: nat, max: nat)
    requires Body(s, ram) && i < MAX_PROCS && Receptive(s, i) && q < MAX_PROCS && s.rv.ports[q].state.BlockedSend?
    ensures Body(s.(rv := V.RecvMatched(s.rv, i, q, max), run := Add(s.run, q)), ram)
  {
    hide M.SoundBut, V.Sound, QueueIs, Held, Holds, Coherent;
    V.RecvMatchedSound(s.rv, i, q, max);
    var t := s.(rv := V.RecvMatched(s.rv, i, q, max), run := Add(s.run, q));
    var ports := s.rv.ports[i := t.rv.ports[i]];
    SameStateQueue(s.run, s.rv.ports, i, t.rv.ports[i]);
    AddQueue(s.run, ports, q, t.rv.ports[q]);
    assert t.rv.ports == ports[q := t.rv.ports[q]];
    TalkBody(s, t, ram);
  }

  lemma {:induction false} RecvParkedBody(s: State, ram: set<nat>, i: nat, ep: nat, dst: nat, max: nat)
    requires Body(s, ram) && i < MAX_PROCS && Receptive(s, i) && max <= MAX_MSG_BYTES
    requires Holds(Caps(s, i), EndpointCap, ep, READ)
    requires forall j :: 0 <= j < |s.rv.ports| ==> !(s.rv.ports[j].state.BlockedSend? && s.rv.ports[j].state.ep == ep)
    ensures Body(s.(rv := V.RecvParked(s.rv, i, ep, dst, max), run := Remove(s.run, i)), ram)
  {
    hide M.SoundBut, V.Sound, QueueIs, Held, Holds, Coherent;
    V.RecvParkedSound(s.rv, i, ep, dst, max);
    var t := s.(rv := V.RecvParked(s.rv, i, ep, dst, max), run := Remove(s.run, i));
    RemoveQueue(s.run, s.rv.ports, i, t.rv.ports[i]);
    TalkBody(s, t, ram);
  }

  // ------------------------------------------------------------------- interrupts arriving

  /** The counts before the latest interrupt on `line`. */
  function Uncounted(fired: seq<nat>, line: nat): seq<nat> {
    if line < |fired| && fired[line] > 0 then fired[line := fired[line] - 1] else fired
  }

  /** While an interrupt is being credited, processes past `n` have yet to account for it. */
  ghost predicate Owing(s: State, line: nat, n: nat, ram: set<nat>) {
    && Sized(s) && line < MAX_IRQ_LINES && n <= MAX_PROCS && s.fired[line] > 0
    && Coherent(s) && M.Sound(s.mem, ram) && V.Sound(s.rv) && QueueIs(s.run, s.rv.ports)
    && (forall i :: 0 <= i < n ==> HeldAt(s, i))
    && (forall i :: n <= i < MAX_PROCS ==> HeldAgainst(s, i, Uncounted(s.fired, line)))
  }

  lemma {:induction false} CreditOneOwing(s: State, line: nat, i: nat, ram: set<nat>)
    requires i < MAX_PROCS && Owing(s, line, i, ram)
    ensures Owing(CreditOne(s, line, i), line, i + 1, ram)
  {
    hide M.SoundBut, V.Sound, QueueIs, Held, Holds, Accrue, Take;
    var t := CreditOne(s, line, i);
    if Live(s, i) && Holds(Caps(s, i), Irq, line, READ) && s.rv.ports[i].state == V.BlockedIrq(line) {
      PortShape(s, i);
      var p := s.rv.ports[i].(state := V.Ready, r0 := Accrue(s.own[i].irq[line]).pending);
      AddQueue(s.run, s.rv.ports, i, p);
      V.CalmSound(s.rv, i, p);
    }
    CreditHeld(s, line, i, ram);
    forall j | 0 <= j < MAX_PROCS
      ensures AgreeAt(t, j)
      ensures j < i ==> HeldAt(t, j)
      ensures j > i ==> HeldAgainst(t, j, Uncounted(t.fired, line))
    {
      assert AgreeAt(s, j);
      assert j < i ==> HeldAt(s, j);
      assert j > i ==> HeldAgainst(s, j, Uncounted(s.fired, line));
    }
  }

  lemma {:induction false} CreditHeld(s: State, line: nat, i: nat, ram: set<nat>)
    requires i < MAX_PROCS && Owing(s, line, i, ram)
    ensures Sized(CreditOne(s, line, i)) && HeldAt(CreditOne(s, line, i), i)
  {
    hide M.SoundBut, V.Sound, QueueIs, SharesHeld, RecordsHeld, RegionCapsOk, BarHeld, Holds, Coherent;
    var fired := Uncounted(s.fired, line);
    assert HeldAgainst(s, i, fired);
    if Live(s, i) {
      var t := CreditOne(s, line, i);
      LinesCredited(Caps(s, i), s.own[i].irq, t.own[i].irq, line, fired, s.fired);
    }
  }

  /** One interrupt on one line, credited to its holder or ignored. */
  lemma {:induction false} LinesCredited(caps: seq<Cap>, irq: seq<Line>, irq': seq<Line>, line: nat, fired: seq<nat>, fired': seq<nat>)
    requires LinesHeld(caps, irq, fired) && line < |irq| == |irq'| && |fired| == |fired'| && line < |fired|
    requires fired' == fired[line := fired[line] + 1]
    requires forall k :: 0 <= k < |irq| && k != line ==> irq'[k] == irq[k]
    requires if Holds(caps, Irq, line, READ) then irq'[line] == Accrue(irq[line]) || irq'[line] == Take(Accrue(irq[line]))
             else irq'[line] == irq[line]
    ensures LinesHeld(caps, irq', fired')
  {
    hide Holds;
  }

  lemma {:induction false} CreditToOwing(s: State, line: nat, n: nat, ram: set<nat>)
    requires Core(s, ram) && line < MAX_IRQ_LINES && n <= MAX_PROCS
    ensures Owing(CreditTo(s, line, n), line, n, ram)
    ensures var t := CreditTo(s, line, n);
            t.auth == s.auth && t.mode == s.mode && t.current == s.current && t.run.cur == s.run.cur && s.run.q <= t.run.q
    ensures forall i :: 0 <= i < MAX_PROCS && s.rv.ports[i].state.Ready? ==> CreditTo(s, line, n).rv.ports[i] == s.rv.ports[i]
  {
    hide Body, Owing, CreditOne, A.Sound, Sized;
    BodySized(s, ram);
    if n == 0 {
      StartOwing(s, line, ram);
    } else {
      CreditToOwing(s, line, n - 1, ram);
      OwingSized(CreditTo(s, line, n - 1), line, n - 1, ram);
      CreditOneOwing(CreditTo(s, line, n - 1), line, n - 1, ram);
      CreditOneQueue(CreditTo(s, line, n - 1), line, n - 1);
    }
  }

  lemma {:induction false} CreditOneQueue(s: State, line: nat, i: nat)
    requires Sized(s) && i < MAX_PROCS && line < MAX_IRQ_LINES
    ensures var t := CreditOne(s, line, i);
            t.auth == s.auth && t.mode == s.mode && t.current == s.current && t.run.cur == s.run.cur && s.run.q <= t.run.q
            && |t.rv.ports| == |s.rv.ports|
            && forall j :: 0 <= j < MAX_PROCS && s.rv.ports[j].state.Ready? ==> t.rv.ports[j] == s.rv.ports[j]
  {}

  lemma {:induction false} OwingSized(s: State, line: nat, n: nat, ram: set<nat>)
    requires Owing(s, line, n, ram)
    ensures Sized(s)
  {}

  lemma {:induction false} StartOwing(s: State, line: nat, ram: set<nat>)
    requires Core(s, ram) && line < MAX_IRQ_LINES
    ensures Owing(s.(fired := s.fired[line := s.fired[line] + 1]), line, 0, ram)
  {
    hide A.Sound, M.SoundBut, V.Sound, QueueIs, Held;
    var t := s.(fired := s.fired[line := s.fired[line] + 1]);
    assert Uncounted(t.fired, line) == s.fired;
    forall i | 0 <= i < MAX_PROCS ensures AgreeAt(t, i) { assert AgreeAt(s, i); }
    forall i | 0 <= i < MAX_PROCS ensures HeldAgainst(t, i, Uncounted(t.fired, line)) {
      assert HeldAt(s, i);
    }
  }

  /** Crediting a line leaves every holder's account of it balanced, wakes exactly its waiters, and
      touches no other line. */
  lemma {:induction false} CreditCore(s: State, ram: set<nat>, line: nat)
    requires Core(s, ram) && line < MAX_IRQ_LINES
    ensures Core(Credit(s, line), ram)
    ensures var t := Credit(s, line);
            t.mode == s.mode && t.current == s.current && t.run.cur == s.run.cur && s.run.q <= t.run.q
    ensures forall i :: 0 <= i < MAX_PROCS && s.rv.ports[i].state.Ready? ==> Credit(s, line).rv.ports[i] == s.rv.ports[i]
    ensures Credited(s, Credit(s, line), line, MAX_PROCS)
  {
    hide A.Sound, Credited, M.SoundBut, V.Sound, QueueIs, HeldAt, CreditTo, Coherent;
    CreditToOwing(s, line, MAX_PROCS, ram);
    CreditedTo(s, line, MAX_PROCS);
  }

  /** Exactly the holders among the first `n` that were waiting for the line have been woken. */
  ghost predicate Credited(s: State, t: State, line: nat, n: nat) {
    && Sized(s) && Sized(t) && t.auth == s.auth
    && forall i :: 0 <= i < MAX_PROCS ==>
         if i < n && s.rv.ports[i].state == V.BlockedIrq(line) && Holds(Caps(s, i), Irq, line, READ)
         then t.rv.ports[i].state.Ready? else t.rv.ports[i] == s.rv.ports[i]
  }

  lemma {:induction false} CreditedTo(s: State, line: nat, n: nat)
    requires Sized(s) && line < MAX_IRQ_LINES && n <= MAX_PROCS
    ensures Credited(s, CreditTo(s, line, n), line, n)
  {
    hide CreditOne, Holds;
    if n > 0 {
      CreditedTo(s, line, n - 1);
      CreditOnePort(CreditTo(s, line, n - 1), line, n - 1);
    }
  }

  lemma {:induction false} CreditOnePort(s: State, line: nat, i: nat)
    requires Sized(s) && i < MAX_PROCS && line < MAX_IRQ_LINES
    ensures var t := CreditOne(s, line, i);
            && t.auth == s.auth && Sized(t)
            && (forall j :: 0 <= j < MAX_PROCS && j != i ==> t.rv.ports[j] == s.rv.ports[j])
            && if s.rv.ports[i].state == V.BlockedIrq(line) && Holds(Caps(s, i), Irq, line, READ)
               then t.rv.ports[i].state.Ready? else t.rv.ports[i] == s.rv.ports[i]
  {
    hide Holds;
  }
}
