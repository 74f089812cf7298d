/** What each system call does, read off its arguments and the state it is made in: exactly when it is
    refused and with which code, what it changes, and that it changes nothing else. */
module Calls {
  import opened Abi
  import opened Basics
  import opened Capabilities
  import opened Deleg
  import opened Sched
  import opened Machine
  import opened Invariant
  import opened Runs
  import A = Authority
  import M = Memory
  import V = Rendezvous

  /** Slot `c` holds a capability of this type with at least these rights. */
  predicate Carries(caps: seq<Cap>, c: nat, ty: CapType, need: Rights) {
    c < |caps| && caps[c].ty == ty && Contains(caps[c].rights, need)
  }

  /** Nothing is different but the status process `i` finds. */
  predicate OnlyTold(s: State, u: State, i: nat, r0: nat) {
    i < |s.rv.ports| && u == s.(rv := s.rv.(ports := s.rv.ports[i := s.rv.ports[i].(r0 := r0)]))
  }

  /** The same for a call that returns three registers. */
  predicate OnlyTold3(s: State, u: State, i: nat, r0: nat) {
    i < |s.rv.ports| && u == s.(rv := s.rv.(ports := s.rv.ports[i := s.rv.ports[i].(r0 := r0, r1 := 0, r2 := 0)]))
  }

  // ------------------------------------------------------------------- the end of an entry

  /** After the call itself (`t`) somebody runs, first taking what it is owed; that is all that still
      changes (`u`). With nobody to run, only the verdict does. */
  ghost predicate Ended(t: State, u: State) {
    && u == t.(rv := u.rv, current := u.current, mode := u.mode)
    && u.rv.sends == t.rv.sends && u.rv.matches == t.rv.matches && t.rv.receipts <= u.rv.receipts
    && |u.rv.ports| == |t.rv.ports|
    && (forall j :: 0 <= j < |t.rv.ports| ==>
          && u.rv.ports[j].state == t.rv.ports[j].state && u.rv.ports[j].id == t.rv.ports[j].id
          && (t.rv.ports[j].pending == 0 || j != u.current || t.run.q == [] ==> u.rv.ports[j] == t.rv.ports[j]))
    && if t.run.q == [] then u.rv == t.rv && u.current == t.current && !u.mode.Running?
       else u.mode.Running? && t.run.cur < |t.run.q| && u.current == t.run.q[t.run.cur] < |t.rv.ports|
            && (t.rv.ports[u.current].pending == 0 ==> u.rv == t.rv)
  }

  lemma {:induction false} EntryEnds(s: State, ram: set<nat>, call: Call, taken: bool)
    requires Inv(s, ram) && Enabled(s, Syscall(call, taken))
    ensures Sized(Service(s, s.current, call)) && Sized(Step(s, Syscall(call, taken)))
    ensures Ended(Service(s, s.current, call), Step(s, Syscall(call, taken)))
  {
    hide Body, A.Sound, Service, Verdict, Feasible, Ended, Sized, Resume;
    var t := Service(s, s.current, call);
    ServiceCore(s, ram, call);
    BodySized(t, ram);
    DispatchInv(t, ram, taken);
    InvSized(Dispatch(t, taken), ram);
    QueueResumes(t, ram);
    if CanResume(t) { ResumeEnds(t, taken); } else { HaltVerdict(t); VerdictEnds(t, Verdict(t)); }
  }

  lemma {:induction false} HaltVerdict(t: State)
    requires Sized(t)
    ensures !Verdict(t).Running?
  {
    hide Creditable;
  }

  lemma {:induction false} ResumeEnds(t: State, taken: bool)
    requires CanResume(t)
    ensures Ended(t, Resume(t, taken))
  {}

  lemma {:induction false} VerdictEnds(t: State, mode: Mode)
    requires t.run.q == [] && !mode.Running?
    ensures Ended(t, t.(mode := mode))
  {}

  /** A call that changes no more than its caller's registers leaves its caller running. */
  lemma {:induction false} StillRunning(s: State, ram: set<nat>, t: State, u: State)
    requires Inv(s, ram) && s.mode.Running? && Ended(t, u) && t == s.(rv := t.rv) && |t.rv.ports| == |s.rv.ports|
    requires s.current < |t.rv.ports| && t.rv.ports[s.current].pending == s.rv.ports[s.current].pending
    ensures u == t
  {
    hide Body, A.Sound;
  }

  /** A caller that stays at the head of its turn, owed nothing, runs on. */
  lemma {:induction false} RunsOn(s: State, ram: set<nat>, t: State, u: State)
    requires Inv(s, ram) && s.mode.Running? && Ended(t, u)
    requires t.run.cur == s.run.cur && s.run.q <= t.run.q && t.mode == s.mode && t.current == s.current
    requires s.current < |t.rv.ports| && t.rv.ports[s.current].pending == 0
    ensures u == t
  {
    hide Body, A.Sound;
  }

  /** The caller can be told things. */
  lemma {:induction false} CallerReady(s: State, ram: set<nat>)
    requires Inv(s, ram) && s.mode.Running?
    ensures Sized(s) && s.current < |s.rv.ports| == |s.auth.spaces| == MAX_PROCS && Receptive(s, s.current) && Live(s, s.current)
    ensures s.run.cur < |s.run.q| && s.run.q[s.run.cur] == s.current && QueueIs(s.run, s.rv.ports)
    ensures forall j :: 0 <= j < MAX_PROCS ==> AgreeAt(s, j) && HeldAt(s, j)
  {
    hide M.SoundBut, V.Sound, A.Sound, HeldAt;
  }

  // ------------------------------------------------------------------- YIELD

  /** YIELD passes the turn to whoever is queued after the caller, round the end, and does nothing else
      but give the next process what it is owed. */
  lemma {:induction false} YieldPassesTheTurn(s: State, ram: set<nat>, taken: bool)
    requires Inv(s, ram) && Enabled(s, Syscall(Yield, taken))
    ensures var u, n := Step(s, Syscall(Yield, taken)), |s.run.q|;
            && u == s.(rv := u.rv, run := u.run, current := u.current) && u.run.q == s.run.q
            && 0 < n && s.run.cur < n && s.run.q[s.run.cur] == s.current
            && u.run.cur == (s.run.cur + 1) % n && u.current == s.run.q[(s.run.cur + 1) % n]
            && |u.rv.ports| == |s.rv.ports|
            && forall j :: 0 <= j < |s.rv.ports| && (j != u.current || s.rv.ports[j].pending == 0) ==> u.rv.ports[j] == s.rv.ports[j]
  {
    hide Body, A.Sound, Sized, Step;
    EntryEnds(s, ram, Yield, taken);
  }

  // ------------------------------------------------------------------- SEND

  /** `n` is the smaller of the two. */
  predicate Least(n: nat, a: nat, b: nat) {
    n <= a && n <= b && (n == a || n == b)
  }

  predicate WaitsToReceive(p: V.Port, ep: nat) {
    p.state.BlockedRecv? && p.state.ep == ep
  }

  predicate WaitsToSend(p: V.Port, ep: nat) {
    p.state.BlockedSend? && p.state.ep == ep
  }

  /** What the sender's memory at its buffer was, up to `n` bytes, is what process `p` now holds. */
  predicate Carried(p: V.Port, mem: seq<nat>, n: nat) {
    n <= |mem| && n <= |p.msg| && p.msg[..n] == mem[..n]
  }

  /** Nothing but message passing and scheduling is different. */
  predicate TalkOnly(s: State, u: State) {
    u.auth == s.auth && u.mem == s.mem && u.own == s.own && u.fired == s.fired && |u.rv.ports| == |s.rv.ports|
  }

  /** Process `r` is the first in the table waiting to receive on the endpoint. */
  ghost predicate FirstReceiver(ports: seq<V.Port>, ep: nat, r: nat) {
    r < |ports| && WaitsToReceive(ports[r], ep) && forall j :: 0 <= j < r ==> !WaitsToReceive(ports[j], ep)
  }

  ghost predicate NobodyReceives(ports: seq<V.Port>, ep: nat) {
    forall j :: 0 <= j < |ports| ==> !WaitsToReceive(ports[j], ep)
  }

  /** SEND met `r`, the first process waiting on the endpoint: `r` is told OK, the word and how many
      bytes it is owed at the address it offered; the sender is told OK and runs on. */
  ghost predicate SendMet(s: State, u: State, i: nat, r: nat, ep: nat, word: nat, len: nat, mem: seq<nat>)
    requires i < |s.rv.ports| && r < |s.rv.ports| && WaitsToReceive(s.rv.ports[r], ep)
  {
    && TalkOnly(s, u) && u.mode.Running? && u.current == i && u.run == RunQ(s.run.q + [r], s.run.cur)
    && u.rv.sends == s.rv.sends + [V.Sent(s.rv.ports[i].id, ep, word, len, mem)]
    && u.rv.matches == s.rv.matches + [V.Match(|s.rv.sends|, s.rv.ports[r].id, ep, s.rv.ports[r].state.max)]
    && u.rv.ports[i] == s.rv.ports[i].(r0 := OK)
    && var p, q := s.rv.ports[r], u.rv.ports[r];
    && q.state.Ready? && q.id == p.id && q.r0 == OK && q.r1 == word && Least(q.r2, len, p.state.max)
    && q.pending == q.r2 && q.dst == p.state.dst && Carried(q, mem, q.r2)
    && forall j :: 0 <= j < |s.rv.ports| && j != i && j != r ==> u.rv.ports[j] == s.rv.ports[j]
  }

  /** SEND found nobody: the sender waits with what it sent, and somebody else runs. */
  ghost predicate SendWaits(s: State, u: State, i: nat, ep: nat, word: nat, len: nat, mem: seq<nat>)
    requires i < |s.rv.ports|
  {
    && TalkOnly(s, u)
    && u.rv.sends == s.rv.sends + [V.Sent(s.rv.ports[i].id, ep, word, len, mem)] && u.rv.matches == s.rv.matches
    && u.rv.ports[i].state == V.BlockedSend(ep, word, len) && u.rv.ports[i].id == s.rv.ports[i].id && Carried(u.rv.ports[i], mem, len)
    && (forall x :: x in u.run.q <==> x in s.run.q && x != i) && (u.mode.Running? ==> u.current in u.run.q)
    && forall j :: 0 <= j < |s.rv.ports| && j != i && (!u.mode.Running? || j != u.current || s.rv.ports[j].pending == 0) ==>
         u.rv.ports[j] == s.rv.ports[j]
  }

  /** SEND: refused without authority, then for a payload too long for the kernel's buffer, then for one
      the sender's memory does not yield; otherwise it meets the first waiting receiver, or waits. */
  ghost predicate SendContract(s: State, u: State, i: nat, cap: nat, word: nat, len: nat, mem: seq<nat>) {
    && i < |s.rv.ports| && i < |s.auth.spaces|
    && var caps := Caps(s, i);
    if !Carries(caps, cap, EndpointCap, WRITE) then OnlyTold(s, u, i, NO_CAP)
    else if len > MAX_MSG_BYTES then OnlyTold(s, u, i, FAULT)
    else
      && (forall r: nat :: FirstReceiver(s.rv.ports, caps[cap].obj, r) ==>
            if |mem| < len && |mem| < s.rv.ports[r].state.max then OnlyTold(s, u, i, FAULT)
            else SendMet(s, u, i, r, caps[cap].obj, word, len, mem))
      && (NobodyReceives(s.rv.ports, caps[cap].obj) ==>
            if |mem| < len then OnlyTold(s, u, i, FAULT) else SendWaits(s, u, i, caps[cap].obj, word, len, mem))
  }

  lemma {:induction false} SendDoes(s: State, ram: set<nat>, cap: nat, word: nat, len: nat, mem: seq<nat>, taken: bool)
    requires Inv(s, ram) && Enabled(s, Syscall(Send(cap, word, len, mem), taken))
    ensures SendContract(s, Step(s, Syscall(Send(cap, word, len, mem), taken)), s.current, cap, word, len, mem)
  {
    hide Body, A.Sound, Sized, Step, Ended, SendContract, Feasible;
    EntryEnds(s, ram, Send(cap, word, len, mem), taken);
    SendMeets(s, ram, Step(s, Syscall(Send(cap, word, len, mem), taken)), cap, word, len, mem);
  }

  lemma {:induction false} SendMeets(s: State, ram: set<nat>, u: State, cap: nat, word: nat, len: nat, mem: seq<nat>)
    requires Inv(s, ram) && s.mode.Running? && Sized(s) && s.current < MAX_PROCS
    requires Ended(SendStep(s, s.current, cap, word, len, mem), u)
    ensures SendContract(s, u, s.current, cap, word, len, mem)
  {
    hide Inv, Sized, Holds, Contains, V.Filled, Ended, SendMet, SendWaits, QueueIs, AgreeAt, HeldAt, V.SendMatched, V.SendParked;
    var i := s.current;
    CallerReady(s, ram);
    var t := SendStep(s, i, cap, word, len, mem);
    var ep := ObjectOf(Caps(s, i), cap, EndpointCap, WRITE);
    if ep.Some? && len <= MAX_MSG_BYTES {
      var r := V.FindRecv(s.rv.ports, ep.value);
      if r < |s.rv.ports| {
        assert WaitsToReceive(s.rv.ports[r], ep.value);
        if V.Min(len, s.rv.ports[r].state.max) <= |mem| {
          SendMeetsOne(s, ram, t, u, i, r, word, len, mem);
        } else {
          StillRunning(s, ram, t, u);
        }
      } else if len > |mem| {
        StillRunning(s, ram, t, u);
      } else {
        SendMeetsNobody(s, ram, t, u, i, ep.value, word, len, mem);
      }
    } else {
      StillRunning(s, ram, t, u);
    }
  }

  lemma {:induction false} Fill(msg: seq<nat>, bytes: seq<nat>)
    requires |bytes| <= |msg|
    ensures |V.Filled(msg, bytes)| == |msg| && V.Filled(msg, bytes)[..|bytes|] == bytes
  {
    V.FilledPrefix(msg, bytes);
  }

  lemma {:induction false} Buffers(s: State, ram: set<nat>)
    requires Inv(s, ram)
    ensures forall j :: 0 <= j < |s.rv.ports| ==> |s.rv.ports[j].msg| == MAX_MSG_BYTES
    ensures forall j :: 0 <= j < |s.rv.ports| && s.rv.ports[j].state.BlockedRecv? ==> s.rv.ports[j].state.max <= MAX_MSG_BYTES
  {
    hide M.SoundBut, A.Sound, V.MatchesOk, V.ReceiptsOk, V.OneSided, V.TagsDistinct, V.Answered, V.ParkedOk, V.OwedOk, Coherent, Backed;
  }

  lemma {:induction false} SendMeetsOne(s: State, ram: set<nat>, t: State, u: State, i: nat, r: nat, word: nat, len: nat, mem: seq<nat>)
    requires Inv(s, ram) && s.mode.Running? && i == s.current < |s.rv.ports| && Receptive(s, i)
    requires s.run.cur < |s.run.q| && s.run.q[s.run.cur] == i && QueueIs(s.run, s.rv.ports)
    requires r < |s.rv.ports| && s.rv.ports[r].state.BlockedRecv? && V.Min(len, s.rv.ports[r].state.max) <= |mem|
    requires t == s.(rv := V.SendMatched(s.rv, i, r, word, len, mem), run := Add(s.run, r)) && Ended(t, u)
    ensures SendMet(s, u, i, r, s.rv.ports[r].state.ep, word, len, mem)
  {
    hide Inv, V.Filled;
    Buffers(s, ram);
    Fill(s.rv.ports[r].msg, mem[..V.Min(len, s.rv.ports[r].state.max)]);
  }

  lemma {:induction false} SendMeetsNobody(s: State, ram: set<nat>, t: State, u: State, i: nat, ep: nat, word: nat, len: nat, mem: seq<nat>)
    requires Inv(s, ram) && s.mode.Running? && i == s.current < |s.rv.ports| && Receptive(s, i) && len <= MAX_MSG_BYTES && len <= |mem|
    requires QueueIs(s.run, s.rv.ports)
    requires t == s.(rv := V.SendParked(s.rv, i, ep, word, len, mem), run := Remove(s.run, i)) && Ended(t, u)
    ensures SendWaits(s, u, i, ep, word, len, mem)
  {
    hide Inv, V.Filled;
    Buffers(s, ram);
    Fill(s.rv.ports[i].msg, mem[..len]);
    RemoveOk(s.run, i);
  }

  // ------------------------------------------------------------------- RECV

  ghost predicate FirstSender(ports: seq<V.Port>, ep: nat, q: nat) {
    q < |ports| && WaitsToSend(ports[q], ep) && forall j :: 0 <= j < q ==> !WaitsToSend(ports[j], ep)
  }

  ghost predicate NobodySends(ports: seq<V.Port>, ep: nat) {
    forall j :: 0 <= j < |ports| ==> !WaitsToSend(ports[j], ep)
  }

  /** RECV took what `q` was waiting with: the receiver is told OK, the word and how many bytes it has
      got, and runs on; the sender is told OK and is ready, everything else about it as it was. */
  ghost predicate RecvMet(s: State, u: State, i: nat, q: nat, ep: nat, max: nat)
    requires i < |s.rv.ports| && q < |s.rv.ports| && WaitsToSend(s.rv.ports[q], ep)
  {
    && TalkOnly(s, u) && u.mode.Running? && u.current == i && u.run == RunQ(s.run.q + [q], s.run.cur)
    && u.rv.sends == s.rv.sends
    && u.rv.matches == s.rv.matches + [V.Match(s.rv.ports[q].tag, s.rv.ports[i].id, ep, max)]
    && u.rv.ports[q] == s.rv.ports[q].(state := V.Ready, r0 := OK)
    && var p, n := s.rv.ports[q], u.rv.ports[i].r2;
    && u.rv.ports[i] == s.rv.ports[i].(r0 := OK, r1 := p.state.word, r2 := n) && Least(n, p.state.len, max) && n <= |p.msg|
    && u.rv.receipts == s.rv.receipts + [V.Receipt(|s.rv.matches|, s.rv.ports[i].id, OK, p.state.word, n, p.msg[..n])]
    && forall j :: 0 <= j < |s.rv.ports| && j != i && j != q ==> u.rv.ports[j] == s.rv.ports[j]
  }

  /** RECV found nobody: the receiver waits, offering its buffer, and somebody else runs. */
  ghost predicate RecvWaits(s: State, u: State, i: nat, ep: nat, dst: nat, max: nat)
    requires i < |s.rv.ports|
  {
    && TalkOnly(s, u) && u.rv.sends == s.rv.sends && u.rv.matches == s.rv.matches
    && u.rv.ports[i] == s.rv.ports[i].(state := V.BlockedRecv(ep, dst, max))
    && (forall x :: x in u.run.q <==> x in s.run.q && x != i) && (u.mode.Running? ==> u.current in u.run.q)
    && forall j :: 0 <= j < |s.rv.ports| && j != i && (!u.mode.Running? || j != u.current || s.rv.ports[j].pending == 0) ==>
         u.rv.ports[j] == s.rv.ports[j]
  }

  /** RECV: refused for a buffer that cannot be written, then without authority, then when the copy
      fails; otherwise it takes from the first waiting sender, or waits. */
  ghost predicate RecvContract(s: State, u: State, i: nat, cap: nat, dst: nat, want: nat, writable: bool, copied: bool) {
    && i < |s.rv.ports| && i < |s.auth.spaces|
    && var caps, max := Caps(s, i), if want < MAX_MSG_BYTES then want else MAX_MSG_BYTES;
    if max > 0 && !writable then OnlyTold3(s, u, i, FAULT)
    else if !Carries(caps, cap, EndpointCap, READ) then OnlyTold3(s, u, i, NO_CAP)
    else
      && (forall q: nat :: FirstSender(s.rv.ports, caps[cap].obj, q) ==>
            if s.rv.ports[q].state.len > 0 && max > 0 && !copied then OnlyTold3(s, u, i, FAULT)
            else RecvMet(s, u, i, q, caps[cap].obj, max))
      && (NobodySends(s.rv.ports, caps[cap].obj) ==> RecvWaits(s, u, i, caps[cap].obj, dst, max))
  }

  lemma {:induction false} RecvDoes(s: State, ram: set<nat>, cap: nat, dst: nat, want: nat, writable: bool, copied: bool, taken: bool)
    requires Inv(s, ram) && Enabled(s, Syscall(Recv(cap, dst, want, writable, copied), taken))
    ensures RecvContract(s, Step(s, Syscall(Recv(cap, dst, want, writable, copied), taken)), s.current, cap, dst, want, writable, copied)
  {
    hide Body, A.Sound, Sized, Step, Ended, RecvContract, Feasible;
    EntryEnds(s, ram, Recv(cap, dst, want, writable, copied), taken);
    RecvMeets(s, ram, Step(s, Syscall(Recv(cap, dst, want, writable, copied), taken)), cap, dst, want, writable, copied);
  }

  lemma {:induction false} RecvMeets(s: State, ram: set<nat>, u: State, cap: nat, dst: nat, want: nat, writable: bool, copied: bool)
    requires Inv(s, ram) && s.mode.Running? && Sized(s) && s.current < MAX_PROCS
    requires Ended(RecvStep(s, s.current, cap, dst, want, writable, copied), u)
    ensures RecvContract(s, u, s.current, cap, dst, want, writable, copied)
  {
    hide Inv, Sized, Holds, Contains, Ended, RecvMet, RecvWaits, QueueIs, AgreeAt, HeldAt, V.RecvMatched, V.RecvParked;
    var i := s.current;
    CallerReady(s, ram);
    var t := RecvStep(s, i, cap, dst, want, writable, copied);
    var max := V.Min(want, MAX_MSG_BYTES);
    var ep := ObjectOf(Caps(s, i), cap, EndpointCap, READ);
    if ep.Some? && !(max > 0 && !writable) {
      var q := V.FindSend(s.rv.ports, ep.value);
      if q < |s.rv.ports| {
        assert WaitsToSend(s.rv.ports[q], ep.value);
        if V.Min(s.rv.ports[q].state.len, max) > 0 && !copied {
          StillRunning(s, ram, t, u);
        } else {
          RecvMeetsOne(s, ram, t, u, i, q, max);
        }
      } else {
        RecvMeetsNobody(s, ram, t, u, i, ep.value, dst, max);
      }
    } else {
      StillRunning(s, ram, t, u);
    }
  }

  lemma {:induction false} ParkedFits(s: State, ram: set<nat>, q: nat)
    requires Inv(s, ram) && q < |s.rv.ports| && s.rv.ports[q].state.BlockedSend?
    ensures s.rv.ports[q].state.len <= |s.rv.ports[q].msg| && s.rv.ports[q].pending == 0
  {
    hide M.SoundBut, A.Sound, V.MatchesOk, V.ReceiptsOk, V.OneSided, V.TagsDistinct, V.Answered, V.OwedOk, Coherent, Backed;
    assert V.PortOk(s.rv.ports[q], s.rv.sends, s.rv.matches, s.rv.receipts);
  }

  lemma {:induction false} RecvMeetsOne(s: State, ram: set<nat>, t: State, u: State, i: nat, q: nat, max: nat)
    requires Inv(s, ram) && s.mode.Running? && i == s.current < |s.rv.ports| && Receptive(s, i)
    requires s.run.cur < |s.run.q| && s.run.q[s.run.cur] == i && QueueIs(s.run, s.rv.ports)
    requires q < |s.rv.ports| && s.rv.ports[q].state.BlockedSend?
    requires t == s.(rv := V.RecvMatched(s.rv, i, q, max), run := Add(s.run, q)) && Ended(t, u)
    ensures RecvMet(s, u, i, q, s.rv.ports[q].state.ep, max)
  {
    hide Inv;
    ParkedFits(s, ram, q);
  }

  lemma {:induction false} RecvMeetsNobody(s: State, ram: set<nat>, t: State, u: State, i: nat, ep: nat, dst: nat, max: nat)
    requires Inv(s, ram) && s.mode.Running? && i == s.current < |s.rv.ports| && Receptive(s, i)
    requires QueueIs(s.run, s.rv.ports)
    requires t == s.(rv := V.RecvParked(s.rv, i, ep, dst, max), run := Remove(s.run, i)) && Ended(t, u)
    ensures RecvWaits(s, u, i, ep, dst, max)
  {
    hide Inv;
    RemoveOk(s.run, i);
  }

  // ------------------------------------------------------------------- collecting interrupts

  /** Interrupt line `line` of process `i` has been collected, and what was pending is what `i` is told. */
  ghost predicate LineCollected(s: State, u: State, i: nat, line: nat) {
    && i < |s.rv.ports| && i < |s.own| && line < |s.own[i].irq|
    && var l := s.own[i].irq[line];
    u == s.(own := s.own[i := s.own[i].(irq := s.own[i].irq[line := l.(pending := 0, returned := l.returned + l.pending)])],
            rv := s.rv.(ports := s.rv.ports[i := s.rv.ports[i].(r0 := l.pending)]))
  }

  /** POLL_IRQ: refused without authority; a line not counted has nothing pending. */
  lemma {:induction false} PollDoes(s: State, ram: set<nat>, cap: nat, taken: bool)
    requires Inv(s, ram) && Enabled(s, Syscall(PollIrq(cap), taken))
    ensures s.current < |s.auth.spaces|
    ensures var i, u, caps := s.current, Step(s, Syscall(PollIrq(cap), taken)), Caps(s, s.current);
            if !Carries(caps, cap, Irq, READ) then OnlyTold(s, u, i, NO_CAP)
            else if caps[cap].obj >= MAX_IRQ_LINES then OnlyTold(s, u, i, 0)
            else LineCollected(s, u, i, caps[cap].obj)
  {
    hide Body, A.Sound, Sized, Step, Ended, Holds, Contains, Feasible;
    EntryEnds(s, ram, PollIrq(cap), taken);
    CallerReady(s, ram);
    OwnSizes(s);
    PollEnds(s, ram, Step(s, Syscall(PollIrq(cap), taken)), cap);
  }

  lemma {:induction false} PollEnds(s: State, ram: set<nat>, u: State, cap: nat)
    requires Inv(s, ram) && s.mode.Running? && Sized(s) && s.current < MAX_PROCS
    requires Ended(PollStep(s, s.current, cap), u)
    ensures u == PollStep(s, s.current, cap)
  {
    hide Body, A.Sound, Holds, Contains;
    CallerReady(s, ram);
  }

  /** WAIT_IRQ found nothing pending: the caller waits for the line, and somebody else runs. */
  ghost predicate IrqWaits(s: State, u: State, i: nat, line: nat) {
    && i < |s.rv.ports| && |u.rv.ports| == |s.rv.ports| && u == s.(rv := u.rv, run := u.run, current := u.current, mode := u.mode)
    && u.rv.sends == s.rv.sends && u.rv.matches == s.rv.matches
    && u.rv.ports[i] == s.rv.ports[i].(state := V.BlockedIrq(line))
    && (forall x :: x in u.run.q <==> x in s.run.q && x != i) && (u.mode.Running? ==> u.current in u.run.q)
    && forall j :: 0 <= j < |s.rv.ports| && j != i && (!u.mode.Running? || j != u.current || s.rv.ports[j].pending == 0) ==>
         u.rv.ports[j] == s.rv.ports[j]
  }

  /** WAIT_IRQ: refused without authority; a line never delivered has nothing pending; otherwise what is
      pending is collected, and if nothing is the caller waits. */
  lemma {:induction false} WaitDoes(s: State, ram: set<nat>, cap: nat, taken: bool)
    requires Inv(s, ram) && Enabled(s, Syscall(WaitIrq(cap), taken))
    ensures s.current < |s.auth.spaces| && s.current < |s.own|
    ensures var i, u, caps := s.current, Step(s, Syscall(WaitIrq(cap), taken)), Caps(s, s.current);
            if !Carries(caps, cap, Irq, READ) then OnlyTold(s, u, i, NO_CAP)
            else if caps[cap].obj != TIMER && caps[cap].obj != CONSOLE then OnlyTold(s, u, i, 0)
            else
              && caps[cap].obj < |s.own[i].irq|
              && if s.own[i].irq[caps[cap].obj].pending > 0 then LineCollected(s, u, i, caps[cap].obj)
                 else IrqWaits(s, u, i, caps[cap].obj)
  {
    hide Body, A.Sound, Sized, Step, Ended, Holds, Contains, IrqWaits, Feasible;
    EntryEnds(s, ram, WaitIrq(cap), taken);
    CallerReady(s, ram);
    WaitEnds(s, ram, Step(s, Syscall(WaitIrq(cap), taken)), cap);
    OwnSizes(s);
  }

  lemma {:induction false} OwnSizes(s: State)
    requires Sized(s)
    ensures |s.own| == |s.rv.ports| == |s.auth.spaces| == |s.mem.spaces| == MAX_PROCS && |s.fired| == MAX_IRQ_LINES
    ensures forall i :: 0 <= i < MAX_PROCS ==> |s.own[i].irq| == MAX_IRQ_LINES
  {}

  lemma {:induction false} WaitEnds(s: State, ram: set<nat>, u: State, cap: nat)
    requires Inv(s, ram) && s.mode.Running? && Sized(s) && s.current < MAX_PROCS
    requires Ended(WaitStep(s, s.current, cap), u)
    ensures var line := ObjectOf(Caps(s, s.current), cap, Irq, READ);
            if line.Some? && Delivers(line.value) && s.own[s.current].irq[line.value].pending == 0
            then IrqWaits(s, u, s.current, line.value) else u == WaitStep(s, s.current, cap)
  {
    hide Body, A.Sound, Holds, Contains;
    CallerReady(s, ram);
    RemoveOk(s.run, s.current);
  }

  // ------------------------------------------------------------------- interrupts

  /** What an interrupt on `line` means to process `i`: to a live holder one more pending, counted as lost
      if the counter is full; a holder waiting for the line is told all that is pending, and is ready; to
      anyone else nothing. */
  ghost predicate LineCredited(s: State, t: State, line: nat, i: nat)
    requires Sized(s) && Sized(t) && line < MAX_IRQ_LINES && i < MAX_PROCS
  {
    if Live(s, i) && Holds(Caps(s, i), Irq, line, READ) then
      var l := s.own[i].irq[line];
      var n, lost := if l.pending < U64_MAX then l.pending + 1 else l.pending, if l.pending < U64_MAX then 0 else 1;
      if s.rv.ports[i].state == V.BlockedIrq(line) then
        && t.rv.ports[i] == s.rv.ports[i].(state := V.Ready, r0 := n)
        && t.own[i] == s.own[i].(irq := s.own[i].irq[line := Line(0, l.since, l.returned + n, l.dropped + lost)])
      else
        && t.rv.ports[i] == s.rv.ports[i]
        && t.own[i] == s.own[i].(irq := s.own[i].irq[line := Line(n, l.since, l.returned, l.dropped + lost)])
    else t.rv.ports[i] == s.rv.ports[i] && t.own[i] == s.own[i]
  }

  lemma {:induction false} CreditGives(s: State, line: nat, n: nat)
    requires Sized(s) && line < MAX_IRQ_LINES && n <= MAX_PROCS
    ensures var t := CreditTo(s, line, n);
            && Sized(t) && t == s.(own := t.own, rv := s.rv.(ports := t.rv.ports), run := t.run, fired := s.fired[line := s.fired[line] + 1])
            && (forall i :: 0 <= i < n ==> LineCredited(s, t, line, i))
            && forall i :: n <= i < MAX_PROCS ==> t.rv.ports[i] == s.rv.ports[i] && t.own[i] == s.own[i]
  {
    hide Holds, Sized, LineCredited, CreditOne;
    OwnSizes(s);
    if n > 0 {
      CreditGives(s, line, n - 1);
      var t := CreditTo(s, line, n - 1);
      OwnSizes(t);
      CreditGivesOne(s, t, line, n - 1);
      var u := CreditTo(s, line, n);
      forall i | 0 <= i < n ensures LineCredited(s, u, line, i) {
        if i < n - 1 { CreditedStill(s, t, u, line, i); }
      }
    }
  }

  lemma {:induction false} CreditGivesOne(s: State, t: State, line: nat, i: nat)
    requires Sized(s) && Sized(t) && line < MAX_IRQ_LINES && i < MAX_PROCS && t.auth == s.auth
    requires t.rv.ports[i] == s.rv.ports[i] && t.own[i] == s.own[i]
    ensures var u := CreditOne(t, line, i);
            && Sized(u) && LineCredited(s, u, line, i)
            && u == t.(own := u.own, rv := t.rv.(ports := u.rv.ports), run := u.run)
            && forall j :: 0 <= j < MAX_PROCS && j != i ==> u.rv.ports[j] == t.rv.ports[j] && u.own[j] == t.own[j]
  {
    hide Holds;
  }

  lemma {:induction false} CreditedStill(s: State, t: State, u: State, line: nat, i: nat)
    requires Sized(s) && Sized(t) && Sized(u) && line < MAX_IRQ_LINES && i < MAX_PROCS && LineCredited(s, t, line, i)
    requires u.rv.ports[i] == t.rv.ports[i] && u.own[i] == t.own[i]
    ensures LineCredited(s, u, line, i)
  {
    hide Holds;
  }

  /** An interrupt is counted, and credited to every live holder of its line and to nobody else. Taken while a
      process runs, a timer interrupt passes the turn and another keeps it; taken while parked, somebody it
      woke runs, or the machine parks again. */
  ghost predicate InterruptContract(s: State, t: State, u: State, line: nat)
    requires Sized(s) && line < MAX_IRQ_LINES
  {
    && Sized(t) && Ended(t, u)
    && t == s.(own := t.own, rv := s.rv.(ports := t.rv.ports), run := t.run, mode := t.mode, fired := s.fired[line := s.fired[line] + 1])
    && (forall i :: 0 <= i < MAX_PROCS ==> LineCredited(s, t, line, i))
    && s.run.q <= t.run.q
    && if s.mode.Running? then t.run.q != [] && t.run.cur == if line == TIMER then (s.run.cur + 1) % |t.run.q| else s.run.cur
       else t.run.cur == s.run.cur && (t.run.q == [] ==> u.mode == s.mode)
  }

  /** The state between crediting and running on is the witness. */
  lemma {:induction false} InterruptDoes(s: State, ram: set<nat>, line: nat, taken: bool) returns (t: State)
    requires Inv(s, ram) && Enabled(s, Interrupt(line, taken))
    ensures Sized(s) && line < MAX_IRQ_LINES && InterruptContract(s, t, Step(s, Interrupt(line, taken)), line)
  {
    hide Inv, Core, Credit, Credited, LineCredited, Sized, InterruptStep, Ended, InterruptContract;
    InvSized(s, ram);
    InvIsCore(s, ram);
    CreditCore(s, ram, line);
    CreditIs(s, line);
    var c := Credit(s, line);
    CallerQueued(s, ram);
    if s.mode.Idle? {
      t := c;
      ParkedInterrupt(s, ram, c, line, taken);
    } else {
      t := if line == TIMER then c.(run := Next(c.run)) else c;
      RunningInterrupt(s, ram, c, t, line, taken);
    }
    InterruptIs(s, c, t, Step(s, Interrupt(line, taken)), line);
  }

  lemma {:induction false} InvIsCore(s: State, ram: set<nat>)
    requires Inv(s, ram)
    ensures Core(s, ram)
  {}

  lemma {:induction false} InterruptIs(s: State, c: State, t: State, u: State, line: nat)
    requires Sized(s) && Sized(c) && line < MAX_IRQ_LINES && Ended(t, u)
    requires c == s.(own := c.own, rv := s.rv.(ports := c.rv.ports), run := c.run, fired := s.fired[line := s.fired[line] + 1])
    requires (forall i :: 0 <= i < MAX_PROCS ==> LineCredited(s, c, line, i)) && s.run.q <= c.run.q && c.run.cur == s.run.cur
    requires if s.mode.Running? then c.run.cur < |c.run.q| && t == if line == TIMER then c.(run := Next(c.run)) else c
             else t == c && (t.run.q == [] ==> u.mode == s.mode)
    ensures InterruptContract(s, t, u, line)
  {
    hide LineCredited, Ended;
    TurnSized(c, t);
    forall i | 0 <= i < MAX_PROCS ensures LineCredited(s, t, line, i) { TurnCredited(s, c, t, line, i); }
  }

  lemma {:induction false} ParkedInterrupt(s: State, ram: set<nat>, c: State, line: nat, taken: bool)
    requires Sized(s) && s.mode.Idle? && c == Credit(s, line) && Core(c, ram) && c.mode == s.mode
    ensures Ended(c, InterruptStep(s, line, taken))
    ensures c.run.q == [] ==> InterruptStep(s, line, taken).mode == s.mode
  {
    hide Body, A.Sound, Credit, Resume, Ended;
    QueueResumes(c, ram);
    if CanResume(c) { ResumeEnds(c, taken); } else { VerdictEnds(c, c.mode); }
  }

  lemma {:induction false} RunningInterrupt(s: State, ram: set<nat>, c: State, t: State, line: nat, taken: bool)
    requires Sized(s) && s.mode.Running? && c == Credit(s, line) && Core(c, ram)
    requires s.current in c.run.q && t == if line == TIMER then c.(run := Next(c.run)) else c
    ensures Ended(t, InterruptStep(s, line, taken))
  {
    hide Body, A.Sound, Credit, Resume, Ended;
    YieldCore(c, ram);
    NextNonempty(c.run);
    QueueResumes(t, ram);
    ResumeEnds(t, taken);
  }

  lemma {:induction false} TurnSized(c: State, t: State)
    requires Sized(c) && t == c.(run := t.run)
    ensures Sized(t)
  {}

  lemma {:induction false} TurnCredited(s: State, c: State, t: State, line: nat, i: nat)
    requires Sized(s) && Sized(c) && line < MAX_IRQ_LINES && i < MAX_PROCS && LineCredited(s, c, line, i) && t == c.(run := t.run)
    ensures Sized(t) && LineCredited(s, t, line, i)
  {
    hide Holds;
  }

  lemma {:induction false} CreditIs(s: State, line: nat)
    requires Sized(s) && line < MAX_IRQ_LINES
    ensures var t := Credit(s, line);
            && Sized(t) && t == s.(own := t.own, rv := s.rv.(ports := t.rv.ports), run := t.run, fired := s.fired[line := s.fired[line] + 1])
            && forall i :: 0 <= i < MAX_PROCS ==> LineCredited(s, t, line, i)
  {
    hide CreditTo, LineCredited;
    CreditGives(s, line, MAX_PROCS);
  }

  lemma {:induction false} CallerQueued(s: State, ram: set<nat>)
    requires Inv(s, ram)
    ensures s.mode.Running? ==> s.run.cur < |s.run.q| && s.current in s.run.q
  {
    hide Body, A.Sound;
  }
}
