/** The kernel as it runs: a process table, a region table and a ledger changed in place by loops,
    each entry point proved to be one step of the state machine. */
module Kernel {
  import opened Abi
  import opened Basics
  import opened Capabilities
  import opened Deleg
  import opened Sched
  import opened Machine
  import opened Invariant
  import A = Authority
  import M = Memory
  import L = Lifetime
  import P = Plans
  import S = Supply
  import V = Rendezvous
  import D = Dma
  import R = Regions
  import B = Bank
  import Runs

  /** One process-table entry. `stamps` and `tag` are history: they say which births the
      capabilities are and which message event the buffer belongs to, and decide nothing. */
  datatype Proc = Proc(id: nat, state: V.PState, caps: seq<Cap>, frames: seq<nat>,
                       shares: seq<nat>, windows: seq<M.Window>, dma: seq<M.Record>, bar: Option<Bar>, irq: seq<Line>,
                       msg: seq<nat>, dst: nat, pending: nat, r0: nat, r1: nat, r2: nat,
                       stamps: seq<nat>, tag: nat)

  predicate ProcShaped(p: Proc) {
    && |p.caps| == |p.stamps| == CAP_SLOTS && |p.irq| == MAX_IRQ_LINES
    && |p.dma| == |p.shares| == |p.windows| == SHARE_SLOTS
  }

  // ------------------------------------------------------------------- the table, concern by concern

  function AuthView(p: Proc): A.Space {
    A.Space(!p.state.Free?, p.id, p.caps, p.stamps)
  }

  function MemView(p: Proc): M.Space {
    M.Space(!p.state.Free?, p.id, p.frames, p.shares, p.windows, p.dma)
  }

  function PortView(p: Proc): V.Port {
    V.Port(p.id, p.state, p.msg, p.dst, p.pending, p.r0, p.r1, p.r2, p.tag)
  }

  function OwnView(p: Proc): Own {
    Own(p.bar, p.irq)
  }

  function AuthViews(ps: seq<Proc>): (r: seq<A.Space>)
    ensures |r| == |ps|
  {
    seq(|ps|, i requires 0 <= i < |ps| => AuthView(ps[i]))
  }

  function MemViews(ps: seq<Proc>): (r: seq<M.Space>)
    ensures |r| == |ps|
  {
    seq(|ps|, i requires 0 <= i < |ps| => MemView(ps[i]))
  }

  function PortViews(ps: seq<Proc>): (r: seq<V.Port>)
    ensures |r| == |ps|
  {
    seq(|ps|, i requires 0 <= i < |ps| => PortView(ps[i]))
  }

  function OwnViews(ps: seq<Proc>): (r: seq<Own>)
    ensures |r| == |ps|
  {
    seq(|ps|, i requires 0 <= i < |ps| => OwnView(ps[i]))
  }

  /** The state a process table stands for, given everything that is not in it. */
  function WithTable(s: State, ps: seq<Proc>): State {
    s.(auth := s.auth.(spaces := AuthViews(ps)), mem := s.mem.(spaces := MemViews(ps)),
       rv := s.rv.(ports := PortViews(ps)), own := OwnViews(ps))
  }

  lemma {:induction false} TableUpdate(s: State, ps: seq<Proc>, i: nat, p: Proc)
    requires i < |ps|
    ensures WithTable(s, ps[i := p]) ==
            s.(auth := s.auth.(spaces := AuthViews(ps)[i := AuthView(p)]), mem := s.mem.(spaces := MemViews(ps)[i := MemView(p)]),
               rv := s.rv.(ports := PortViews(ps)[i := PortView(p)]), own := OwnViews(ps)[i := OwnView(p)])
  {
    assert AuthViews(ps[i := p]) == AuthViews(ps)[i := AuthView(p)];
    assert MemViews(ps[i := p]) == MemViews(ps)[i := MemView(p)];
    assert PortViews(ps[i := p]) == PortViews(ps)[i := PortView(p)];
    assert OwnViews(ps[i := p]) == OwnViews(ps)[i := OwnView(p)];
  }

  lemma {:induction false} Unchanged<T>(s: seq<T>, i: nat)
    requires i < |s|
    ensures s[i := s[i]] == s
  {}

  lemma {:induction false} TableSized(s: State, ps: seq<Proc>)
    requires |ps| == MAX_PROCS && |s.fired| == MAX_IRQ_LINES && forall i :: 0 <= i < |ps| ==> ProcShaped(ps[i])
    ensures Sized(WithTable(s, ps))
  {}

  function NoProc(): Proc {
    Proc(0, V.Free, seq(CAP_SLOTS, _ => EMPTY_CAP), [], [0, 0, 0, 0],
         [M.NO_WINDOW, M.NO_WINDOW, M.NO_WINDOW, M.NO_WINDOW], [M.NO_RECORD, M.NO_RECORD, M.NO_RECORD, M.NO_RECORD], None,
         seq(MAX_IRQ_LINES, _ => Line(0, 0, 0, 0)), seq(MAX_MSG_BYTES, _ => 0), 0, 0, 0, 0, 0, seq(CAP_SLOTS, _ => 0), 0)
  }

  lemma {:induction false} NoProcViews(ps: seq<Proc>)
    requires |ps| == MAX_PROCS && forall i :: 0 <= i < |ps| ==> ps[i] == NoProc()
    ensures AuthViews(ps) == seq(MAX_PROCS, _ => Runs.NoSpace())
    ensures MemViews(ps) == seq(MAX_PROCS, _ => Runs.NoMemSpace())
    ensures PortViews(ps) == seq(MAX_PROCS, _ => Runs.NoPort())
    ensures OwnViews(ps) == seq(MAX_PROCS, _ => Own(None, seq(MAX_IRQ_LINES, _ => Line(0, 0, 0, 0))))
  {}

  class Nucleus {
    const procs: array<Proc>
    const regions: array<M.Region>
    const ledger: Ledger
    const bank: B.Domains
    var pool: set<nat>
    var nextRegion: nat
    var nextId: nat
    var run: RunQ
    var current: nat
    var mode: Mode
    /** History, which decides nothing: births of capabilities, message events, interrupt counts. */
    var hist: seq<A.Birth>
    var sends: seq<V.Sent>
    var matches: seq<V.Match>
    var receipts: seq<V.Receipt>
    var fired: seq<nat>

    /** The device domains share nothing with the other tables. */
    ghost predicate Separate() {
      && this as object !in bank.Repr && procs as object !in bank.Repr
      && regions as object !in bank.Repr && ledger.edges as object !in bank.Repr
    }

    ghost predicate Valid()
      reads this, procs
    {
      && Separate()
      && procs.Length == MAX_PROCS && |fired| == MAX_IRQ_LINES
      && forall i :: 0 <= i < procs.Length ==> ProcShaped(procs[i])
    }

    /** Everything that is not in the process table. */
    ghost function Rest(): State
      reads this, regions, ledger.edges, bank
    {
      State(A.Auth([], ledger.edges[..], hist, nextId), M.Mem(pool, regions[..], [], bank.devs, nextRegion),
            V.Rv([], sends, matches, receipts), [], run, current, mode, fired)
    }

    ghost function Value(): State
      reads this, procs, regions, ledger.edges, bank
    {
      WithTable(Rest(), procs[..])
    }

    /** The machine before any process exists. */
    constructor (ram: set<nat>, ids: seq<nat>, tables: seq<bool>)
      requires |ids| == |tables|
      ensures Valid() && bank.Valid()
      ensures Value() == Runs.PowerOn(ram, seq(|ids|, d requires 0 <= d < |ids| => D.Blank(ids[d], tables[d])))
      ensures fresh(procs) && fresh(regions) && fresh(ledger) && fresh(ledger.edges) && fresh(bank.Repr)
    {
      procs := new Proc[MAX_PROCS](_ => NoProc());
      regions := new M.Region[MAX_REGIONS](_ => M.NO_REGION);
      ledger := new Ledger(MAX_DELEGATIONS);
      bank := new B.Domains(ids, tables);
      pool, nextRegion, nextId := ram, 1, 0;
      run, current, mode := RunQ([], 0), 0, AllDone;
      hist, sends, matches, receipts := [], [], [], [];
      fired := seq(MAX_IRQ_LINES, _ => 0);
      new;
      NoProcViews(procs[..]);
      assert regions[..] == seq(MAX_REGIONS, _ => M.NO_REGION);
      assert ledger.edges[..] == seq(MAX_DELEGATIONS, _ => DEAD);
    }

    lemma {:induction false} Talk()
      ensures Value().rv == V.Rv(PortViews(procs[..]), sends, matches, receipts) && Value().run == run
    {}

    lemma {:induction false} Facts()
      requires Valid()
      ensures Sized(Value())
      ensures |Value().rv.ports| == MAX_PROCS && Value().run == run && Value().current == current && Value().mode == mode
      ensures forall i :: 0 <= i < MAX_PROCS ==>
                && Value().auth.spaces[i] == AuthView(procs[i]) && Value().mem.spaces[i] == MemView(procs[i])
                && Value().rv.ports[i] == PortView(procs[i]) && Value().own[i] == OwnView(procs[i])
      ensures forall i :: 0 <= i < MAX_PROCS ==> (Live(Value(), i) <==> !procs[i].state.Free?)
    {
      TableSized(Rest(), procs[..]);
    }

    // ----------------------------------------------------------------- changing one entry

    /** Change what concerns message passing. */
    method PutPort(i: nat, p: Proc)
      requires Valid() && i < MAX_PROCS && ProcShaped(p)
      requires AuthView(p) == AuthView(procs[i]) && MemView(p) == MemView(procs[i]) && OwnView(p) == OwnView(procs[i])
      modifies procs
      ensures Valid() && procs[..] == old(procs[..])[i := p]
      ensures Value() == SetPort(old(Value()), i, PortView(p))
    {
      ghost var s, ps := Rest(), procs[..];
      TableUpdate(s, ps, i, p);
      Unchanged(AuthViews(ps), i);
      Unchanged(MemViews(ps), i);
      Unchanged(OwnViews(ps), i);
      procs[i] := p;
      assert procs[..] == ps[i := p];
      assert Rest() == s;
    }

    /** Change what concerns memory. */
    method PutMem(i: nat, p: Proc)
      requires Valid() && i < MAX_PROCS && ProcShaped(p)
      requires AuthView(p) == AuthView(procs[i]) && PortView(p) == PortView(procs[i]) && OwnView(p) == OwnView(procs[i])
      modifies procs
      ensures Valid() && procs[..] == old(procs[..])[i := p]
      ensures Value() == old(Value()).(mem := old(Value()).mem.(spaces := old(Value()).mem.spaces[i := MemView(p)]))
    {
      ghost var s, ps := Rest(), procs[..];
      TableUpdate(s, ps, i, p);
      Unchanged(AuthViews(ps), i);
      Unchanged(PortViews(ps), i);
      Unchanged(OwnViews(ps), i);
      procs[i] := p;
      assert procs[..] == ps[i := p];
      assert Rest() == s;
    }

    /** Change which capabilities are in place. */
    method PutAuth(i: nat, p: Proc)
      requires Valid() && i < MAX_PROCS && ProcShaped(p)
      requires MemView(p) == MemView(procs[i]) && PortView(p) == PortView(procs[i]) && OwnView(p) == OwnView(procs[i])
      modifies procs
      ensures Valid() && procs[..] == old(procs[..])[i := p]
      ensures Value() == old(Value()).(auth := old(Value()).auth.(spaces := old(Value()).auth.spaces[i := AuthView(p)]))
    {
      ghost var s, ps := Rest(), procs[..];
      TableUpdate(s, ps, i, p);
      Unchanged(MemViews(ps), i);
      Unchanged(PortViews(ps), i);
      Unchanged(OwnViews(ps), i);
      procs[i] := p;
      assert procs[..] == ps[i := p];
      assert Rest() == s;
    }

    /** Change what concerns interrupts and the device window. */
    method PutOwn(i: nat, p: Proc)
      requires Valid() && i < MAX_PROCS && ProcShaped(p)
      requires AuthView(p) == AuthView(procs[i]) && MemView(p) == MemView(procs[i]) && PortView(p) == PortView(procs[i])
      modifies procs
      ensures Valid() && procs[..] == old(procs[..])[i := p]
      ensures Value() == old(Value()).(own := old(Value()).own[i := OwnView(p)])
    {
      ghost var s, ps := Rest(), procs[..];
      TableUpdate(s, ps, i, p);
      Unchanged(AuthViews(ps), i);
      Unchanged(MemViews(ps), i);
      Unchanged(PortViews(ps), i);
      procs[i] := p;
      assert procs[..] == ps[i := p];
      assert Rest() == s;
    }

    method Enqueue(t: nat)
      requires Valid()
      modifies this`run
      ensures Valid() && run == Add(old(run), t) && Value() == old(Value()).(run := run)
    {
      run := Add(run, t);
    }

    method Dequeue(t: nat)
      requires Valid()
      modifies this`run
      ensures Valid() && run == Remove(old(run), t) && Value() == old(Value()).(run := run)
    {
      run := Remove(run, t);
    }

    /** History: what has been sent, met and received. */
    method Log(s: seq<V.Sent>, m: seq<V.Match>, r: seq<V.Receipt>)
      requires Valid()
      modifies this`sends, this`matches, this`receipts
      ensures Valid() && sends == s && matches == m && receipts == r
      ensures Value() == old(Value()).(rv := old(Value()).rv.(sends := s, matches := m, receipts := r))
    {
      sends, matches, receipts := s, m, r;
    }

    // ----------------------------------------------------------------- waking and returning

    method SetReturn(i: nat, r0: nat)
      requires Valid() && i < MAX_PROCS
      modifies procs
      ensures Valid() && Value() == Return(old(Value()), i, r0)
    {
      Facts();
      PutPort(i, procs[i].(r0 := r0));
    }

    method SetReturn3(i: nat, r0: nat, r1: nat, r2: nat)
      requires Valid() && i < MAX_PROCS
      modifies procs
      ensures Valid() && Value() == Return3(old(Value()), i, r0, r1, r2)
    {
      Facts();
      PutPort(i, procs[i].(r0 := r0, r1 := r1, r2 := r2));
    }

    /** Wake a process whose call can never be answered, writing exactly the registers it returns. */
    method Refuse(i: nat)
      requires Valid() && i < MAX_PROCS && !procs[i].state.Free?
      modifies procs, this`run
      ensures Valid() && Value() == WakeRefused(old(Value()), i)
      ensures forall j :: 0 <= j < MAX_PROCS && j != i ==> procs[j] == old(procs[j])
    {
      Facts();
      var p := procs[i].(r0 := NO_CAP);
      if p.state.BlockedRecv? {
        p := p.(r1 := 0, r2 := 0);
      }
      PutPort(i, p.(state := V.Ready, pending := 0));
      run := Add(run, i);
    }

    /** Refuse every process that `wake` names. */
    method RefuseWhere(wake: seq<bool>)
      requires Valid() && |wake| == MAX_PROCS
      requires forall i :: 0 <= i < MAX_PROCS && wake[i] ==> !procs[i].state.Free?
      modifies procs, this`run
      ensures Valid() && Value() == WakeRefusedWhere(old(Value()), wake, MAX_PROCS)
    {
      hide WakeRefused, WithTable;
      Facts();
      ghost var s := Value();
      for i := 0 to MAX_PROCS
        invariant Valid() && Value() == WakeRefusedWhere(s, wake, i)
        invariant forall j :: i <= j < MAX_PROCS ==> procs[j] == old(procs[j])
      {
        if wake[i] {
          Refuse(i);
        }
      }
    }

    // ----------------------------------------------------------------- interrupts

    /** History: one more interrupt on `line`. */
    method Count(line: nat)
      requires Valid() && line < MAX_IRQ_LINES
      modifies this`fired
      ensures Valid() && Sized(old(Value())) && Value() == CreditTo(old(Value()), line, 0)
    {
      Facts();
      NoneCredited(Value(), line);
      fired := fired[line := fired[line] + 1];
    }

    /** Credit every holder of a line with one interrupt, waking whoever waits for it. */
    method CreditIrq(line: nat)
      requires Valid()
      modifies procs, this`run, this`fired
      ensures Valid() && Sized(old(Value())) && Value() == Credit(old(Value()), line)
    {
      hide CreditOne, Sized, WithTable;
      Facts();
      if line >= MAX_IRQ_LINES {
        return;
      }
      ghost var s := Value();
      Count(line);
      for i := 0 to MAX_PROCS
        invariant Valid() && Value() == CreditTo(s, line, i)
      {
        CreditProc(line, i);
      }
    }

    method CreditProc(line: nat, i: nat)
      requires Valid() && line < MAX_IRQ_LINES && i < MAX_PROCS
      modifies procs, this`run
      ensures Valid() && Sized(old(Value())) && Value() == CreditOne(old(Value()), line, i)
    {
      Facts();
      var p := procs[i];
      var holds := HoldsIrq(p.caps, line);
      if p.state.Free? || !holds {
        return;
      }
      var l := Accrue(p.irq[line]);
      if p.state == V.BlockedIrq(line) {
        PutOwn(i, p.(irq := p.irq[line := Take(l)]));
        PutPort(i, procs[i].(r0 := l.pending, state := V.Ready));
        run := Add(run, i);
      } else {
        PutOwn(i, p.(irq := p.irq[line := l]));
      }
    }

    /** Collect what is pending on a line, without waiting. */
    method PollIrq(i: nat, cap: nat)
      requires Valid() && i < MAX_PROCS
      modifies procs
      ensures Valid() && Sized(old(Value())) && Value() == PollStep(old(Value()), i, cap)
    {
      hide Sized, WithTable;
      Facts();
      var line := ObjectOf(procs[i].caps, cap, Irq, READ);
      if line.None? {
        SetReturn(i, NO_CAP);
      } else if line.value < MAX_IRQ_LINES {
        var l := procs[i].irq[line.value];
        PutOwn(i, procs[i].(irq := procs[i].irq[line.value := Take(l)]));
        SetReturn(i, l.pending);
      } else {
        SetReturn(i, 0);
      }
    }

    /** Collect what is pending on a line, or wait for it. */
    method WaitIrq(i: nat, cap: nat)
      requires Valid() && i < MAX_PROCS && !procs[i].state.Free?
      modifies procs, this`run
      ensures Valid() && Sized(old(Value())) && Value() == WaitStep(old(Value()), i, cap)
    {
      hide Sized, WithTable;
      Facts();
      var line := ObjectOf(procs[i].caps, cap, Irq, READ);
      if line.None? {
        SetReturn(i, NO_CAP);
      } else if Delivers(line.value) {
        var l := procs[i].irq[line.value];
        if l.pending > 0 {
          PutOwn(i, procs[i].(irq := procs[i].irq[line.value := Take(l)]));
          SetReturn(i, l.pending);
        } else {
          BlockOn(i, V.BlockedIrq(line.value));
        }
      } else {
        SetReturn(i, 0);
      }
    }

    method BlockOn(i: nat, state: V.PState)
      requires Valid() && i < MAX_PROCS && !procs[i].state.Free? && !state.Free?
      modifies procs, this`run
      ensures Valid() && Value() == Block(old(Value()), i, state)
    {
      Facts();
      PutPort(i, procs[i].(state := state));
      run := Remove(run, i);
    }

    // ----------------------------------------------------------------- SEND and RECV

    /** Synchronous send: hand the payload to a waiting receiver's kernel buffer, or park it and block. */
    method Send(i: nat, cap: nat, word: nat, len: nat, mem: seq<nat>)
      requires Valid() && i < MAX_PROCS && procs[i].state.Ready?
      modifies procs, this`run, this`sends, this`matches, this`receipts
      ensures Valid() && Value() == SendStep(old(Value()), i, cap, word, len, mem)
    {
      hide WithTable, V.Filled, V.FindRecv, V.SendMatched, V.SendParked, Sized;
      Facts();
      Talk();
      var ep := ObjectOf(procs[i].caps, cap, EndpointCap, WRITE);
      if ep.None? {
        SetReturn(i, NO_CAP);
      } else if len > MAX_MSG_BYTES {
        SetReturn(i, FAULT);
      } else {
        var r := V.FindRecv(PortViews(procs[..]), ep.value);
        if r < MAX_PROCS {
          if V.Min(len, procs[r].state.max) > |mem| {
            SetReturn(i, FAULT);
          } else {
            HandOver(i, r, word, len, mem);
            Enqueue(r);
          }
        } else if len > |mem| {
          SetReturn(i, FAULT);
        } else {
          Park(i, ep.value, word, len, mem);
          Dequeue(i);
        }
      }
    }

    method HandOver(i: nat, r: nat, word: nat, len: nat, mem: seq<nat>)
      requires Valid() && i < MAX_PROCS && r < MAX_PROCS && procs[r].state.BlockedRecv? && procs[i].state.Ready?
      modifies procs, this`sends, this`matches, this`receipts
      ensures Valid() && |old(Value()).rv.ports| == MAX_PROCS && old(Value()).rv.ports[r].state.BlockedRecv?
      ensures Value() == old(Value()).(rv := V.SendMatched(old(Value()).rv, i, r, word, len, mem))
    {
      hide V.Filled, WithTable, Sized;
      Facts();
      assert Value().rv == V.Rv(PortViews(procs[..]), sends, matches, receipts) by { Talk(); }
      var p := procs[r];
      var n := V.Min(len, p.state.max);
      var bytes := if n <= |mem| then mem[..n] else mem;
      PutPort(r, p.(state := V.Ready, msg := V.Filled(p.msg, bytes), dst := p.state.dst, pending := n,
                    r0 := OK, r1 := word, r2 := n, tag := |matches|));
      Facts();
      PutPort(i, procs[i].(r0 := OK));
      Log(sends + [V.Sent(procs[i].id, p.state.ep, word, len, mem)],
          matches + [V.Match(|sends|, p.id, p.state.ep, p.state.max)],
          if n == 0 then receipts + [V.Receipt(|matches|, p.id, OK, word, 0, [])] else receipts);
    }

    method Park(i: nat, ep: nat, word: nat, len: nat, mem: seq<nat>)
      requires Valid() && i < MAX_PROCS && procs[i].state.Ready?
      modifies procs, this`sends, this`matches, this`receipts
      ensures Valid() && |old(Value()).rv.ports| == MAX_PROCS
      ensures Value() == old(Value()).(rv := V.SendParked(old(Value()).rv, i, ep, word, len, mem))
    {
      hide V.Filled, WithTable, Sized;
      Facts();
      assert Value().rv == V.Rv(PortViews(procs[..]), sends, matches, receipts) by { Talk(); }
      var p := procs[i];
      var bytes := if len <= |mem| then mem[..len] else mem;
      PutPort(i, p.(state := V.BlockedSend(ep, word, len), msg := V.Filled(p.msg, bytes), tag := |sends|));
      Log(sends + [V.Sent(p.id, ep, word, len, mem)], matches, receipts);
    }

    /** Synchronous receive: take a waiting sender's parked payload, or offer a buffer and block. */
    method Recv(i: nat, cap: nat, dst: nat, want: nat, writable: bool, copied: bool)
      requires Valid() && i < MAX_PROCS && procs[i].state.Ready?
      modifies procs, this`run, this`sends, this`matches, this`receipts
      ensures Valid() && Value() == RecvStep(old(Value()), i, cap, dst, want, writable, copied)
    {
      hide WithTable, V.FindSend, V.RecvMatched, Sized;
      Facts();
      Talk();
      var max := V.Min(want, MAX_MSG_BYTES);
      if max > 0 && !writable {
        SetReturn3(i, FAULT, 0, 0);
        return;
      }
      var ep := ObjectOf(procs[i].caps, cap, EndpointCap, READ);
      if ep.None? {
        SetReturn3(i, NO_CAP, 0, 0);
        return;
      }
      var q := V.FindSend(PortViews(procs[..]), ep.value);
      if q < MAX_PROCS {
        if V.Min(procs[q].state.len, max) > 0 && !copied {
          SetReturn3(i, FAULT, 0, 0);
        } else {
          Collect(i, q, max);
          Enqueue(q);
        }
      } else {
        BlockOn(i, V.BlockedRecv(ep.value, dst, max));
      }
    }

    method Collect(i: nat, q: nat, max: nat)
      requires Valid() && i < MAX_PROCS && q < MAX_PROCS && procs[q].state.BlockedSend? && procs[i].state.Ready?
      modifies procs, this`sends, this`matches, this`receipts
      ensures Valid() && |old(Value()).rv.ports| == MAX_PROCS && old(Value()).rv.ports[q].state.BlockedSend?
      ensures Value() == old(Value()).(rv := V.RecvMatched(old(Value()).rv, i, q, max))
    {
      hide WithTable, Sized;
      Facts();
      assert Value().rv == V.Rv(PortViews(procs[..]), sends, matches, receipts) by { Talk(); }
      var p := procs[q];
      var n := V.Min(p.state.len, max);
      PutPort(i, procs[i].(r0 := OK, r1 := p.state.word, r2 := n));
      Facts();
      PutPort(q, procs[q].(state := V.Ready, r0 := OK));
      Log(sends, matches + [V.Match(p.tag, procs[i].id, p.state.ep, max)],
          receipts + [V.Receipt(|matches|, procs[i].id, OK, p.state.word, n, if n <= |p.msg| then p.msg[..n] else p.msg)]);
    }

    // ----------------------------------------------------------------- windows

    /** Unmap one share slot, if it maps anything. */
    method UnmapShareSlot(p: nat, k: nat)
      requires Valid()
      modifies procs
      ensures Valid() && Value() == old(Value()).(mem := L.DropShare(old(Value()).mem, p, k))
      ensures forall j :: 0 <= j < MAX_PROCS ==> SameButSpace(old(procs[j]), procs[j])
    {
      Facts();
      if p < MAX_PROCS && k < SHARE_SLOTS && procs[p].shares[k] != 0 {
        var e := procs[p];
        PutMem(p, e.(shares := e.shares[k := 0], windows := e.windows[k := M.NO_WINDOW]));
      }
    }

    /** Unmap the slots `drop` names. */
    method UnmapWhere(p: nat, drop: seq<bool>)
      requires Valid() && p < MAX_PROCS && |drop| == SHARE_SLOTS
      modifies procs
      ensures Valid() && Value() == old(Value()).(mem := DropShares(old(Value()).mem, p, drop, SHARE_SLOTS))
      ensures forall j :: 0 <= j < MAX_PROCS ==> SameButSpace(old(procs[j]), procs[j])
    {
      hide WithTable, L.DropShare;
      ghost var m := Value().mem;
      for k := 0 to SHARE_SLOTS
        invariant Valid() && Value() == old(Value()).(mem := DropShares(m, p, drop, k))
        invariant forall j :: 0 <= j < MAX_PROCS ==> SameButSpace(old(procs[j]), procs[j])
      {
        if drop[k] {
          UnmapShareSlot(p, k);
        }
      }
    }

    // ----------------------------------------------------------------- device reach

    /** Withdraw one recorded mapping; says whether any table entry went. */
    method WithdrawDmaSlot(p: nat, k: nat) returns (any: bool)
      requires Valid() && bank.Valid() && p < MAX_PROCS && k < SHARE_SLOTS
      modifies procs, bank.Repr
      ensures Valid() && bank.Valid() && p < |old(Value()).mem.spaces| && k < |old(Value()).mem.spaces[p].dma|
      ensures Value() == old(Value()).(mem := L.WithdrawRecord(old(Value()).mem, p, k))
      ensures any == L.RecordTouches(old(Value()).mem, p, k)
      ensures forall j :: 0 <= j < MAX_PROCS ==> SameButSpace(old(procs[j]), procs[j])
    {
      hide D.Withdraw, M.RegionAt, M.DomainAt, D.TouchesAny, B.Domains.Valid;
      Facts();
      bank.Facts();
      var rec := procs[p].dma[k];
      any := false;
      if rec.region != 0 {
        PutMem(p, procs[p].(dma := procs[p].dma[k := M.NO_RECORD]));
        var d := bank.Find(rec.domain);
        var i := M.RegionAt(regions[..], rec.region);
        if d < |bank.ids| && i < regions.Length {
          any := bank.WithdrawRegionOn(d, regions[i].frames);
        }
      }
    }

    /** Withdraw the records `drop` names, and tell the units once if an entry went. */
    method WithdrawWhere(p: nat, drop: seq<bool>)
      requires Valid() && bank.Valid() && p < MAX_PROCS && |drop| == SHARE_SLOTS
      modifies procs, bank.Repr
      ensures Valid() && bank.Valid() && p < |old(Value()).mem.spaces| && |old(Value()).mem.spaces[p].dma| == |drop|
      ensures Value() == old(Value()).(mem := L.Withdrew(old(Value()).mem, p, drop))
      ensures forall j :: 0 <= j < MAX_PROCS ==> SameButSpace(old(procs[j]), procs[j])
    {
      hide WithTable, L.WithdrawRecord, L.RecordTouches, B.Domains.Valid;
      Facts();
      ghost var m := Value().mem;
      var any := false;
      for k := 0 to SHARE_SLOTS
        invariant Valid() && bank.Valid() && Value() == old(Value()).(mem := L.WithdrawSome(m, p, drop, k))
        invariant any == L.SomeTouch(m, p, drop, k)
        invariant forall j :: 0 <= j < MAX_PROCS ==> SameButSpace(old(procs[j]), procs[j])
      {
        if drop[k] {
          var hit := WithdrawDmaSlot(p, k);
          any := any || hit;
        }
      }
      if any {
        bank.Facts();
        InvalidateAll();
      }
    }

    /** Tell every claimed unit to forget what it cached. */
    method InvalidateAll()
      requires Valid() && bank.Valid()
      modifies bank
      ensures Valid() && bank.Valid()
      ensures Value() == old(Value()).(mem := old(Value()).mem.(devs := L.Invalidated(old(Value()).mem.devs)))
    {
      hide B.Domains.Valid, L.Invalidated;
      bank.Facts();
      bank.FlushAll();
    }

    // ----------------------------------------------------------------- region plans

    /** Empty one capability slot and drop every ledger edge naming it. */
    method DropCap(p: nat, c: nat)
      requires Valid() && p < MAX_PROCS && c < CAP_SLOTS
      modifies procs, ledger.edges
      ensures Valid() && p < |old(Value()).auth.spaces| && c < |old(Value()).auth.spaces[p].caps|
      ensures Value() == old(Value()).(auth := A.Dropped(old(Value()).auth, p, c))
      ensures forall j :: 0 <= j < MAX_PROCS ==> SameButCaps(old(procs[j]), procs[j])
    {
      hide Forgotten;
      Facts();
      PutAuth(p, procs[p].(caps := Emptied(procs[p].caps, c)));
      ledger.Forget(Endpoint(p, procs[p].id, c));
    }

    /** Strike every live process's capabilities over a region. */
    method ForgetCaps(r: nat)
      requires Valid()
      modifies procs, ledger.edges
      ensures Valid() && Value() == old(Value()).(auth := A.Swept(old(Value()).auth, r))
      ensures forall j :: 0 <= j < MAX_PROCS ==> SameButCaps(old(procs[j]), procs[j])
    {
      hide WithTable, Sized, A.SweptTo;
      Facts();
      ghost var a := Value().auth;
      NoneSwept(a, r);
      for p := 0 to MAX_PROCS
        invariant Valid() && Value() == old(Value()).(auth := A.SweptTo(a, r, p, 0))
        invariant forall j :: 0 <= j < MAX_PROCS ==> SameButCaps(old(procs[j]), procs[j])
      {
        ForgetCapsOf(p, r, a);
        RowSwept(a, r, p);
      }
    }

    /** Strike one process's capabilities over a region, slot by slot. */
    method ForgetCapsOf(p: nat, r: nat, ghost a: A.Auth)
      requires Valid() && p < MAX_PROCS && |a.spaces| == MAX_PROCS && Value().auth == A.SweptTo(a, r, p, 0)
      modifies procs, ledger.edges
      ensures Valid() && Value() == old(Value()).(auth := A.SweptTo(a, r, p, CAP_SLOTS))
      ensures forall j :: 0 <= j < MAX_PROCS ==> SameButCaps(old(procs[j]), procs[j])
    {
      hide A.Dropped, WithTable, A.OverRegion, Sized, A.SweptTo;
      for c := 0 to CAP_SLOTS
        invariant Valid() && Value() == old(Value()).(auth := A.SweptTo(a, r, p, c))
        invariant forall j :: 0 <= j < MAX_PROCS ==> SameButCaps(old(procs[j]), procs[j])
      {
        Facts();
        SlotSwept(a, r, p, c);
        if !procs[p].state.Free? && A.OverRegion(procs[p].caps[c], r) {
          DropCap(p, c);
        }
      }
    }

    /** Give frames back to the pool. */
    method FreeFrames(fs: seq<nat>)
      requires Valid()
      modifies this`pool
      ensures Valid() && pool == old(pool) + L.SetOf(fs) && Value() == old(Value()).(mem := old(Value()).mem.(pool := pool))
    {
      ghost var was := pool;
      for k := 0 to |fs|
        invariant pool == was + L.SetOf(fs[..k])
      {
        assert fs[..k + 1] == fs[..k] + [fs[k]];
        pool := pool + {fs[k]};
      }
      assert fs[..|fs|] == fs;
    }

    /** Clear every table entry that points at one of `fs`, in every domain, and the model with it;
        says whether any entry went. */
    method WithdrawFrames(fs: seq<nat>) returns (touched: bool)
      requires Valid() && bank.Valid()
      modifies bank.Repr
      ensures Valid() && bank.Valid() && touched == L.AnyTouch(old(Value()).mem.devs, fs)
      ensures Value() == old(Value()).(mem := old(Value()).mem.(devs := L.Withdrawals(old(Value()).mem.devs, fs)))
    {
      hide B.Domains.Valid, L.Withdrawals, L.AnyTouch;
      touched := bank.WithdrawEverywhere(fs);
    }

    /** Drop every live process's records of a region. */
    method ForgetRecords(r: nat)
      requires Valid()
      modifies procs
      ensures Valid()
      ensures Value() == old(Value()).(mem := old(Value()).mem.(spaces := UnrecordedAll(old(Value()).mem.spaces, r)))
      ensures forall j :: 0 <= j < MAX_PROCS ==> SameButSpace(old(procs[j]), procs[j])
    {
      hide WithTable, L.Unrecorded, Sized;
      Facts();
      ghost var ss := Value().mem.spaces;
      NoneUnrecorded(ss, r);
      for p := 0 to MAX_PROCS
        invariant Valid() && Value() == old(Value()).(mem := old(Value()).mem.(spaces := UnrecordedTo(ss, r, p)))
        invariant forall j :: 0 <= j < MAX_PROCS ==> SameButSpace(old(procs[j]), procs[j])
      {
        ForgetRecordsOf(p, r);
        UnrecordedNext(ss, r, p);
      }
      assert UnrecordedTo(ss, r, |ss|) == UnrecordedAll(ss, r);
    }

    method ForgetRecordsOf(p: nat, r: nat)
      requires Valid() && p < MAX_PROCS
      modifies procs
      ensures Valid() && p < |old(Value()).mem.spaces|
      ensures Value() == old(Value()).(mem := old(Value()).mem.(spaces :=
                old(Value()).mem.spaces[p := L.Unrecorded(old(Value()).mem.spaces[p], r)]))
      ensures forall j :: 0 <= j < MAX_PROCS ==> SameButSpace(old(procs[j]), procs[j])
    {
      hide WithTable, Sized;
      Facts();
      if procs[p].state.Free? {
        Unchanged(Value().mem.spaces, p);
        return;
      }
      var dma := procs[p].dma;
      for k := 0 to SHARE_SLOTS
        invariant |dma| == SHARE_SLOTS
        invariant forall j :: 0 <= j < SHARE_SLOTS ==>
                    dma[j] == if j < k && procs[p].dma[j].region == r then M.NO_RECORD else procs[p].dma[j]
      {
        if dma[k].region == r {
          dma := dma[k := M.NO_RECORD];
        }
      }
      assert dma == L.Unrecorded(MemView(procs[p]), r).dma;
      PutMem(p, procs[p].(dma := dma));
    }

    /** Release a region: out of every device's reach first, then out of the records, then to the pool. */
    method Release(r: nat)
      requires Valid() && bank.Valid()
      modifies procs, regions, bank.Repr, this`pool
      ensures Valid() && bank.Valid() && Value() == old(Value()).(mem := L.Released(old(Value()).mem, r))
      ensures forall j :: 0 <= j < MAX_PROCS ==> SameButSpace(old(procs[j]), procs[j])
    {
      hide M.RegionAt, L.Withdrawals, L.AnyTouch, L.Invalidated, UnrecordedAll, L.SetOf, WithTable, B.Domains.Valid;
      ghost var m := Value().mem;
      Tables();
      bank.Facts();
      var i := M.RegionAt(regions[..], r);
      if i < regions.Length {
        var fs := regions[i].frames;
        var touched := WithdrawFrames(fs);
        if touched {
          InvalidateAll();
        }
        ForgetRecords(r);
        FreeFrames(fs);
        PutRegion(i, M.NO_REGION);
        UnrecordedIs(m.spaces, r);
      }
    }

    lemma {:induction false} Tables()
      ensures Value().mem.regions == regions[..] && Value().mem.devs == bank.devs && Value().mem.pool == pool
      ensures Value().mem.spaces == MemViews(procs[..]) && Value().mem.nextRegion == nextRegion
      ensures Value().auth.edges == ledger.edges[..] && Value().auth.nextId == nextId && Value().auth.hist == hist
    {}

    method PutRegion(i: nat, region: M.Region)
      requires Valid() && i < regions.Length
      modifies regions
      ensures Valid() && i < |old(Value()).mem.regions|
      ensures Value() == old(Value()).(mem := old(Value()).mem.(regions := old(Value()).mem.regions[i := region]))
    {
      regions[i] := region;
    }

    /** Carry out a region plan, step by step; one that did not fit is never begun. */
    method RunRegionPlan(plan: R.Plan, ghost steps: seq<R.Step>)
      requires Valid() && bank.Valid() && plan.Represents(steps) && |steps| <= plan.steps.Length
      modifies procs, regions, ledger.edges, bank.Repr, this`pool
      ensures Valid() && bank.Valid() && Value() == Executed(old(Value()), steps)
      ensures forall j :: 0 <= j < MAX_PROCS ==> SameButHoldings(old(procs[j]), procs[j])
    {
      hide WithTable, L.DropShare, L.Released, A.Swept, Sized, B.Domains.Valid;
      ghost var s := Value();
      assert !plan.truncated && plan.steps[..plan.len] == steps;
      var todo := plan.steps[..plan.len];
      NothingRun(s, todo);
      for k := 0 to |todo|
        invariant Valid() && bank.Valid() && Value() == s.(mem := P.RunPlan(s.mem, todo[..k]), auth := SweptBy(s.auth, todo, k))
        invariant forall j :: 0 <= j < MAX_PROCS ==> SameButHoldings(old(procs[j]), procs[j])
      {
        assert todo[..k + 1][..k] == todo[..k] && todo[..k + 1][k] == todo[k];
        match todo[k]
        case Unmap(p, slot, _) => UnmapShareSlot(p, slot);
        case ForgetCaps(r) => ForgetCaps(r);
        case Release(r) => Release(r);
      }
      assert todo[..|todo|] == todo;
    }

    // ----------------------------------------------------------------- region calls

    /** Destroy a region its caller owns, with a plan that always fits. */
    method FreeRegion(i: nat, cap: nat, ghost ram: set<nat>)
      requires Valid() && bank.Valid() && i < MAX_PROCS && M.Sound(Value().mem, ram)
      modifies procs, regions, ledger.edges, bank.Repr, this`pool
      ensures Valid() && bank.Valid() && Sized(old(Value())) && Value() == FreeRegionStep(old(Value()), i, cap)
    {
      hide WithTable, Sized, M.RegionAt, M.SoundBut, R.DestroySteps, Executed, P.PlanOk, P.Releases, B.Domains.Valid;
      Facts();
      Tables();
      var id := ObjectOf(procs[i].caps, cap, RegionCap, WRITE);
      if id.None? {
        SetReturn(i, NO_CAP);
        return;
      }
      var at := M.RegionAt(regions[..], id.value);
      if at < regions.Length && regions[at].owner == procs[i].id {
        var plan := R.Destroy(P.RegionView(regions[..]), P.HolderView(MemViews(procs[..])), id.value, PLAN_STEPS);
        ghost var steps := P.DestroyPlan(Value().mem, id.value);
        P.DestroyPlanOk(Value().mem, ram, id.value);
        RunRegionPlan(plan, steps);
        SetReturn(i, OK);
      } else {
        SetReturn(i, NO_CAP);
      }
    }

    /** Unmap every slot of the caller that shows the region its capability names. */
    method UnmapRegion(i: nat, cap: nat)
      requires Valid() && i < MAX_PROCS
      modifies procs
      ensures Valid() && Sized(old(Value())) && Value() == UnmapRegionStep(old(Value()), i, cap)
    {
      hide WithTable, Sized, DropShares;
      Facts();
      var held := Lookup(procs[i].caps, cap);
      if held.Some? && held.value.ty == RegionCap && held.value.obj in procs[i].shares {
        UnmapWhere(i, SlotsShowing(procs[i].shares, held.value.obj));
        SetReturn(i, OK);
      } else {
        SetReturn(i, NO_CAP);
      }
    }

    /** Take frames from the pool for a process's page tables. */
    method Charge(i: nat, fs: seq<nat>)
      requires Valid() && i < MAX_PROCS
      modifies procs, this`pool
      ensures Valid() && i < |old(Value()).mem.spaces|
      ensures Value() == old(Value()).(mem := S.Charged(old(Value()).mem, i, fs))
      ensures forall j :: 0 <= j < MAX_PROCS ==> SameButSpace(old(procs[j]), procs[j])
      ensures procs[i].shares == old(procs[i].shares) && procs[i].windows == old(procs[i].windows)
    {
      hide L.SetOf;
      Facts();
      PutMem(i, procs[i].(frames := procs[i].frames + fs));
      pool := pool - L.SetOf(fs);
    }

    method PutWindow(i: nat, k: nat, share: nat, w: M.Window)
      requires Valid() && i < MAX_PROCS && k < SHARE_SLOTS
      modifies procs
      ensures Valid() && i < |old(Value()).mem.spaces| && |old(Value()).mem.spaces[i].shares| == SHARE_SLOTS
      ensures |old(Value()).mem.spaces[i].windows| == SHARE_SLOTS
      ensures Value() == old(Value()).(mem := L.SetWindow(old(Value()).mem, i, k, share, w))
    {
      hide WithTable, Sized;
      Facts();
      PutMem(i, procs[i].(shares := procs[i].shares[k := share], windows := procs[i].windows[k := w]));
    }

    /** Map a region into the caller's share window, with exactly its capability's access. */
    method MapRegion(i: nat, cap: nat, tables: seq<nat>, installed: bool)
      requires Valid() && i < MAX_PROCS
      modifies procs, this`pool
      ensures Valid() && Sized(old(Value())) && Value() == MapRegionStep(old(Value()), i, cap, tables, installed)
    {
      hide WithTable, Sized, M.RegionAt, S.Charged, L.SetWindow, MapSlot, Contains;
      Facts();
      Tables();
      var caps := procs[i].caps;
      var id := ObjectOf(caps, cap, RegionCap, READ);
      if id.None? {
        SetReturn(i, NO_CAP);
        return;
      }
      var at := M.RegionAt(regions[..], id.value);
      var shares := procs[i].shares;
      var k := MapSlot(shares, id.value);
      if at == regions.Length {
        SetReturn(i, NO_CAP);
      } else if k == |shares| {
        SetReturn(i, NO_MEM);
      } else {
        var frames := regions[at].frames;
        Charge(i, tables);
        if installed {
          PutWindow(i, k, id.value, M.Window(frames, Contains(caps[cap].rights, WRITE)));
          SetReturn(i, ShareVa(k));
        } else {
          PutWindow(i, k, shares[k], M.NO_WINDOW);
          SetReturn(i, NO_MEM);
        }
      }
    }

    /** Map the device window, dropping whatever it showed before. */
    method MapBar(i: nat, cap: nat, known: bool, tables: seq<nat>, installed: bool, copied: bool)
      requires Valid() && i < MAX_PROCS
      modifies procs, this`pool
      ensures Valid() && Sized(old(Value())) && Value() == MapBarStep(old(Value()), i, cap, known, tables, installed, copied)
    {
      hide WithTable, Sized, S.Charged, Contains;
      Facts();
      var caps := procs[i].caps;
      if !(cap < |caps| && caps[cap].ty == Mmio && Contains(caps[cap].rights, READ)) {
        SetReturn(i, NO_CAP);
      } else if !known {
        SetReturn(i, NO_MEM);
      } else {
        Charge(i, tables);
        var bar := if installed && copied then Some(Bar(caps[cap].obj, Contains(caps[cap].rights, WRITE))) else None;
        PutOwn(i, procs[i].(bar := bar));
        SetReturn(i, if !installed then NO_MEM else if copied then OK else FAULT);
      }
    }

    /** How many live regions an identity owns. */
    method CountOwned(id: nat) returns (n: nat)
      requires Valid()
      ensures n == OwnedCount(regions[..], id)
    {
      n := 0;
      for j := 0 to regions.Length
        invariant n == OwnedCount(regions[..j], id)
      {
        assert regions[..j + 1][..j] == regions[..j];
        if regions[j].live && regions[j].owner == id {
          n := n + 1;
        }
      }
      assert regions[..regions.Length] == regions[..];
    }

    /** Create a region from free frames and mint the capability that names it; anything short of
        that leaves no trace. */
    method MakeRegion(i: nat, cap: nat, pages: nat, got: seq<nat>)
      requires Valid() && i < MAX_PROCS
      modifies procs, regions, this`pool, this`nextRegion, this`hist
      ensures Valid() && Sized(old(Value())) && Value() == MakeRegionStep(old(Value()), i, cap, pages, got)
    {
      hide WithTable, Sized, A.Minted, S.WithRegion, OwnedCount, FreeRegionSlot, CanInsert, FirstFree, MayMint;
      Facts();
      Tables();
      var caps := procs[i].caps;
      if !MayMint(caps, cap) {
        SetReturn(i, NO_CAP);
      } else if !(1 <= pages <= REGION_MAX_PAGES) {
        SetReturn(i, NO_MEM);
      } else {
        var owned := CountOwned(procs[i].id);
        var slot := FreeRegionSlot(regions[..]);
        MintedOver(caps, cap);
        var region := Cap(RegionCap, caps[cap].rights, nextRegion);
        if owned >= REGION_QUOTA || slot == regions.Length || nextRegion >= U64_MAX || |got| < pages || !CanInsert(caps, region) {
          SetReturn(i, NO_MEM);
        } else {
          Mint(i, region);
          Publish(i, slot, got);
          SetReturn(i, FirstFree(caps));
        }
      }
    }

    method Mint(i: nat, cap: Cap)
      requires Valid() && i < MAX_PROCS && CanInsert(procs[i].caps, cap)
      modifies procs, this`hist
      ensures Valid() && i < |old(Value()).auth.spaces|
      ensures |old(Value()).auth.spaces[i].caps| == |old(Value()).auth.spaces[i].stamps| == CAP_SLOTS
      ensures Value() == old(Value()).(auth := A.Minted(old(Value()).auth, i, cap))
      ensures forall j :: 0 <= j < MAX_PROCS ==> procs[j] == old(procs[j]).(caps := procs[j].caps, stamps := procs[j].stamps)
    {
      hide FirstFree;
      Facts();
      var f := FirstFree(procs[i].caps);
      PutAuth(i, procs[i].(caps := procs[i].caps[f := cap], stamps := procs[i].stamps[f := |hist|]));
      hist := hist + [A.Birth(cap, None)];
    }

    method Publish(i: nat, slot: nat, got: seq<nat>)
      requires Valid() && i < MAX_PROCS && slot < regions.Length
      modifies regions, this`pool, this`nextRegion
      ensures Valid() && i < |old(Value()).mem.spaces| && slot < |old(Value()).mem.regions|
      ensures Value() == old(Value()).(mem := S.WithRegion(old(Value()).mem, i, slot, got))
    {
      hide L.SetOf;
      Facts();
      Tables();
      TakeFrames(got);
      regions[slot] := M.Region(true, nextRegion, procs[i].id, got);
      nextRegion := nextRegion + 1;
    }

    /** Take the frames the allocator yields, one at a time. */
    method TakeFrames(fs: seq<nat>)
      requires Valid()
      modifies this`pool
      ensures Valid() && pool == old(pool) - L.SetOf(fs) && Value() == old(Value()).(mem := old(Value()).mem.(pool := pool))
    {
      ghost var was := pool;
      for k := 0 to |fs|
        invariant pool == was - L.SetOf(fs[..k])
      {
        assert fs[..k + 1] == fs[..k] + [fs[k]];
        pool := pool - {fs[k]};
      }
      assert fs[..|fs|] == fs;
    }

    // ----------------------------------------------------------------- DMA calls

    /** Give a device reach to a region, under both authorities. */
    method MapDma(i: nat, dom: nat, reg: nat)
      requires Valid() && bank.Valid() && i < MAX_PROCS && TablesSized(Value().mem) && Addressable(regions[..])
      modifies procs, bank.Repr
      ensures Valid() && bank.Valid() && Sized(old(Value())) && Value() == MapDmaStep(old(Value()), i, dom, reg)
    {
      hide WithTable, Sized, S.MapDma, TablesSized, B.Domains.Valid, Addressable;
      Facts();
      Tables();
      var caps := procs[i].caps;
      var domain, region := ObjectOf(caps, dom, IommuDomain, WRITE), ObjectOf(caps, reg, RegionCap, READ);
      if domain.Some? && region.Some? {
        TablesRoom(Value().mem);
        var ret := InstallDma(i, domain.value, region.value, caps[reg].rights);
        SetReturn(i, ret);
      } else {
        SetReturn(i, NO_CAP);
      }
    }

    method InstallDma(i: nat, domain: nat, region: nat, rights: Rights) returns (ret: nat)
      requires Valid() && bank.Valid() && i < MAX_PROCS
      requires M.Shaped(Value().mem) && M.RegionsOk(Value().mem.regions, Value().mem.nextRegion) && Addressable(regions[..])
      modifies procs, bank.Repr
      ensures Valid() && bank.Valid() && i < |old(Value()).mem.spaces|
      ensures forall d :: 0 <= d < |old(Value()).mem.devs| ==> |old(Value()).mem.devs[d].leaves| == D.L1_SLOTS
      ensures var out := S.MapDma(old(Value()).mem, i, domain, region, rights);
              Value() == old(Value()).(mem := out.m) && ret == out.ret
    {
      hide M.RegionAt, M.DomainAt, D.FindRun, D.MapPages, S.FreeRecord, B.Domains.Valid;
      Facts();
      Tables();
      bank.Facts();
      var any := bank.AnyClaimed();
      if !any {
        return NO_MEM;
      }
      var d := bank.Find(domain);
      if d == |bank.ids| {
        return NO_CAP;
      }
      var has := bank.HasTable(d);
      if !has {
        return NO_MEM;
      }
      var at := M.RegionAt(regions[..], region);
      if at == regions.Length {
        return NO_CAP;
      }
      var fs := regions[at].frames;
      var first := bank.Scan(d, |fs|);
      if first.None? {
        return NO_MEM;
      }
      var rec := S.FreeRecord(procs[i].dma);
      if rec == SHARE_SLOTS {
        return NO_MEM;
      }
      S.FindRunRoom(bank.devs[d].leaves, |fs|);
      var id := bank.IdOf(d);
      var ok := bank.MapPagesOn(d, fs, rights, first.value);
      if !ok {
        return NO_CAP;
      }
      PutMem(i, procs[i].(dma := procs[i].dma[rec := M.Record(regions[at].id, id)]));
      return first.value * S.PAGE_SIZE;
    }

    /** Withdraw a region from a device, under both authorities. */
    method UnmapDma(i: nat, dom: nat, reg: nat)
      requires Valid() && bank.Valid() && i < MAX_PROCS
      modifies procs, bank.Repr
      ensures Valid() && bank.Valid() && Sized(old(Value())) && Value() == UnmapDmaStep(old(Value()), i, dom, reg)
    {
      hide WithTable, Sized, L.UnmapDma, M.RegionAt, M.DomainAt, B.Domains.Valid;
      Facts();
      Tables();
      bank.Facts();
      var caps := procs[i].caps;
      var domain, region := ObjectOf(caps, dom, IommuDomain, WRITE), ObjectOf(caps, reg, RegionCap, READ);
      if domain.None? || region.None? {
        SetReturn(i, NO_CAP);
        return;
      }
      var any := bank.AnyClaimed();
      if !any {
        SetReturn(i, NO_MEM);
        return;
      }
      var d := bank.Find(domain.value);
      var at := M.RegionAt(regions[..], region.value);
      if d == |bank.ids| || at == regions.Length {
        SetReturn(i, NO_CAP);
      } else {
        WithdrawDomain(i, d, at);
        SetReturn(i, OK);
      }
    }

    method WithdrawDomain(i: nat, d: nat, at: nat)
      requires Valid() && bank.Valid() && i < MAX_PROCS && d < |bank.ids| && at < regions.Length
      modifies procs, bank.Repr
      ensures Valid() && bank.Valid() && i < |old(Value()).mem.spaces| && d < |old(Value()).mem.devs| && at < |old(Value()).mem.regions|
      ensures Value() == old(Value()).(mem := L.UnmapDma(old(Value()).mem, i, d, at))
    {
      hide D.Withdraw, B.Domains.Valid;
      Facts();
      Tables();
      bank.Facts();
      var fs := regions[at].frames;
      var id := bank.IdOf(d);
      var rec := M.Record(regions[at].id, id);
      var dma := procs[i].dma;
      for k := 0 to SHARE_SLOTS
        invariant |dma| == SHARE_SLOTS
        invariant forall j :: 0 <= j < SHARE_SLOTS ==>
                    dma[j] == if j < k && procs[i].dma[j] == rec then M.NO_RECORD else procs[i].dma[j]
      {
        if dma[k] == rec {
          dma := dma[k := M.NO_RECORD];
        }
      }
      assert dma == L.Forgot(MemView(procs[i]), rec).dma;
      PutMem(i, procs[i].(dma := dma));
      var hit := bank.WithdrawRegionOn(d, fs);
      bank.Flush(d);
    }

    // ----------------------------------------------------------------- processes

    /** Put a process built from frames `fs` in slot `j`, with its capabilities already chosen. */
    method Start(j: nat, fs: seq<nat>, caps: seq<Cap>, stamps: seq<nat>)
      requires Valid() && j < MAX_PROCS && |caps| == |stamps| == CAP_SLOTS
      modifies procs, this`pool, this`run
      ensures Valid() && j < |old(Value()).mem.spaces| && j < |old(Value()).rv.ports| && j < |old(Value()).own|
      ensures j < |old(Value()).auth.spaces|
      ensures var id := old(nextId);
              Value() == Started(old(Value()), j, id, fs).(auth := old(Value()).auth.(spaces :=
                           old(Value()).auth.spaces[j := A.Space(true, id, caps, stamps)]))
      ensures forall q :: 0 <= q < MAX_PROCS && q != j ==> procs[q] == old(procs[q])
    {
      hide L.SetOf;
      Facts();
      ghost var s, ps := Rest(), procs[..];
      var own := NewOwn(fired);
      var p := procs[j].(id := nextId, state := V.Ready, pending := 0, r0 := 0, r1 := 0, r2 := 0, caps := caps, stamps := stamps, frames := fs,
                         shares := [0, 0, 0, 0],
                         windows := [M.NO_WINDOW, M.NO_WINDOW, M.NO_WINDOW, M.NO_WINDOW],
                         dma := [M.NO_RECORD, M.NO_RECORD, M.NO_RECORD, M.NO_RECORD],
                         bar := own.bar, irq := own.irq);
      TableUpdate(s, ps, j, p);
      procs[j] := p;
      assert procs[..] == ps[j := p];
      pool := pool - L.SetOf(fs);
      run := Add(run, j);
    }

    /** Create a process, delegating at most one of the caller's capabilities, never amplified. */
    method Spawn(i: nat, cap: nat, give: Option<nat>, request: bv64, load: Option<seq<nat>>)
      requires Valid() && i < MAX_PROCS && procs[i].state.Ready?
      modifies procs, ledger.edges, this`pool, this`run, this`nextId, this`hist
      ensures Valid() && Sized(old(Value())) && Value() == SpawnStep(old(Value()), i, cap, give, request, load)
    {
      hide WithTable, Sized, FreeSlot, MayMint, Started, A.Delegated, A.Born, Intersect, FromUser, LiveCount;
      Facts();
      Tables();
      Talk();
      var caps := procs[i].caps;
      var used := ledger.Len();
      if !MayMint(caps, cap) {
        SetReturn(i, SPAWN_NO_CAP);
        return;
      }
      if give.Some? && !(Lookup(caps, give.value).Some? && used < ledger.edges.Length) {
        SetReturn(i, SPAWN_NO_DELEGATE);
        return;
      }
      var j := FreeSlot(PortViews(procs[..]));
      if j == MAX_PROCS {
        SetReturn(i, SPAWN_NO_SLOT);
        return;
      }
      var id := nextId;
      if load.None? {
        BurnId();
        SetReturn(i, SPAWN_NO_MEM);
        return;
      }
      if give.None? {
        StartBare(j, load.value);
      } else {
        StartWith(i, give.value, j, Intersect(caps[give.value].rights, FromUser(request)), load.value);
      }
      SetReturn(i, id);
    }

    method BurnId()
      requires Valid()
      modifies this`nextId
      ensures Valid() && nextId == old(nextId) + 1 && Value() == old(Value()).(auth := A.Burned(old(Value()).auth))
    {
      nextId := nextId + 1;
    }

    method StartBare(j: nat, fs: seq<nat>)
      requires Valid() && j < MAX_PROCS
      modifies procs, this`pool, this`run, this`nextId
      ensures Valid() && Sized(old(Value())) && old(Value()).auth.nextId == old(nextId)
      ensures Value() == Started(old(Value()), j, old(nextId), fs).(auth := A.Born(old(Value()).auth, j))
    {
      hide WithTable;
      Facts();
      Tables();
      var blank := A.Blank(nextId);
      Start(j, fs, blank.caps, blank.stamps);
      BurnId();
    }

    method StartWith(i: nat, c: nat, j: nat, rights: Rights, fs: seq<nat>)
      requires Valid() && i < MAX_PROCS && j < MAX_PROCS && i != j && c < CAP_SLOTS
      modifies procs, ledger.edges, this`pool, this`run, this`nextId, this`hist
      ensures Valid() && Sized(old(Value())) && old(Value()).auth.nextId == old(nextId)
      ensures Value() == Started(old(Value()), j, old(nextId), fs).(auth := A.Delegated(old(Value()).auth, i, c, j, rights))
    {
      hide WithTable, Started, Recorded, A.Delegated, Sized;
      Facts();
      Tables();
      Talk();
      DelegatedIs(Value().auth, i, c, j, rights);
      var cap := procs[i].caps[c].(rights := rights);
      var blank := A.Blank(nextId);
      var birth := A.Birth(cap, Some(procs[i].stamps[c]));
      Start(j, fs, blank.caps[0 := cap], blank.stamps[0 := |hist|]);
      var ok := Remember(Endpoint(i, procs[i].id, c), Endpoint(j, nextId, 0), birth);
      BurnId();
    }

    /** Record a delegation in the ledger, and its birth in the history. */
    method Remember(parent: Endpoint, child: Endpoint, birth: A.Birth) returns (ok: bool)
      requires Valid()
      modifies ledger.edges, this`hist
      ensures Valid()
      ensures Value() == old(Value()).(auth := old(Value()).auth.(edges := Recorded(old(Value()).auth.edges, parent, child),
                                                                  hist := old(Value()).auth.hist + [birth]))
    {
      hide Recorded;
      ok := ledger.Record(parent, child);
      hist := hist + [birth];
    }

    /** Tear a process down: its device reach, its regions and windows, its frames, its edges, its slot. */
    method Bury(i: nat, ghost ram: set<nat>)
      requires Valid() && bank.Valid() && i < MAX_PROCS && !procs[i].state.Free? && M.Sound(Value().mem, ram)
      modifies procs, regions, ledger.edges, bank.Repr, this`pool, this`run
      ensures Valid() && bank.Valid() && Sized(old(Value())) && Value() == Buried(old(Value()), i)
      ensures forall j :: 0 <= j < MAX_PROCS && j != i ==> SameButHoldings(old(procs[j]), procs[j])
      ensures procs[i].state.Free?
    {
      hide WithTable, Sized, M.SoundBut, R.TeardownSteps, Executed, P.PlanOk, P.Releases, L.Withdrew, P.Vacated, A.Died, B.Domains.Valid;
      Facts();
      ghost var s := Value();
      WithdrawWhere(i, P.EVERY_SLOT);
      ghost var w := Value();
      L.WithdrewSound(s.mem, ram, i, P.EVERY_SLOT);
      Facts();
      Tables();
      P.TeardownPlanOk(w.mem, ram, i);
      var plan := R.Teardown(P.RegionView(regions[..]), P.HolderView(MemViews(procs[..])), i, procs[i].id, PLAN_STEPS);
      ghost var steps := P.TeardownPlan(w.mem, i);
      RunRegionPlan(plan, steps);
      Vacate(i);
    }

    method Vacate(i: nat)
      requires Valid() && i < MAX_PROCS
      modifies procs, ledger.edges, this`pool, this`run
      ensures Valid() && i < |old(Value()).mem.spaces| && i < |old(Value()).auth.spaces| && i < |old(Value()).rv.ports|
      ensures var t := old(Value());
              Value() == t.(mem := P.Vacated(t.mem, i), auth := A.Died(t.auth, i),
                            rv := t.rv.(ports := t.rv.ports[i := t.rv.ports[i].(state := V.Free)]), run := Remove(t.run, i))
      ensures forall j :: 0 <= j < MAX_PROCS && j != i ==> procs[j] == old(procs[j])
      ensures procs[i].state.Free?
    {
      hide L.SetOf, Spliced;
      Facts();
      FreeFrames(procs[i].frames);
      ledger.SpliceOut(i, procs[i].id);
      ghost var s, ps := Rest(), procs[..];
      var p := procs[i].(frames := [], state := V.Free);
      TableUpdate(s, ps, i, p);
      Unchanged(OwnViews(ps), i);
      procs[i] := p;
      assert procs[..] == ps[i := p];
      run := Remove(run, i);
    }

    /** End a process, then wake every peer nobody can answer any more. */
    method Teardown(i: nat, ghost ram: set<nat>)
      requires Valid() && bank.Valid() && i < MAX_PROCS && !procs[i].state.Free? && M.Sound(Value().mem, ram)
      modifies procs, regions, ledger.edges, bank.Repr, this`pool, this`run
      ensures Valid() && bank.Valid() && Sized(old(Value())) && Value() == ExitStep(old(Value()), i)
    {
      hide WithTable, Sized, M.SoundBut, Buried, Answerable, WakeRefusedWhere, B.Domains.Valid;
      Facts();
      Bury(i, ram);
      Facts();
      ghost var t := Value();
      var wake := seq(MAX_PROCS, _ => false);
      for j := 0 to MAX_PROCS
        invariant |wake| == MAX_PROCS && Valid() && bank.Valid() && Value() == t
        invariant forall q :: 0 <= q < j ==> wake[q] == StrandedByDeath(t, q) && (wake[q] ==> !procs[q].state.Free?)
      {
        var stranded := Stranded(j);
        wake := wake[j := stranded];
      }
      assert wake == seq(MAX_PROCS, j requires 0 <= j < MAX_PROCS => StrandedByDeath(t, j));
      RefuseWhere(wake);
    }

    /** Is process `j` blocked on an endpoint no other live process can answer? */
    method Stranded(j: nat) returns (b: bool)
      requires Valid() && j < MAX_PROCS
      ensures Sized(Value()) && b == StrandedByDeath(Value(), j)
      ensures b ==> !procs[j].state.Free?
    {
      hide WithTable, Sized, Holds;
      Facts();
      match procs[j].state
      case BlockedSend(ep, _, _) =>
        var a := CanAnswer(j, ep, READ);
        b := !a;
      case BlockedRecv(ep, _, _) =>
        var a := CanAnswer(j, ep, WRITE);
        b := !a;
      case _ => b := false;
    }

    method CanAnswer(i: nat, ep: nat, need: Rights) returns (b: bool)
      requires Valid() && i < MAX_PROCS
      ensures Sized(Value()) && b == Answerable(Value(), i, ep, need)
    {
      hide WithTable, Sized, Holds;
      Facts();
      for j := 0 to MAX_PROCS
        invariant forall q :: 0 <= q < j ==> !(q != i && Live(Value(), q) && Holds(Caps(Value(), q), EndpointCap, ep, need))
      {
        if j != i && !procs[j].state.Free? && Holds(procs[j].caps, EndpointCap, ep, need) {
          assert Live(Value(), j) && Holds(Caps(Value(), j), EndpointCap, ep, need);
          return true;
        }
      }
      return false;
    }

    // ----------------------------------------------------------------- revocation

    /** Take from a process everything its remaining capabilities do not authorize. */
    method Strip(p: nat)
      requires Valid() && bank.Valid() && p < MAX_PROCS && !procs[p].state.Free?
      modifies procs, bank.Repr, this`run
      ensures Valid() && bank.Valid() && Sized(old(Value())) && Value() == Stripped(old(Value()), p)
    {
      hide WithTable, Sized, DropShares, L.Withdrew, StrandedByLoss, Holds, WakeRefused, LostShares, LostRecords, KeptLines, HoldsMmio, B.Domains.Valid;
      Facts();
      ghost var s := Value();
      var caps, shares, dma := procs[p].caps, procs[p].shares, procs[p].dma;
      var lost := FindLostShares(caps, shares);
      UnmapWhere(p, lost);
      Facts();
      var gone := FindLostRecords(caps, dma);
      WithdrawWhere(p, gone);
      Facts();
      var lines := KeepLines(caps, procs[p].irq);
      PutOwn(p, procs[p].(bar := if HoldsMmio(caps) then procs[p].bar else None, irq := lines));
      Facts();
      if StrandedByLoss(caps, procs[p].state) {
        Refuse(p);
      }
    }

    method FindLostShares(caps: seq<Cap>, shares: seq<nat>) returns (lost: seq<bool>)
      requires |shares| == SHARE_SLOTS
      ensures lost == LostShares(caps, shares)
    {
      hide Holds;
      lost := [];
      for k := 0 to SHARE_SLOTS
        invariant |lost| == k && forall j :: 0 <= j < k ==> lost[j] == LostShares(caps, shares)[j]
      {
        lost := lost + [shares[k] != 0 && !Holds(caps, RegionCap, shares[k], READ)];
      }
    }

    method FindLostRecords(caps: seq<Cap>, dma: seq<M.Record>) returns (lost: seq<bool>)
      requires |dma| == SHARE_SLOTS
      ensures lost == LostRecords(caps, dma)
    {
      hide Holds;
      lost := [];
      for k := 0 to SHARE_SLOTS
        invariant |lost| == k && forall j :: 0 <= j < k ==> lost[j] == LostRecords(caps, dma)[j]
      {
        var keeps := Holds(caps, RegionCap, dma[k].region, READ) && Holds(caps, IommuDomain, dma[k].domain, WRITE);
        lost := lost + [dma[k].region != 0 && !keeps];
      }
    }

    method KeepLines(caps: seq<Cap>, irq: seq<Line>) returns (lines: seq<Line>)
      ensures lines == KeptLines(caps, irq)
    {
      hide Holds;
      lines := [];
      for line := 0 to |irq|
        invariant |lines| == line && forall j :: 0 <= j < line ==> lines[j] == KeptLines(caps, irq)[j]
      {
        var holds := HoldsIrq(caps, line);
        lines := lines + [if holds then irq[line] else irq[line].(pending := 0)];
      }
    }

    /** One reported endpoint. */
    method RevokeAt(e: Endpoint)
      requires Valid() && bank.Valid()
      modifies procs, bank.Repr, this`run
      ensures Valid() && bank.Valid() && Sized(old(Value())) && Value() == RevokeOne(old(Value()), e)
    {
      hide WithTable, Sized, Stripped, B.Domains.Valid;
      Facts();
      if e.proc < MAX_PROCS && !procs[e.proc].state.Free? && procs[e.proc].id == e.id {
        PutAuth(e.proc, procs[e.proc].(caps := Emptied(procs[e.proc].caps, e.cap)));
        Facts();
        Strip(e.proc);
      }
    }

    /** Destroy every capability derived from one of the caller's, transitively, and with each the
        authority it conferred. */
    method Revoke(i: nat, cap: nat) returns (ghost order: seq<Endpoint>)
      requires Valid() && bank.Valid() && i < MAX_PROCS
      modifies procs, ledger.edges, bank.Repr, this`run
      ensures Valid() && bank.Valid() && Sized(old(Value())) && Feasible(old(Value()), i, Call.Revoke(cap, order))
      ensures Value() == RevokeStep(old(Value()), i, cap, order)
    {
      hide WithTable, Sized, RevokeOne, Revoked, Killed, B.Domains.Valid;
      Facts();
      Tables();
      ghost var s := Value();
      var root := Endpoint(i, procs[i].id, cap);
      if Lookup(procs[i].caps, cap).None? {
        order := AnyOrder(ledger.edges[..], root);
        SetReturn(i, NO_CAP);
        return;
      }
      var reached := new Endpoint[ledger.edges.Length](_ => Endpoint(0, 0, 0));
      var n := Reach(root, reached);
      order := reached[..n];
      Facts();
      ghost var t := Value();
      for k := 0 to n
        invariant Valid() && bank.Valid() && Sized(t) && Value() == RevokeTo(t, order, k)
        invariant n <= reached.Length && reached[..n] == order
      {
        Facts();
        RevokeAt(reached[k]);
      }
      Facts();
      SetReturn(i, OK);
    }

    method Reach(root: Endpoint, out: array<Endpoint>) returns (n: nat)
      requires Valid() && out.Length >= ledger.edges.Length
      requires out as object != ledger.edges && out as object != procs && out as object != regions
      modifies ledger.edges, out
      ensures Valid() && n <= out.Length
      ensures multiset(out[..n]) == Killed(old(Value()).auth.edges, Revoked(old(Value()).auth.edges, root))
      ensures Value() == old(Value()).(auth := old(Value()).auth.(edges := Revoked(old(Value()).auth.edges, root)))
    {
      hide Revoked, Killed;
      n := ledger.RevokeFrom(root, out);
    }

    // ----------------------------------------------------------------- dispatching

    /** Resume the queue's current process, first copying out what it is owed. */
    method ResumeProcess(taken: bool)
      requires Valid() && CanResume(Value())
      modifies procs, this`current, this`mode, this`sends, this`matches, this`receipts
      ensures Valid() && old(CanResume(Value())) && Value() == Resume(old(Value()), taken)
    {
      hide WithTable, Sized;
      Facts();
      Talk();
      var i := run.q[run.cur];
      var p := procs[i];
      SetCurrent(i);
      Facts();
      Talk();
      if p.pending == 0 || p.pending > |p.msg| {
        return;
      }
      if taken {
        PutPort(i, p.(pending := 0));
        Log(sends, matches, receipts + [V.Receipt(p.tag, p.id, OK, p.r1, p.pending, p.msg[..p.pending])]);
      } else {
        PutPort(i, p.(pending := 0, r0 := FAULT, r2 := 0));
        Log(sends, matches, receipts + [V.Receipt(p.tag, p.id, FAULT, p.r1, 0, [])]);
      }
    }

    method SetCurrent(i: nat)
      requires Valid()
      modifies this`current, this`mode
      ensures Valid() && Value() == old(Value()).(current := i, mode := Running)
    {
      current, mode := i, Running;
    }

    method SetMode(m: Mode)
      requires Valid()
      modifies this`mode
      ensures Valid() && Value() == old(Value()).(mode := m)
    {
      mode := m;
    }

    /** With nothing runnable: wake the hopeless, then park, report a deadlock or finish. */
    method NothingRunnable(taken: bool)
      requires Valid() && !CanResume(Value())
      modifies procs, this`current, this`mode, this`run, this`sends, this`matches, this`receipts
      ensures Valid() && Sized(old(Value())) && Value() == Dispatch(old(Value()), taken)
    {
      hide WithTable, Sized, Creditable, Resume, WakeRefusedWhere;
      Facts();
      ghost var s := Value();
      var wake := seq(MAX_PROCS, _ => false);
      for j := 0 to MAX_PROCS
        invariant |wake| == MAX_PROCS && forall q :: 0 <= q < j ==> wake[q] == UncreditableWait(s, q)
      {
        wake := wake[j := procs[j].state.BlockedIrq? && !Creditable(procs[j].caps, procs[j].state.line)];
      }
      assert wake == seq(MAX_PROCS, i requires 0 <= i < MAX_PROCS => UncreditableWait(s, i));
      RefuseWhere(wake);
      Facts();
      Talk();
      if run.cur < |run.q| && run.q[run.cur] < MAX_PROCS {
        ResumeProcess(taken);
      } else {
        var v := Classify();
        SetMode(v);
      }
    }

    method Classify() returns (v: Mode)
      requires Valid()
      ensures Sized(Value()) && v == Verdict(Value())
    {
      hide WithTable, Sized, Creditable;
      Facts();
      v := AllDone;
      for i := 0 to MAX_PROCS
        invariant v == AllDone || v == Deadlocked
        invariant v == AllDone <==> forall q :: 0 <= q < i ==> !Live(Value(), q)
        invariant forall q :: 0 <= q < i ==>
                    !(procs[q].state.BlockedIrq? && Creditable(procs[q].caps, procs[q].state.line))
      {
        if !procs[i].state.Free? {
          v := Deadlocked;
          assert Live(Value(), i);
        }
        if procs[i].state.BlockedIrq? && Creditable(procs[i].caps, procs[i].state.line) {
          assert Value().rv.ports[i].state.BlockedIrq? && Creditable(Caps(Value(), i), Value().rv.ports[i].state.line);
          return Idle;
        }
      }
    }

    method EndEntry(taken: bool)
      requires Valid()
      modifies procs, this`current, this`mode, this`run, this`sends, this`matches, this`receipts
      ensures Valid() && Sized(old(Value())) && Value() == Dispatch(old(Value()), taken)
    {
      hide WithTable, Sized, Resume, WakeHopeless;
      Facts();
      Talk();
      if run.cur < |run.q| && run.q[run.cur] < MAX_PROCS {
        ResumeProcess(taken);
      } else {
        NothingRunnable(taken);
      }
    }

    /** Resume the queue's current process, if there is one. */
    method ResumeAny(taken: bool)
      requires Valid()
      modifies procs, this`current, this`mode, this`sends, this`matches, this`receipts
      ensures Valid()
      ensures Value() == if CanResume(old(Value())) then Resume(old(Value()), taken) else old(Value())
    {
      hide WithTable, Sized, Resume;
      Facts();
      Talk();
      if run.cur < |run.q| && run.q[run.cur] < MAX_PROCS {
        ResumeProcess(taken);
      }
    }

    // ----------------------------------------------------------------- the trap handlers

    /** The calls that leave every device alone. */
    method ServeQuietly(i: nat, call: Call)
      requires Valid() && i < MAX_PROCS && procs[i].state.Ready? && !TouchesDevices(call)
      modifies procs, regions, ledger.edges, this
      ensures Valid() && Sized(old(Value())) && Value() == Service(old(Value()), i, call)
    {
      hide WithTable, Sized, SendStep, RecvStep, SpawnStep, MakeRegionStep, MapRegionStep, UnmapRegionStep, PollStep, WaitStep, MapBarStep;
      Facts();
      if call.Yield? {
        Rotate();
      } else if call.Send? {
        Send(i, call.cap, call.word, call.len, call.mem);
      } else if call.Recv? {
        Recv(i, call.cap, call.dst, call.max, call.writable, call.copied);
      } else if call.Spawn? {
        Spawn(i, call.cap, call.give, call.request, call.load);
      } else if call.MakeRegion? {
        MakeRegion(i, call.cap, call.pages, call.got);
      } else if call.MapRegion? {
        MapRegion(i, call.cap, call.tables, call.installed);
      } else if call.UnmapRegion? {
        UnmapRegion(i, call.cap);
      } else if call.PollIrq? {
        PollIrq(i, call.cap);
      } else if call.WaitIrq? {
        WaitIrq(i, call.cap);
      } else {
        MapBar(i, call.cap, call.known, call.tables, call.installed, call.copied);
      }
    }

    /** Service one system call of process `i`. */
    method Serve(i: nat, call: Call, ghost ram: set<nat>) returns (ghost done: Call)
      requires Valid() && bank.Valid() && i < MAX_PROCS && procs[i].state.Ready? && M.Sound(Value().mem, ram) && TablesSized(Value().mem)
      requires Addressable(regions[..])
      requires call.Revoke? || (Sized(Value()) && Feasible(Value(), i, call))
      modifies procs, regions, ledger.edges, this, bank.Repr
      ensures Valid() && bank.Valid() && Sized(old(Value())) && Feasible(old(Value()), i, done)
      ensures if call.Revoke? then done.Revoke? && done.cap == call.cap else done == call
      ensures Value() == Service(old(Value()), i, done)
    {
      hide WithTable, Sized, TablesSized, M.SoundBut, Feasible, ExitStep, SendStep, RecvStep, SpawnStep, RevokeStep, MakeRegionStep,
        MapRegionStep, UnmapRegionStep, FreeRegionStep, MapDmaStep, UnmapDmaStep, PollStep, WaitStep, MapBarStep, B.Domains.Valid,
        Addressable;
      Facts();
      done := call;
      if call.Exit? {
        Teardown(i, ram);
      } else if call.Revoke? {
        ghost var order := Revoke(i, call.cap);
        done := Call.Revoke(call.cap, order);
      } else if call.FreeRegion? {
        FreeRegion(i, call.cap, ram);
      } else if call.MapDma? {
        MapDma(i, call.dom, call.reg);
      } else if call.UnmapDma? {
        UnmapDma(i, call.dom, call.reg);
      } else {
        ServeQuietly(i, call);
      }
    }

    method Rotate()
      requires Valid()
      modifies this`run
      ensures Valid() && Value() == old(Value()).(run := Next(old(Value()).run))
    {
      run := Next(run);
    }

    /** One system call, start to finish, is one step of the machine, and keeps the invariant. */
    method SyscallTrap(call: Call, taken: bool, ghost ram: set<nat>) returns (ghost done: Call)
      requires Valid() && bank.Valid() && (forall f :: f in ram ==> f < D.FRAMES) && Inv(Value(), ram) && mode.Running?
      requires call.Revoke? || (Sized(Value()) && current < MAX_PROCS && Feasible(Value(), current, call))
      modifies procs, regions, ledger.edges, this, bank.Repr
      ensures Valid() && bank.Valid() && Enabled(old(Value()), Syscall(done, taken))
      ensures if call.Revoke? then done.Revoke? && done.cap == call.cap else done == call
      ensures Value() == Step(old(Value()), Syscall(done, taken)) && Inv(Value(), ram)
    {
      hide WithTable, Sized, Inv, Service, Dispatch, Feasible, M.SoundBut, TablesSized, B.Domains.Valid, Addressable;
      Facts();
      Tables();
      ghost var s := Value();
      RunningReady(s, ram);
      RamAddressable(s.mem, ram);
      done := Serve(current, call, ram);
      ghost var t := Value();
      ServedSized(s, ram, done);
      EndEntry(taken);
      Runs.StepInv(s, ram, Syscall(done, taken));
    }

    /** Credit an interrupt, and end the running process's turn if the timer did it, or if it is no
        longer queued. */
    method TakeInterrupt(line: nat, ghost ram: set<nat>)
      requires Valid() && Inv(Value(), ram) && (mode.Running? || mode.Idle?) && Delivers(line)
      modifies procs, this
      ensures Valid() && Sized(old(Value()))
      ensures var s, t := old(Value()), Credit(old(Value()), line);
              Value() == if s.mode.Running? && (line == TIMER || s.current !in t.run.q) then t.(run := Next(t.run)) else t
    {
      hide WithTable, Sized, Inv, Credit, Resume;
      Facts();
      ghost var s := Value();
      CreditIrq(line);
      CreditMode(s, line, ram);
      Facts();
      Talk();
      if mode.Running? && (line == TIMER || current !in run.q) {
        Rotate();
      }
    }

    /** One interrupt, start to finish, is one step of the machine, and keeps the invariant. */
    method InterruptTrap(line: nat, taken: bool, ghost ram: set<nat>)
      requires Valid() && bank.Valid() && Inv(Value(), ram) && (mode.Running? || mode.Idle?) && Delivers(line)
      modifies procs, this
      ensures Valid() && bank.Valid() && Enabled(old(Value()), Interrupt(line, taken))
      ensures Value() == Step(old(Value()), Interrupt(line, taken)) && Inv(Value(), ram)
    {
      hide WithTable, Sized, Inv, Credit, Resume, CanResume, B.Domains.Valid;
      Facts();
      ghost var s := Value();
      TakeInterrupt(line, ram);
      ResumeAny(taken);
      Runs.StepInv(s, ram, Interrupt(line, taken));
    }

    // ----------------------------------------------------------------- boot

    /** Load one initial process, with its role's capabilities, in the next slot. */
    method Load(j: nat, role: Runs.Role)
      requires Valid() && j < MAX_PROCS
      modifies procs, this`pool, this`run, this`nextId, this`hist
      ensures Valid() && Sized(old(Value())) && Value() == Runs.Booted(old(Value()), j, role)
    {
      hide WithTable, Sized, Started, A.Born, A.Minted, CanInsert;
      Facts();
      Tables();
      ghost var s := Value();
      StartBare(j, role.frames);
      BornSlots(s.auth, j);
      for n := 0 to |role.caps|
        invariant Valid() && Value() == Started(s, j, s.auth.nextId, role.frames).(auth :=
                    Runs.Granted(A.Born(s.auth, j), j, role.caps, n))
      {
        Facts();
        if CanInsert(procs[j].caps, role.caps[n]) {
          Mint(j, role.caps[n]);
        } else {
          MintRefused(Value().auth, j, role.caps[n]);
        }
      }
    }
  }

  lemma {:induction false} NoneSwept(a: A.Auth, r: nat)
    ensures A.SweptTo(a, r, 0, 0) == a
  {}

  lemma {:induction false} SlotSwept(a: A.Auth, r: nat, p: nat, c: nat)
    requires p < |a.spaces|
    ensures var b := A.SweptTo(a, r, p, c);
            A.SweptTo(a, r, p, c + 1) ==
              if b.spaces[p].live && c < |b.spaces[p].caps| && A.OverRegion(b.spaces[p].caps[c], r) then A.Dropped(b, p, c) else b
  {
    hide A.Dropped, A.OverRegion;
  }

  lemma {:induction false} RowSwept(a: A.Auth, r: nat, p: nat)
    requires p < |a.spaces|
    ensures A.SweptTo(a, r, p + 1, 0) == A.SweptTo(a, r, p, CAP_SLOTS)
  {}

  lemma {:induction false} BornSlots(a: A.Auth, j: nat)
    requires j < |a.spaces|
    ensures var b := A.Born(a, j);
            |b.spaces| == |a.spaces| && |b.spaces[j].caps| == |b.spaces[j].stamps| == CAP_SLOTS
  {}

  lemma {:induction false} MintRefused(a: A.Auth, j: nat, cap: Cap)
    requires j < |a.spaces| && |a.spaces[j].caps| == |a.spaces[j].stamps| == CAP_SLOTS && !CanInsert(a.spaces[j].caps, cap)
    ensures A.Minted(a, j, cap) == a
  {}

  /** What the invariant says about the process a trap was taken from. */
  lemma {:induction false} RunningReady(s: State, ram: set<nat>)
    requires Inv(s, ram) && s.mode.Running?
    ensures Sized(s) && s.current < MAX_PROCS && s.rv.ports[s.current].state.Ready?
    ensures M.Sound(s.mem, ram) && TablesSized(s.mem)
  {
    hide A.Sound, V.Sound, M.Conserved, M.WindowsOk, M.RecordsOk, M.OwnersOk, M.ReachOk, M.DevicesOk, M.DevicesShaped, Held, M.RegionsOk;
    S.LeafTables(s.mem, ram);
  }

  lemma {:induction false} ServedSized(s: State, ram: set<nat>, call: Call)
    requires Inv(s, ram) && s.mode.Running? && Sized(s) && s.current < MAX_PROCS && Feasible(s, s.current, call)
    ensures Sized(Service(s, s.current, call))
  {
    hide Inv, Service, Feasible, Core, Sized;
    Runs.ServiceCore(s, ram, call);
    CoreSized(Service(s, s.current, call), ram);
  }

  lemma {:induction false} CoreSized(s: State, ram: set<nat>)
    requires Core(s, ram)
    ensures Sized(s)
  {}

  lemma {:induction false} CreditMode(s: State, line: nat, ram: set<nat>)
    requires Inv(s, ram) && Delivers(line)
    ensures Sized(s) && Credit(s, line).mode == s.mode && Credit(s, line).current == s.current
  {
    hide Core, Credit;
    CoreSized(s, ram);
    CreditCore(s, ram, line);
  }

  lemma {:induction false} DelegatedIs(a: A.Auth, q: nat, c: nat, p: nat, rights: Rights)
    requires q < |a.spaces| && p < |a.spaces| && p != q && c < |a.spaces[q].caps| == |a.spaces[q].stamps|
    ensures var cap := a.spaces[q].caps[c].(rights := rights);
            var blank := A.Blank(a.nextId);
            A.Delegated(a, q, c, p, rights) ==
              A.Auth(a.spaces[p := A.Space(true, a.nextId, blank.caps[0 := cap], blank.stamps[0 := |a.hist|])],
                     Recorded(a.edges, Endpoint(q, a.spaces[q].id, c), Endpoint(p, a.nextId, 0)),
                     a.hist + [A.Birth(cap, Some(a.spaces[q].stamps[c]))], a.nextId + 1)
  {
    hide Recorded;
    var blank := A.Blank(a.nextId);
    var last := A.Placed(blank, 0, a.spaces[q].caps[c].(rights := rights), |a.hist|);
    assert a.spaces[p := blank][p := last] == a.spaces[p := last];
  }

  lemma {:induction false} MintedOver(caps: seq<Cap>, cap: nat)
    requires MayMint(caps, cap)
    ensures cap < |caps|
  {}

  lemma {:induction false} TablesRoom(m: M.Mem)
    requires TablesSized(m)
    ensures M.Shaped(m) && M.RegionsOk(m.regions, m.nextRegion)
    ensures forall d :: 0 <= d < |m.devs| ==> |m.devs[d].leaves| == D.L1_SLOTS
  {}

  predicate TouchesDevices(call: Call) {
    call.Exit? || call.Revoke? || call.FreeRegion? || call.MapDma? || call.UnmapDma?
  }

  /** Only capabilities have changed. */
  predicate SameButCaps(p: Proc, q: Proc) {
    q == p.(caps := q.caps)
  }

  predicate SameButHoldings(p: Proc, q: Proc) {
    q == p.(shares := q.shares, windows := q.windows, dma := q.dma, frames := q.frames, caps := q.caps)
  }

  lemma {:induction false} NothingRun(s: State, steps: seq<R.Step>)
    ensures P.RunPlan(s.mem, steps[..0]) == s.mem && SweptBy(s.auth, steps, 0) == s.auth
  {}

  function UnrecordedAll(ss: seq<M.Space>, r: nat): seq<M.Space> {
    seq(|ss|, p requires 0 <= p < |ss| => L.Unrecorded(ss[p], r))
  }

  /** The first `n` processes' records of `r` forgotten. */
  ghost function UnrecordedTo(ss: seq<M.Space>, r: nat, n: nat): (t: seq<M.Space>)
    ensures |t| == |ss|
  {
    seq(|ss|, p requires 0 <= p < |ss| => if p < n then L.Unrecorded(ss[p], r) else ss[p])
  }

  lemma {:induction false} NoneUnrecorded(ss: seq<M.Space>, r: nat)
    ensures UnrecordedTo(ss, r, 0) == ss
  {}

  lemma {:induction false} UnrecordedNext(ss: seq<M.Space>, r: nat, p: nat)
    requires p < |ss|
    ensures UnrecordedTo(ss, r, p + 1) == UnrecordedTo(ss, r, p)[p := L.Unrecorded(UnrecordedTo(ss, r, p)[p], r)]
  {}

  lemma {:induction false} UnrecordedIs(ss: seq<M.Space>, r: nat)
    ensures UnrecordedAll(ss, r) == seq(|ss|, p requires 0 <= p < |ss| => L.Unrecorded(ss[p], r))
  {}

  /** Every region's frames fit a table entry. */
  ghost predicate Addressable(rs: seq<M.Region>) {
    forall i, f :: 0 <= i < |rs| && f in rs[i].frames ==> f < D.FRAMES
  }

  lemma {:induction false} RamAddressable(m: M.Mem, ram: set<nat>)
    requires M.Sound(m, ram) && forall f :: f in ram ==> f < D.FRAMES
    ensures Addressable(m.regions)
  {
    hide M.DevicesOk, M.OwnersOk, M.DevicesShaped, M.ReachOk, M.QuietOk, M.WindowsOk, M.RecordsOk, M.RegionsOk, M.Shaped, M.Conserved;
    forall i | 0 <= i < |m.regions| ensures forall f :: f in m.regions[i].frames ==> f in ram { M.RegionFrameIsExclusive(m, ram, i); }
  }

  /** Some listing of what a revocation kills. */
  lemma {:induction false} AnyOrder(es: seq<Edge>, root: Endpoint) returns (order: seq<Endpoint>)
    ensures multiset(order) == Killed(es, Revoked(es, root))
  {
    order := Listing(es, Revoked(es, root));
  }

  lemma {:induction false} Listing(es: seq<Edge>, es': seq<Edge>) returns (order: seq<Endpoint>)
    requires |es| == |es'|
    ensures multiset(order) == Killed(es, es')
  {
    order := [];
    if es != [] {
      var n := |es| - 1;
      order := Listing(es[..n], es'[..n]);
      if es[n].live && !es'[n].live { order := order + [es[n].child]; }
    }
  }

  /** Nothing but what memory concerns has changed. */
  predicate SameButSpace(p: Proc, q: Proc) {
    q == p.(shares := q.shares, windows := q.windows, dma := q.dma, frames := q.frames)
  }

  lemma {:induction false} NoneCredited(s: State, line: nat)
    requires Sized(s) && line < MAX_IRQ_LINES
    ensures CreditTo(s, line, 0) == s.(fired := s.fired[line := s.fired[line] + 1])
  {}

  /** Does this capability space hold the line, for reading? */
  predicate HoldsIrq(caps: seq<Cap>, line: nat) {
    Holds(caps, Irq, line, READ)
  }
}
