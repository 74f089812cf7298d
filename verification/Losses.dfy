/** The calls that take away: FREE_REGION, REVOKE and EXIT. What each takes is stated both ways round:
    what has lost its backing is gone, and nothing else is touched. */
module Losses {
  import opened Abi
  import opened Basics
  import opened Capabilities
  import opened Deleg
  import opened Sched
  import opened Machine
  import opened Invariant
  import opened Runs
  import opened Calls
  import opened Making
  import opened Drivers
  import LS = LifeSteps
  import A = Authority
  import M = Memory
  import L = Lifetime
  import V = Rendezvous
  import D = Dma

  // ------------------------------------------------------------------- records that go

  /** Record `k` named something and no longer does. */
  predicate RecordLost(was: seq<M.Record>, now: seq<M.Record>, k: nat) {
    k < |was| && k < |now| && was[k].region != 0 && now[k].region == 0
  }

  /** The frames some lost record asked domain `domain` to reach. */
  ghost function LostFrames(m: M.Mem, n: M.Mem, domain: nat): iset<nat>
    requires |n.spaces| == |m.spaces|
  {
    iset f | LostFrame(m, n, domain, f)
  }

  ghost predicate LostFrame(m: M.Mem, n: M.Mem, domain: nat, f: nat)
    requires |n.spaces| == |m.spaces|
  {
    domain != 0 && exists p: nat, k: nat ::
      p < |m.spaces| && RecordLost(m.spaces[p].dma, n.spaces[p].dma, k)
      && m.spaces[p].dma[k].domain == domain && f in M.FramesOf(m.regions, m.spaces[p].dma[k].region)
  }

  ghost predicate RecordsKept(m: M.Mem, n: M.Mem) {
    && n.pool == m.pool && n.regions == m.regions && n.nextRegion == m.nextRegion
    && |n.spaces| == |m.spaces| && |n.devs| == |m.devs|
    && forall p :: 0 <= p < |m.spaces| ==>
         |n.spaces[p].dma| == |m.spaces[p].dma|
         && forall k :: 0 <= k < |m.spaces[p].dma| ==> n.spaces[p].dma[k] == m.spaces[p].dma[k] || n.spaces[p].dma[k] == M.NO_RECORD
  }

  /** Records are only lost, and each domain loses exactly the frames lost records asked it to reach. */
  ghost predicate RecordsGo(m: M.Mem, n: M.Mem) {
    && RecordsKept(m, n)
    && forall d :: 0 <= d < |m.devs| ==> Cleared(m.devs[d], n.devs[d], LostFrames(m, n, m.devs[d].id))
  }

  lemma {:induction false} RecordsGoTwice(m: M.Mem, n: M.Mem, o: M.Mem)
    requires RecordsGo(m, n) && RecordsGo(n, o)
    ensures RecordsGo(m, o)
  {
    hide Cleared, LostFrames;
    forall d | 0 <= d < |m.devs| ensures Cleared(m.devs[d], o.devs[d], LostFrames(m, o, m.devs[d].id)) {
      var id := m.devs[d].id;
      ClearedKeepsId(m.devs[d], n.devs[d], LostFrames(m, n, id));
      ClearedTwice(m.devs[d], n.devs[d], o.devs[d], LostFrames(m, n, id), LostFrames(n, o, id));
      LostTwice(m, n, o, id);
    }
  }

  lemma {:induction false} ClearedKeepsId(d: D.Device, e: D.Device, fs: iset<nat>)
    requires Cleared(d, e, fs)
    ensures e.id == d.id
  {}

  lemma {:induction false} LostTwice(m: M.Mem, n: M.Mem, o: M.Mem, id: nat)
    requires RecordsKept(m, n) && RecordsKept(n, o)
    ensures LostFrames(m, o, id) == LostFrames(m, n, id) + LostFrames(n, o, id)
  {
    hide M.FramesOf;
    forall f | f in LostFrames(m, o, id) ensures f in LostFrames(m, n, id) + LostFrames(n, o, id) {
      var p: nat, k: nat :| p < |m.spaces| && RecordLost(m.spaces[p].dma, o.spaces[p].dma, k)
                            && m.spaces[p].dma[k].domain == id && f in M.FramesOf(m.regions, m.spaces[p].dma[k].region);
      assert RecordLost(m.spaces[p].dma, n.spaces[p].dma, k) || RecordLost(n.spaces[p].dma, o.spaces[p].dma, k);
    }
    forall f | f in LostFrames(m, n, id) ensures f in LostFrames(m, o, id) {
      var p: nat, k: nat :| p < |m.spaces| && RecordLost(m.spaces[p].dma, n.spaces[p].dma, k)
                            && m.spaces[p].dma[k].domain == id && f in M.FramesOf(m.regions, m.spaces[p].dma[k].region);
      assert RecordLost(m.spaces[p].dma, o.spaces[p].dma, k);
    }
    forall f | f in LostFrames(n, o, id) ensures f in LostFrames(m, o, id) {
      var p: nat, k: nat :| p < |n.spaces| && RecordLost(n.spaces[p].dma, o.spaces[p].dma, k)
                            && n.spaces[p].dma[k].domain == id && f in M.FramesOf(n.regions, n.spaces[p].dma[k].region);
      assert RecordLost(m.spaces[p].dma, o.spaces[p].dma, k);
    }
  }

  /** Nothing lost: the units may still have been told. */
  lemma {:induction false} NothingGoes(m: M.Mem, n: M.Mem)
    requires RecordsKept(m, n) && forall p :: 0 <= p < |m.spaces| ==> n.spaces[p].dma == m.spaces[p].dma
    requires forall d :: 0 <= d < |m.devs| ==> n.devs[d] == m.devs[d] || n.devs[d] == D.Invalidate(m.devs[d])
    ensures RecordsGo(m, n)
  {
    hide Cleared;
    forall d | 0 <= d < |m.devs| ensures Cleared(m.devs[d], n.devs[d], LostFrames(m, n, m.devs[d].id)) {
      ClearedNothing(m.devs[d]);
      assert LostFrames(m, n, m.devs[d].id) == iset{};
    }
  }

  lemma {:induction false} RecordGoes(m: M.Mem, p: nat, k: nat)
    requires p < |m.spaces| && k < |m.spaces[p].dma| && Apart(m.devs)
    ensures RecordsGo(m, L.WithdrawRecord(m, p, k))
  {
    hide Cleared, D.Withdraw, M.RegionAt, M.DomainAt;
    var rec, n := m.spaces[p].dma[k], L.WithdrawRecord(m, p, k);
    var at := M.RegionAt(m.regions, rec.region);
    DomainFound(m.devs, rec.domain);
    forall d | 0 <= d < |m.devs| ensures Cleared(m.devs[d], n.devs[d], LostFrames(m, n, m.devs[d].id)) {
      if rec.region != 0 && m.devs[d].id != 0 && m.devs[d].id == rec.domain {
        assert IsDomain(m.devs, d, rec.domain);
        OneLost(m, n, p, k, rec.domain);
        if at < |m.regions| { WithdrawClears(m.devs[d], m.regions[at].frames); } else { ClearedNothing(m.devs[d]); }
      } else {
        ClearedNothing(m.devs[d]);
        OtherLost(m, n, p, k, m.devs[d].id);
      }
    }
  }

  ghost predicate OneForgotten(m: M.Mem, n: M.Mem, p: nat, k: nat) {
    && p < |m.spaces| && k < |m.spaces[p].dma| && n.regions == m.regions
    && n.spaces == m.spaces[p := m.spaces[p].(dma := m.spaces[p].dma[k := M.NO_RECORD])]
  }

  lemma {:induction false} OneLost(m: M.Mem, n: M.Mem, p: nat, k: nat, domain: nat)
    requires OneForgotten(m, n, p, k) && m.spaces[p].dma[k].region != 0 && m.spaces[p].dma[k].domain == domain != 0
    ensures LostFrames(m, n, domain) ==
              if M.RegionAt(m.regions, m.spaces[p].dma[k].region) == |m.regions| then iset{}
              else All(m.regions[M.RegionAt(m.regions, m.spaces[p].dma[k].region)].frames)
  {
    hide M.RegionAt;
    assert RecordLost(m.spaces[p].dma, n.spaces[p].dma, k);
  }

  lemma {:induction false} OtherLost(m: M.Mem, n: M.Mem, p: nat, k: nat, domain: nat)
    requires n == m || (OneForgotten(m, n, p, k) && m.spaces[p].dma[k].domain != domain) || domain == 0
    requires |n.spaces| == |m.spaces|
    ensures LostFrames(m, n, domain) == iset{}
  {
    hide M.RegionAt, M.FramesOf;
  }

  lemma {:induction false} StillApart(m: M.Mem, n: M.Mem)
    requires RecordsGo(m, n) && Apart(m.devs)
    ensures Apart(n.devs)
  {
    hide LostFrames;
    forall d | 0 <= d < |m.devs| ensures n.devs[d].id == m.devs[d].id { assert Cleared(m.devs[d], n.devs[d], LostFrames(m, n, m.devs[d].id)); }
  }

  lemma {:induction false} SomeGo(m: M.Mem, p: nat, drop: seq<bool>, n: nat)
    requires p < |m.spaces| && n <= |drop| == |m.spaces[p].dma| && Apart(m.devs)
    ensures RecordsGo(m, L.WithdrawSome(m, p, drop, n)) && L.RecordsCleared(m, L.WithdrawSome(m, p, drop, n), p, drop, n)
  {
    hide RecordsGo, Apart, L.RecordsCleared, L.WithdrawRecord;
    if n == 0 {
      L.NothingCleared(m, p, drop);
      NothingGoes(m, m);
    } else {
      SomeGo(m, p, drop, n - 1);
      var r := L.WithdrawSome(m, p, drop, n - 1);
      L.ClearedNext(m, r, p, drop, n);
      StillApart(m, r);
      if drop[n - 1] {
        RecordGoes(r, p, n - 1);
        RecordsGoTwice(m, r, L.WithdrawRecord(r, p, n - 1));
      }
    }
  }

  /** Withdrawing the selected records of a process: exactly those go, each domain with them. */
  lemma {:induction false} WithdrewGo(m: M.Mem, p: nat, drop: seq<bool>)
    requires p < |m.spaces| && |drop| == |m.spaces[p].dma| && Apart(m.devs)
    ensures RecordsGo(m, L.Withdrew(m, p, drop)) && L.RecordsCleared(m, L.Withdrew(m, p, drop), p, drop, |drop|)
  {
    hide RecordsGo, Apart, L.WithdrawSome, L.SomeTouch;
    SomeGo(m, p, drop, |drop|);
    var r := L.WithdrawSome(m, p, drop, |drop|);
    if L.SomeTouch(m, p, drop, |drop|) {
      SameRecords(r);
      NothingGoes(r, r.(devs := L.Invalidated(r.devs)));
      RecordsGoTwice(m, r, r.(devs := L.Invalidated(r.devs)));
    }
  }

  lemma {:induction false} SameRecords(r: M.Mem)
    ensures RecordsKept(r, r.(devs := L.Invalidated(r.devs)))
  {}

  // ------------------------------------------------------------------- what capabilities still back

  /** Of its windows and device mappings, a process has left exactly those `caps` back. */
  ghost predicate SpaceBacked(caps: seq<Cap>, sp: M.Space, tp: M.Space) {
    && tp == sp.(shares := tp.shares, windows := tp.windows, dma := tp.dma)
    && |tp.shares| == |sp.shares| == |tp.windows| == |sp.windows| && |tp.dma| == |sp.dma|
    && (forall k :: 0 <= k < |sp.shares| ==>
          if sp.shares[k] == 0 || Holds(caps, RegionCap, sp.shares[k], READ)
          then tp.shares[k] == sp.shares[k] && tp.windows[k] == sp.windows[k]
          else tp.shares[k] == 0 && tp.windows[k] == M.NO_WINDOW)
    && forall k :: 0 <= k < |sp.dma| ==>
         tp.dma[k] == if || sp.dma[k].region == 0
                         || (Holds(caps, RegionCap, sp.dma[k].region, READ) && Holds(caps, IommuDomain, sp.dma[k].domain, WRITE))
                      then sp.dma[k] else M.NO_RECORD
  }

  /** Of its device window and pending interrupts, a process has left exactly those `caps` back. */
  ghost predicate OwnBacked(caps: seq<Cap>, own: Own, now: Own) {
    && now.bar == (if exists obj :: Holds(caps, Mmio, obj, READ) then own.bar else None)
    && |now.irq| == |own.irq|
    && forall line :: 0 <= line < |own.irq| ==>
         now.irq[line] == if Holds(caps, Irq, line, READ) then own.irq[line] else own.irq[line].(pending := 0)
  }

  /** A blocked process stays blocked, register for register, exactly where `caps` still allow it;
      otherwise it is ready, and refused in exactly the registers its call returns. */
  ghost predicate PortBacked(caps: seq<Cap>, p: V.Port, q: V.Port) {
    match p.state
    case BlockedSend(ep, _, _) => q == if Holds(caps, EndpointCap, ep, WRITE) then p else p.(state := V.Ready, r0 := NO_CAP)
    case BlockedRecv(ep, _, _) => q == if Holds(caps, EndpointCap, ep, READ) then p else p.(state := V.Ready, r0 := NO_CAP, r1 := 0, r2 := 0)
    case BlockedIrq(line) =>
      q == if (line == TIMER || line == CONSOLE) && Holds(caps, Irq, line, READ) then p else p.(state := V.Ready, r0 := NO_CAP)
    case _ => q == p
  }

  ghost predicate LeftBacked(s: State, t: State, p: nat)
    requires Sized(s) && Sized(t) && p < MAX_PROCS
  {
    && SpaceBacked(Caps(t, p), s.mem.spaces[p], t.mem.spaces[p]) && OwnBacked(Caps(t, p), s.own[p], t.own[p])
    && PortBacked(Caps(t, p), s.rv.ports[p], t.rv.ports[p])
  }

  /** Everything about process slot `p`. */
  ghost predicate Untouched(s: State, t: State, p: nat)
    requires Sized(s) && Sized(t) && p < MAX_PROCS
  {
    t.auth.spaces[p] == s.auth.spaces[p] && t.mem.spaces[p] == s.mem.spaces[p] && t.own[p] == s.own[p] && t.rv.ports[p] == s.rv.ports[p]
  }

  lemma {:induction false} MmioIs(caps: seq<Cap>)
    ensures HoldsMmio(caps) <==> exists obj :: Holds(caps, Mmio, obj, READ)
  {
    hide Contains;
    if HoldsMmio(caps) {
      var c :| 0 <= c < |caps| && caps[c].ty == Mmio && Contains(caps[c].rights, READ);
      assert Holds(caps, Mmio, caps[c].obj, READ);
    }
  }

  /** What the invariant says a process has, its capabilities back. */
  lemma {:induction false} AllBacked(s: State, p: nat)
    requires Sized(s) && p < MAX_PROCS && Live(s, p) && HeldAt(s, p)
    ensures LeftBacked(s, s, p)
  {
    hide Holds, RegionCapsOk, HoldsMmio;
    MmioIs(Caps(s, p));
    if s.own[p].bar.Some? { BarMeansMmio(Caps(s, p), s.own[p].bar.value); }
  }

  lemma {:induction false} BarMeansMmio(caps: seq<Cap>, bar: Bar)
    requires BarHeld(caps, Some(bar))
    ensures HoldsMmio(caps)
  {
    hide Contains;
  }

  /** With fewer capabilities less is left, and what is left once more is what the fewer back. */
  lemma {:induction false} BackedTwice(s: State, t: State, u: State, p: nat)
    requires Sized(s) && Sized(t) && Sized(u) && p < MAX_PROCS && LeftBacked(s, t, p) && LeftBacked(t, u, p)
    requires forall ty, obj, need :: ty != Null && Holds(Caps(u, p), ty, obj, need) ==> Holds(Caps(t, p), ty, obj, need)
    ensures LeftBacked(s, u, p)
  {
    hide Holds, Sized;
    BackedSizes(s, t, u, p);
  }

  lemma {:induction false} BackedSizes(s: State, t: State, u: State, p: nat)
    requires Sized(s) && Sized(t) && Sized(u) && p < MAX_PROCS
    ensures forall x :: x in {s, t, u} ==>
              p < |x.auth.spaces| && p < |x.mem.spaces| && p < |x.own| && p < |x.rv.ports| && |x.own[p].irq| == MAX_IRQ_LINES
              && |x.mem.spaces[p].shares| == |x.mem.spaces[p].windows| == |x.mem.spaces[p].dma| == SHARE_SLOTS
  {}

  // ------------------------------------------------------------------- REVOKE

  /** Stripping a process leaves it exactly what its capabilities back, and touches nobody else. */
  lemma {:induction false} StrippedLeaves(s: State, p: nat)
    requires Sized(s) && p < MAX_PROCS && Apart(s.mem.devs)
    requires !s.rv.ports[p].state.Ready? && !s.rv.ports[p].state.Free? ==> s.rv.ports[p].pending == 0
    ensures var t := Stripped(s, p);
            && Sized(t) && LeftBacked(s, t, p) && RecordsGo(s.mem, t.mem)
            && (forall q :: 0 <= q < MAX_PROCS && q != p ==> Untouched(s, t, q))
            && t == s.(mem := t.mem, own := t.own, rv := s.rv.(ports := t.rv.ports), run := t.run)
            && t.run.cur == s.run.cur && s.run.q <= t.run.q
  {
    hide Holds, HoldsMmio, LS.StrippedMem, RecordsGo, Apart, SpaceBacked;
    MmioIs(Caps(s, p));
    StrippedMemLeaves(s, p);
    assert Stripped(s, p).mem == LS.StrippedMem(s, p) by { StrippedMemIs(s, p); }
  }

  lemma {:induction false} StrippedMemIs(s: State, p: nat)
    requires Sized(s) && p < MAX_PROCS
    ensures Stripped(s, p).mem == LS.StrippedMem(s, p)
  {
    hide DropShares, LostShares, LostRecords, KeptLines, StrandedByLoss, HoldsMmio, L.Withdrew;
  }

  lemma {:induction false} StrippedMemLeaves(s: State, p: nat)
    requires Sized(s) && p < MAX_PROCS && Apart(s.mem.devs)
    ensures var m := LS.StrippedMem(s, p);
            && RecordsGo(s.mem, m) && |m.spaces| == MAX_PROCS && SpaceBacked(Caps(s, p), s.mem.spaces[p], m.spaces[p])
            && |m.spaces[p].shares| == |m.spaces[p].windows| == |m.spaces[p].dma| == SHARE_SLOTS
            && forall q :: 0 <= q < MAX_PROCS && q != p ==> m.spaces[q] == s.mem.spaces[q]
  {
    hide Holds, DropShares, L.Withdrew, RecordsGo, Apart;
    var caps := Caps(s, p);
    var drop, lost := LostShares(caps, s.mem.spaces[p].shares), LostRecords(caps, s.mem.spaces[p].dma);
    Dropped(s.mem, p, drop, SHARE_SLOTS);
    var m := DropShares(s.mem, p, drop, SHARE_SLOTS);
    KeptRecords(s.mem, m);
    NothingGoes(s.mem, m);
    WithdrewGo(m, p, lost);
    RecordsGoTwice(s.mem, m, L.Withdrew(m, p, lost));
  }

  lemma {:induction false} KeptRecords(m: M.Mem, n: M.Mem)
    requires n == m.(spaces := n.spaces) && |n.spaces| == |m.spaces|
    requires forall p :: 0 <= p < |m.spaces| ==> n.spaces[p].dma == m.spaces[p].dma
    ensures RecordsKept(m, n)
  {}

  /** Between the two, capabilities have only been lost, and everybody has been left exactly what theirs
      back; whoever lost none has been left alone. */
  ghost predicate Stripping(s: State, t: State, order: seq<Endpoint>) {
    && Sized(s) && Sized(t) && RecordsGo(s.mem, t.mem) && Apart(t.mem.devs)
    && t == s.(auth := t.auth, mem := t.mem, own := t.own, rv := s.rv.(ports := t.rv.ports), run := t.run)
    && t.run.cur == s.run.cur && s.run.q <= t.run.q
    && (forall p :: 0 <= p < MAX_PROCS && Live(s, p) ==> LeftBacked(s, t, p))
    && (forall p :: 0 <= p < MAX_PROCS && (!Live(s, p) || forall k :: 0 <= k < |order| ==> order[k].proc != p) ==> Untouched(s, t, p))
  }

  lemma {:induction false} StrippingStarts(s: State)
    requires Sized(s) && Apart(s.mem.devs) && forall p :: 0 <= p < MAX_PROCS ==> HeldAt(s, p)
    ensures Stripping(s, s, [])
  {
    hide HeldAt, LeftBacked, RecordsGo, Apart;
    KeptRecords(s.mem, s.mem);
    NothingGoes(s.mem, s.mem);
    forall p | 0 <= p < MAX_PROCS && Live(s, p) ensures LeftBacked(s, s, p) { AllBacked(s, p); }
  }

  lemma {:induction false} LiveBlocked(s: State, t: State, order: seq<Endpoint>, p: nat)
    requires Stripping(s, t, order) && p < MAX_PROCS
    requires !s.rv.ports[p].state.Ready? && !s.rv.ports[p].state.Free? ==> s.rv.ports[p].pending == 0
    ensures Live(t, p) == Live(s, p)
    ensures !t.rv.ports[p].state.Ready? && !t.rv.ports[p].state.Free? ==> t.rv.ports[p].pending == 0
  {
    hide Holds, SpaceBacked, OwnBacked, RecordsGo, Apart;
  }

  /** One capability struck, and its holder stripped. */
  lemma {:induction false} StruckLeaves(t: State, e: Endpoint)
    requires Sized(t) && e.proc < MAX_PROCS && Live(t, e.proc) && t.auth.spaces[e.proc].id == e.id && Apart(t.mem.devs)
    requires !t.rv.ports[e.proc].state.Ready? ==> t.rv.ports[e.proc].pending == 0
    ensures var u, p := RevokeOne(t, e), e.proc;
            && Sized(u) && RecordsGo(t.mem, u.mem) && LeftBacked(t, u, p)
            && (forall ty, obj, need :: ty != Null && Holds(Caps(u, p), ty, obj, need) ==> Holds(Caps(t, p), ty, obj, need))
            && (forall q :: 0 <= q < MAX_PROCS && q != p ==> Untouched(t, u, q))
            && u == t.(auth := u.auth, mem := u.mem, own := u.own, rv := t.rv.(ports := u.rv.ports), run := u.run)
            && u.run.cur == t.run.cur && t.run.q <= u.run.q
  {
    hide Holds, RecordsGo, Apart, Stripped, Emptied, SpaceBacked, OwnBacked, PortBacked;
    var p := e.proc;
    var x := t.(auth := A.Stricken(t.auth, e));
    LS.EmptiedSize(Caps(t, p), e.cap);
    StrippedLeaves(x, p);
    forall ty, obj, need | ty != Null && Holds(Emptied(Caps(t, p), e.cap), ty, obj, need) ensures Holds(Caps(t, p), ty, obj, need) {
      EmptiedKeeps(Caps(t, p), e.cap, ty, obj, need);
    }
    forall q | 0 <= q < MAX_PROCS && q != p ensures Untouched(t, RevokeOne(t, e), q) { assert Untouched(x, RevokeOne(t, e), q); }
  }

  lemma {:induction false} StrippingNext(s: State, t: State, order: seq<Endpoint>, e: Endpoint)
    requires Stripping(s, t, order)
    requires forall p :: 0 <= p < MAX_PROCS && !s.rv.ports[p].state.Ready? && !s.rv.ports[p].state.Free? ==> s.rv.ports[p].pending == 0
    ensures Sized(t) && Stripping(s, RevokeOne(t, e), order + [e])
  {
    hide LeftBacked, RecordsGo, Apart, Stripped, Untouched;
    var u, p := RevokeOne(t, e), e.proc;
    var more := order + [e];
    if p < MAX_PROCS && Live(t, p) && t.auth.spaces[p].id == e.id {
      LiveBlocked(s, t, order, p);
      StruckLeaves(t, e);
      RecordsGoTwice(s.mem, t.mem, u.mem);
      StillApart(t.mem, u.mem);
      BackedTwice(s, t, u, p);
      forall q | 0 <= q < MAX_PROCS && q != p && Live(s, q) ensures LeftBacked(s, u, q) { SameBacked(s, t, u, q); }
      assert more[|order|].proc == p;
      forall q | 0 <= q < MAX_PROCS && (!Live(s, q) || forall k :: 0 <= k < |more| ==> more[k].proc != q) ensures Untouched(s, u, q) {
        UntouchedTwice(s, t, u, q, order, e);
      }
    } else {
      forall q | 0 <= q < MAX_PROCS && (!Live(s, q) || forall k :: 0 <= k < |more| ==> more[k].proc != q) ensures Untouched(s, t, q) {
        assert forall k :: 0 <= k < |order| ==> more[k] == order[k];
      }
    }
  }

  lemma {:induction false} SameBacked(s: State, t: State, u: State, q: nat)
    requires Sized(s) && Sized(t) && Sized(u) && q < MAX_PROCS && LeftBacked(s, t, q) && Untouched(t, u, q)
    ensures LeftBacked(s, u, q)
  {
    hide SpaceBacked, OwnBacked, PortBacked;
  }

  lemma {:induction false} UntouchedTwice(s: State, t: State, u: State, q: nat, order: seq<Endpoint>, e: Endpoint)
    requires Sized(s) && Sized(t) && Sized(u) && q < MAX_PROCS && Untouched(t, u, q)
    requires (!Live(s, q) || forall k :: 0 <= k < |order| ==> order[k].proc != q) ==> Untouched(s, t, q)
    requires !Live(s, q) || forall k :: 0 <= k < |order + [e]| ==> (order + [e])[k].proc != q
    ensures Untouched(s, u, q)
  {
    assert forall k :: 0 <= k < |order| ==> (order + [e])[k] == order[k];
  }

  lemma {:induction false} StrippingAll(s: State, order: seq<Endpoint>, n: nat)
    requires Sized(s) && n <= |order| && Apart(s.mem.devs) && forall p :: 0 <= p < MAX_PROCS ==> HeldAt(s, p)
    requires forall p :: 0 <= p < MAX_PROCS && !s.rv.ports[p].state.Ready? && !s.rv.ports[p].state.Free? ==> s.rv.ports[p].pending == 0
    ensures Stripping(s, RevokeTo(s, order, n), order[..n])
  {
    hide HeldAt, Stripping, RevokeOne, Apart, Sized;
    if n == 0 {
      StrippingStarts(s);
      assert order[..0] == [];
    } else {
      StrippingAll(s, order, n - 1);
      StrippingNext(s, RevokeTo(s, order, n - 1), order[..n - 1], order[n - 1]);
      assert order[..n] == order[..n - 1] + [order[n - 1]];
    }
  }

  /** REVOKE: refused for an empty slot. Otherwise every live process has left exactly what the
      capabilities it now has back, every process not reported is left alone, every domain loses exactly
      the frames lost records asked it to reach, and the caller is told OK and runs on. */
  ghost predicate RevokeContract(s: State, u: State, i: nat, cap: nat, order: seq<Endpoint>) {
    && Sized(s) && i < MAX_PROCS
    && if cap >= CAP_SLOTS || Caps(s, i)[cap].ty == Null then OnlyTold(s, u, i, NO_CAP)
       else
         && Sized(u) && RecordsGo(s.mem, u.mem)
         && u == s.(auth := u.auth, mem := u.mem, own := u.own, rv := s.rv.(ports := u.rv.ports), run := u.run)
         && u.run.cur == s.run.cur && s.run.q <= u.run.q
         && (forall p :: 0 <= p < MAX_PROCS && Live(s, p) ==>
               && SpaceBacked(Caps(u, p), s.mem.spaces[p], u.mem.spaces[p]) && OwnBacked(Caps(u, p), s.own[p], u.own[p])
               && if p == i then u.rv.ports[p] == s.rv.ports[p].(r0 := OK) else PortBacked(Caps(u, p), s.rv.ports[p], u.rv.ports[p]))
         && forall p :: 0 <= p < MAX_PROCS && p != i && (!Live(s, p) || forall k :: 0 <= k < |order| ==> order[k].proc != p) ==>
              Untouched(s, u, p)
  }

  lemma {:induction false} RevokeDoes(s: State, ram: set<nat>, cap: nat, order: seq<Endpoint>, taken: bool)
    requires Inv(s, ram) && Enabled(s, Syscall(Revoke(cap, order), taken))
    ensures RevokeContract(s, Step(s, Syscall(Revoke(cap, order), taken)), s.current, cap, order)
  {
    hide Body, A.Sound, Sized, Step, Ended, RevokeContract, RevokeStep, Feasible;
    EntryEnds(s, ram, Revoke(cap, order), taken);
    CallerReady(s, ram);
    DomainsApart(s, ram);
    BlockedOwedNothing(s, ram);
    RevokeTakes(s, s.current, cap, order);
    RunsOn(s, ram, RevokeStep(s, s.current, cap, order), Step(s, Syscall(Revoke(cap, order), taken)));
  }

  lemma {:induction false} BlockedOwedNothing(s: State, ram: set<nat>)
    requires Inv(s, ram)
    ensures forall p :: 0 <= p < |s.rv.ports| && !s.rv.ports[p].state.Ready? && !s.rv.ports[p].state.Free? ==> s.rv.ports[p].pending == 0
  {
    hide M.SoundBut, A.Sound, V.MatchesOk, V.ReceiptsOk, V.OneSided, V.TagsDistinct, V.Answered, V.OwedOk, Coherent, Backed;
    forall p | 0 <= p < |s.rv.ports| && !s.rv.ports[p].state.Ready? && !s.rv.ports[p].state.Free? ensures s.rv.ports[p].pending == 0 {
      assert V.PortOk(s.rv.ports[p], s.rv.sends, s.rv.matches, s.rv.receipts);
    }
  }

  lemma {:induction false} RevokeTakes(s: State, i: nat, cap: nat, order: seq<Endpoint>)
    requires Sized(s) && i < MAX_PROCS && Receptive(s, i) && Apart(s.mem.devs) && forall p :: 0 <= p < MAX_PROCS ==> HeldAt(s, p)
    requires forall p :: 0 <= p < MAX_PROCS && !s.rv.ports[p].state.Ready? && !s.rv.ports[p].state.Free? ==> s.rv.ports[p].pending == 0
    ensures var t := RevokeStep(s, i, cap, order);
            && RevokeContract(s, t, i, cap, order)
            && t.run.cur == s.run.cur && s.run.q <= t.run.q && t.mode == s.mode && t.current == s.current
            && i < |t.rv.ports| && t.rv.ports[i].pending == 0
  {
    hide Stripping, RevokeTo, Revoked, HeldAt, Apart, Untouched, RecordsGo, SpaceBacked, OwnBacked;
    if Lookup(Caps(s, i), cap).Some? {
      var b := s.(auth := s.auth.(edges := Revoked(s.auth.edges, Endpoint(i, s.auth.spaces[i].id, cap))));
      forall p | 0 <= p < MAX_PROCS ensures HeldAt(b, p) { EdgesAside(s, b, p); }
      StrippingAll(b, order, |order|);
      assert order[..|order|] == order;
      Revoking(s, b, RevokeTo(b, order, |order|), i, cap, order);
    }
  }

  lemma {:induction false} EdgesAside(s: State, b: State, p: nat)
    requires Sized(s) && p < MAX_PROCS && HeldAt(s, p) && b == s.(auth := s.auth.(edges := b.auth.edges))
    ensures Sized(b) && HeldAt(b, p)
  {
    hide Held;
  }

  lemma {:induction false} Revoking(s: State, b: State, t: State, i: nat, cap: nat, order: seq<Endpoint>)
    requires Sized(s) && i < MAX_PROCS && Receptive(s, i) && b == s.(auth := s.auth.(edges := b.auth.edges))
    requires Stripping(b, t, order) && cap < CAP_SLOTS && Caps(s, i)[cap].ty != Null
    ensures i < |t.rv.ports| && t.rv.ports[i].pending == 0
    ensures RevokeContract(s, Return(t, i, OK), i, cap, order)
  {
    hide RecordsGo, Holds, SpaceBacked, OwnBacked, Apart;
    assert LeftBacked(b, t, i);
    forall p | 0 <= p < MAX_PROCS && Live(s, p) ensures LeftBacked(b, t, p) {}
    forall p | 0 <= p < MAX_PROCS && p != i && (!Live(s, p) || forall k :: 0 <= k < |order| ==> order[k].proc != p)
      ensures Untouched(b, t, p)
    {}
  }
}
