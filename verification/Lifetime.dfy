/** How frames stop being somebody's: windows dropped, device reach withdrawn, regions released in
    the order a plan dictates, processes torn down. */
module Lifetime {
  import opened Abi
  import opened Seqs
  import opened Dma
  import opened Memory

  // ------------------------------------------------------------------- moving frames

  function SetOf(fs: seq<nat>): set<nat> {
    set f | f in fs
  }

  lemma {:induction false} OneMore(s: set<nat>, f: nat)
    requires f !in s
    ensures multiset(s + {f}) == multiset(s) + multiset{f}
  {
    forall g ensures multiset(s + {f})[g] == (multiset(s) + multiset{f})[g] {
      assert g in s + {f} <==> g in s || g == f;
    }
  }

  lemma {:induction false} PoolGain(pool: set<nat>, fs: seq<nat>)
    requires NoDup(fs) && forall f :: f in fs ==> f !in pool
    ensures multiset(pool + SetOf(fs)) == multiset(pool) + multiset(fs)
  {
    if fs == [] {
      assert pool + SetOf(fs) == pool;
    } else {
      var n := |fs| - 1;
      var gs := fs[..n];
      PoolGain(pool, gs);
      assert fs == gs + [fs[n]];
      assert fs[n] !in gs;
      assert SetOf(fs) == SetOf(gs) + {fs[n]};
      assert pool + SetOf(fs) == (pool + SetOf(gs)) + {fs[n]};
      OneMore(pool + SetOf(gs), fs[n]);
      assert multiset(pool) + multiset(fs) == (multiset(pool) + multiset(gs)) + multiset{fs[n]};
    }
  }

  lemma {:induction false} PoolLoss(pool: set<nat>, fs: seq<nat>)
    requires NoDup(fs) && forall f :: f in fs ==> f in pool
    ensures multiset(pool - SetOf(fs)) + multiset(fs) == multiset(pool)
  {
    PoolGain(pool - SetOf(fs), fs);
    assert (pool - SetOf(fs)) + SetOf(fs) == pool;
  }

  lemma {:induction false} Rebalanced(pool: multiset<nat>, pool': multiset<nat>, sum: multiset<nat>, sum': multiset<nat>,
                                      x: multiset<nat>, x': multiset<nat>)
    requires sum' + x == sum + x' && pool' + x' == pool + x
    ensures pool' + sum' == pool + sum
  {
    forall f ensures (pool' + sum')[f] == (pool + sum)[f] {
      assert (sum' + x)[f] == (sum + x')[f] && (pool' + x')[f] == (pool + x)[f];
    }
  }

  /** Frames move between the pool and one process's list. */
  lemma {:induction false} HeldMoves(m: Mem, n: Mem, ram: set<nat>, p: nat)
    requires Conserved(m.pool, m.regions, m.spaces, ram) && p < |m.spaces| == |n.spaces| && n.regions == m.regions
    requires forall q :: 0 <= q < |m.spaces| && q != p ==> n.spaces[q].frames == m.spaces[q].frames
    requires multiset(n.pool) + multiset(n.spaces[p].frames) == multiset(m.pool) + multiset(m.spaces[p].frames)
    ensures Conserved(n.pool, n.regions, n.spaces, ram)
  {
    var x := n.spaces[p].frames;
    SumUpdate(Held(m.spaces), p, x);
    assert Held(n.spaces) == Held(m.spaces)[p := x];
    Rebalanced(multiset(m.pool), multiset(n.pool), Sum(Held(m.spaces)), Sum(Held(n.spaces)),
               multiset(m.spaces[p].frames), multiset(x));
  }

  /** Frames move between the pool and one region. */
  lemma {:induction false} SharedMoves(m: Mem, n: Mem, ram: set<nat>, i: nat)
    requires Conserved(m.pool, m.regions, m.spaces, ram) && i < |m.regions| == |n.regions|
    requires |n.spaces| == |m.spaces|
    requires forall q :: 0 <= q < |m.spaces| ==> n.spaces[q].frames == m.spaces[q].frames
    requires forall j :: 0 <= j < |m.regions| && j != i ==> n.regions[j].frames == m.regions[j].frames
    requires multiset(n.pool) + multiset(n.regions[i].frames) == multiset(m.pool) + multiset(m.regions[i].frames)
    ensures Conserved(n.pool, n.regions, n.spaces, ram)
  {
    var x := n.regions[i].frames;
    SumUpdate(Shared(m.regions), i, x);
    assert Shared(n.regions) == Shared(m.regions)[i := x];
    assert Held(n.spaces) == Held(m.spaces);
    Rebalanced(multiset(m.pool), multiset(n.pool), Sum(Shared(m.regions)), Sum(Shared(n.regions)),
               multiset(m.regions[i].frames), multiset(x));
    var held := Sum(Held(m.spaces));
    assert multiset(n.pool) + held + Sum(Shared(n.regions)) == (multiset(n.pool) + Sum(Shared(n.regions))) + held;
    assert multiset(m.pool) + held + Sum(Shared(m.regions)) == (multiset(m.pool) + Sum(Shared(m.regions))) + held;
  }

  lemma {:induction false} SameFrames(m: Mem, n: Mem, ram: set<nat>)
    requires Conserved(m.pool, m.regions, m.spaces, ram) && n.pool == m.pool && n.regions == m.regions && |n.spaces| == |m.spaces|
    requires forall q :: 0 <= q < |m.spaces| ==> n.spaces[q].frames == m.spaces[q].frames
    ensures Conserved(n.pool, n.regions, n.spaces, ram)
  {
    assert Held(n.spaces) == Held(m.spaces) && Shared(n.regions) == Shared(m.regions);
  }

  // ------------------------------------------------------------------- windows

  /** Share slot `k` of process `p` now names `share` and shows `w`. */
  function SetWindow(m: Mem, p: nat, k: nat, share: nat, w: Window): Mem
    requires p < |m.spaces| && k < |m.spaces[p].shares| && k < |m.spaces[p].windows|
  {
    var sp := m.spaces[p];
    m.(spaces := m.spaces[p := sp.(shares := sp.shares[k := share], windows := sp.windows[k := w])])
  }

  function DropShare(m: Mem, p: nat, k: nat): Mem {
    if p < |m.spaces| && k < |m.spaces[p].shares| && k < |m.spaces[p].windows| && m.spaces[p].shares[k] != 0
    then SetWindow(m, p, k, 0, NO_WINDOW) else m
  }

  lemma {:induction false} SameOwners(m: Mem, n: Mem)
    requires OwnersOk(m.regions, m.spaces) && |n.spaces| == |m.spaces| && n.regions == m.regions
    requires forall q :: 0 <= q < |m.spaces| ==> n.spaces[q].live == m.spaces[q].live && n.spaces[q].id == m.spaces[q].id
    ensures OwnersOk(n.regions, n.spaces)
  {
    forall i | 0 <= i < |n.regions| && n.regions[i].live ensures LiveId(n.spaces, n.regions[i].owner) {
      assert LiveId(m.spaces, m.regions[i].owner);
      var p :| 0 <= p < |m.spaces| && m.spaces[p].live && m.spaces[p].id == m.regions[i].owner;
      assert n.spaces[p].live;
    }
  }

  lemma {:induction false} SameReach(m: Mem, n: Mem)
    requires ReachOk(m.regions, m.spaces, m.devs) && |n.spaces| == |m.spaces| && n.regions == m.regions && n.devs == m.devs
    requires forall q :: 0 <= q < |m.spaces| ==> n.spaces[q].dma == m.spaces[q].dma
    ensures ReachOk(n.regions, n.spaces, n.devs)
  {
    hide FramesOf;
    forall d, a | 0 <= d < |n.devs| && 0 <= a < |n.devs[d].leaves| && n.devs[d].leaves[a].Present?
      ensures Attributed(n.regions, n.spaces, n.devs[d].id, n.devs[d].leaves[a].frame)
    {
      var f := m.devs[d].leaves[a].frame;
      assert Attributed(m.regions, m.spaces, m.devs[d].id, f);
      var p, k :| 0 <= p < |m.spaces| && 0 <= k < |m.spaces[p].dma|
                  && m.spaces[p].dma[k].region != 0 && m.spaces[p].dma[k].domain == m.devs[d].id
                  && f in FramesOf(m.regions, m.spaces[p].dma[k].region);
      assert n.spaces[p].dma[k] == m.spaces[p].dma[k];
    }
  }

  lemma {:induction false} SetWindowSound(m: Mem, ram: set<nat>, stale: bool, p: nat, k: nat, share: nat, w: Window)
    requires SoundBut(m, ram, stale) && p < MAX_PROCS && k < SHARE_SLOTS
    requires WindowOk(m.regions, share, w) && (!m.spaces[p].live ==> share == 0)
    ensures SoundBut(SetWindow(m, p, k, share, w), ram, stale)
  {
    hide WindowOk, ReachOk, OwnersOk, Conserved, DevicesOk, DevicesShaped, RegionsOk, RegionAt;
    var n := SetWindow(m, p, k, share, w);
    SameFrames(m, n, ram);
    SameOwners(m, n);
    SameReach(m, n);
  }

  lemma {:induction false} DropShareSound(m: Mem, ram: set<nat>, stale: bool, p: nat, k: nat)
    requires SoundBut(m, ram, stale)
    ensures SoundBut(DropShare(m, p, k), ram, stale)
  {
    hide SoundBut, Shaped;
    if p < |m.spaces| && k < |m.spaces[p].shares| && k < |m.spaces[p].windows| && m.spaces[p].shares[k] != 0 {
      ShapeOf(m, ram, stale);
      SetWindowSound(m, ram, stale, p, k, 0, NO_WINDOW);
    }
  }

  lemma {:induction false} ShapeOf(m: Mem, ram: set<nat>, stale: bool)
    requires SoundBut(m, ram, stale)
    ensures |m.regions| == MAX_REGIONS && |m.spaces| == MAX_PROCS && |m.devs| == MAX_DOMAINS && RegionsOk(m.regions, m.nextRegion)
    ensures forall p :: 0 <= p < MAX_PROCS ==>
              |m.spaces[p].shares| == |m.spaces[p].windows| == |m.spaces[p].dma| == SHARE_SLOTS
              && |m.spaces[p].frames| <= MAX_PROC_FRAMES
  {}

  // ------------------------------------------------------------------- device reach

  lemma {:induction false} InvalidateWithdraw(d: Device, fs: seq<nat>, n: nat)
    requires n <= |fs|
    ensures Withdraw(Invalidate(d), fs, n) == Invalidate(Withdraw(d, fs, n))
  {
    if n > 0 { InvalidateWithdraw(d, fs, n - 1); }
  }

  lemma {:induction false} InvalidateOk(d: Device)
    requires DeviceOk(d)
    ensures DeviceOk(Invalidate(d))
  {
    hide Iommu.Sound, GrantsUsed;
  }

  /** One device after a withdrawal: nothing of `fs` is left in its table, and only if an entry was
      cleared may its unit be out of date. */
  lemma {:induction false} DeviceWithdraw(d: Device, fs: seq<nat>, stale: bool)
    requires DeviceOk(if stale then Invalidate(d) else d)
    ensures var e := Withdraw(d, fs, |fs|);
            && Withdrawn(d, e, fs) && e.id == d.id && e.table == d.table
            && DeviceOk(if stale || TouchesAny(d.leaves, fs) then Invalidate(e) else e)
  {
    hide DeviceOk, Withdraw, Withdrawn, TouchesAny;
    if stale {
      WithdrawKeepsOk(Invalidate(d), fs);
      InvalidateWithdraw(d, fs, |fs|);
      InvalidateTwice(d, Withdraw(d, fs, |fs|), fs);
    } else {
      WithdrawKeepsOk(d, fs);
    }
  }

  lemma {:induction false} InvalidateTwice(d: Device, e: Device, fs: seq<nat>)
    requires Withdrawn(Invalidate(d), Invalidate(e), fs) && e == Withdraw(d, fs, |fs|)
    ensures Withdrawn(d, e, fs) && Invalidate(Invalidate(e)) == Invalidate(e)
    ensures Invalidate(e).id == e.id && Invalidate(e).table == e.table
    ensures Invalidate(d).id == d.id && Invalidate(d).table == d.table
  {
    hide Withdraw;
    WithdrawIs(d, fs, |fs|);
  }

  function Invalidated(devs: seq<Device>): (r: seq<Device>)
    ensures |r| == |devs|
  {
    seq(|devs|, d requires 0 <= d < |devs| => if devs[d].id != 0 then Invalidate(devs[d]) else devs[d])
  }

  /** After the unit has been told, nothing is stale. */
  lemma {:induction false} InvalidatedSound(m: Mem, ram: set<nat>)
    requires SoundBut(m, ram, true)
    ensures Sound(m.(devs := Invalidated(m.devs)), ram)
  {
    hide DeviceOk, Conserved, RegionsOk, WindowsOk, Attributed;
    var n := m.(devs := Invalidated(m.devs));
    assert Held(n.spaces) == Held(m.spaces) && Shared(n.regions) == Shared(m.regions);
    SameFrames(m, n, ram);
    SameOwners(m, n);
    forall d | 0 <= d < |n.devs| ensures DeviceOk(n.devs[d]) {
      assert m.devs[d].id == 0 ==> Invalidate(m.devs[d]) == m.devs[d];
    }
    forall d, a | 0 <= d < |n.devs| && 0 <= a < |n.devs[d].leaves| && n.devs[d].leaves[a].Present?
      ensures Attributed(n.regions, n.spaces, n.devs[d].id, n.devs[d].leaves[a].frame)
    {
      assert Attributed(m.regions, m.spaces, m.devs[d].id, m.devs[d].leaves[a].frame);
      SameAttribution(m, n, m.devs[d].id, m.devs[d].leaves[a].frame);
    }
  }

  lemma {:induction false} SameAttribution(m: Mem, n: Mem, domain: nat, f: nat)
    requires n.spaces == m.spaces && n.regions == m.regions
    ensures Attributed(m.regions, m.spaces, domain, f) <==> Attributed(n.regions, n.spaces, domain, f)
  {}

  // ------------------------------------------------------------------- withdrawing what a process asked for

  /** Withdraw one recorded mapping: its domain loses the whole region. */
  function WithdrawRecord(m: Mem, p: nat, k: nat): Mem
    requires p < |m.spaces| && k < |m.spaces[p].dma|
  {
    var rec := m.spaces[p].dma[k];
    if rec.region == 0 then m
    else
      var n := m.(spaces := m.spaces[p := m.spaces[p].(dma := m.spaces[p].dma[k := NO_RECORD])]);
      var d, i := DomainAt(m.devs, rec.domain), RegionAt(m.regions, rec.region);
      if d < |m.devs| && i < |m.regions|
      then n.(devs := m.devs[d := Withdraw(m.devs[d], m.regions[i].frames, |m.regions[i].frames|)]) else n
  }

  /** Did that clear a table entry? */
  predicate RecordTouches(m: Mem, p: nat, k: nat)
    requires p < |m.spaces| && k < |m.spaces[p].dma|
  {
    var rec := m.spaces[p].dma[k];
    var d, i := DomainAt(m.devs, rec.domain), RegionAt(m.regions, rec.region);
    && rec.region != 0 && d < |m.devs| && i < |m.regions|
    && TouchesAny(m.devs[d].leaves, m.regions[i].frames)
  }

  ghost predicate DeviceAsWithdrawn(m: Mem, n: Mem, domain: nat, fs: seq<nat>, d: nat)
    requires d < |m.devs| == |n.devs|
  {
    && n.devs[d].id == m.devs[d].id && n.devs[d].table == m.devs[d].table
    && if m.devs[d].id == domain then Withdrawn(m.devs[d], n.devs[d], fs) else n.devs[d] == m.devs[d]
  }

  lemma {:induction false} WithdrawRecordDevices(m: Mem, ram: set<nat>, stale: bool, p: nat, k: nat)
    requires SoundBut(m, ram, stale) && p < MAX_PROCS && k < SHARE_SLOTS && m.spaces[p].dma[k].region != 0
    ensures var n, rec := WithdrawRecord(m, p, k), m.spaces[p].dma[k];
            && |n.devs| == |m.devs|
            && DevicesOk(n.devs, stale || RecordTouches(m, p, k))
            && (forall d :: 0 <= d < |m.devs| ==>
                  m.devs[d].id != 0 ==> DeviceAsWithdrawn(m, n, rec.domain, FramesOf(m.regions, rec.region), d))
            && (forall d :: 0 <= d < |m.devs| && m.devs[d].id == 0 ==> n.devs[d] == m.devs[d])
  {
    hide DeviceOk, Withdraw, Withdrawn, TouchesAny, Conserved, WindowsOk, ReachOk, OwnersOk, QuietOk, RegionsOk;
    var n, rec := WithdrawRecord(m, p, k), m.spaces[p].dma[k];
    var d, i := DomainAt(m.devs, rec.domain), RegionAt(m.regions, rec.region);
    if d < |m.devs| && i < |m.regions| { DeviceWithdraw(m.devs[d], m.regions[i].frames, stale); }
    if stale || RecordTouches(m, p, k) {
      forall e | 0 <= e < |n.devs| ensures DeviceOk(Invalidate(n.devs[e])) {
        if !stale && !(e == d && d < |m.devs| && i < |m.regions|) { InvalidateOk(m.devs[e]); }
      }
    }
  }

  /** Withdrawing a record keeps every other process's records accounting for what is left. */
  lemma {:induction false} WithdrawRecordSound(m: Mem, ram: set<nat>, stale: bool, p: nat, k: nat)
    requires SoundBut(m, ram, stale) && p < MAX_PROCS && k < SHARE_SLOTS
    ensures SoundBut(WithdrawRecord(m, p, k), ram, stale || RecordTouches(m, p, k))
  {
    hide DeviceOk, Withdraw, TouchesAny, Conserved, WindowOk, OwnersOk, RegionsOk, RegionAt, FramesOf, Attributed, ReachOk;
    if m.spaces[p].dma[k].region != 0 {
      var n := WithdrawRecord(m, p, k);
      WithdrawRecordDevices(m, ram, stale, p, k);
      SameFrames(m, n, ram);
      SameOwners(m, n);
      WithdrawRecordReach(m, n, ram, stale, p, k);
    }
  }

  lemma {:induction false} WithdrawRecordReach(m: Mem, n: Mem, ram: set<nat>, stale: bool, p: nat, k: nat)
    requires SoundBut(m, ram, stale) && p < MAX_PROCS && k < SHARE_SLOTS && m.spaces[p].dma[k].region != 0
    requires n.regions == m.regions && |n.devs| == |m.devs|
    requires n.spaces == m.spaces[p := m.spaces[p].(dma := m.spaces[p].dma[k := NO_RECORD])]
    requires forall d :: 0 <= d < |m.devs| ==>
               m.devs[d].id != 0 ==>
               DeviceAsWithdrawn(m, n, m.spaces[p].dma[k].domain, FramesOf(m.regions, m.spaces[p].dma[k].region), d)
    requires forall d :: 0 <= d < |m.devs| && m.devs[d].id == 0 ==> n.devs[d] == m.devs[d]
    ensures ReachOk(n.regions, n.spaces, n.devs)
  {
    hide DeviceOk, DevicesOk, Conserved, WindowOk, OwnersOk, RegionsOk, RegionAt, FramesOf, RecordsOk, QuietOk;
    forall d, a | 0 <= d < |n.devs| && 0 <= a < |n.devs[d].leaves| && n.devs[d].leaves[a].Present?
      ensures Attributed(n.regions, n.spaces, n.devs[d].id, n.devs[d].leaves[a].frame)
    {
      var f := n.devs[d].leaves[a].frame;
      assert m.devs[d].leaves[a] == n.devs[d].leaves[a];
      assert Attributed(m.regions, m.spaces, m.devs[d].id, f);
      var q, j :| 0 <= q < |m.spaces| && 0 <= j < |m.spaces[q].dma|
                  && m.spaces[q].dma[j].region != 0 && m.spaces[q].dma[j].domain == m.devs[d].id
                  && f in FramesOf(m.regions, m.spaces[q].dma[j].region);
      assert (q, j) != (p, k);
      assert n.spaces[q].dma[j] == m.spaces[q].dma[j];
    }
  }

  /** Withdraw the first `n` records of process `p` that `drop` selects. */
  function WithdrawSome(m: Mem, p: nat, drop: seq<bool>, n: nat): (r: Mem)
    requires p < |m.spaces| && n <= |drop| == |m.spaces[p].dma|
    ensures |r.spaces| == |m.spaces| && |r.spaces[p].dma| == |m.spaces[p].dma|
  {
    if n == 0 then m
    else
      var r := WithdrawSome(m, p, drop, n - 1);
      if drop[n - 1] then WithdrawRecord(r, p, n - 1) else r
  }

  predicate SomeTouch(m: Mem, p: nat, drop: seq<bool>, n: nat)
    requires p < |m.spaces| && n <= |drop| == |m.spaces[p].dma|
  {
    n > 0 && (SomeTouch(m, p, drop, n - 1) || (drop[n - 1] && RecordTouches(WithdrawSome(m, p, drop, n - 1), p, n - 1)))
  }

  /** Withdraw the selected records, then tell the unit if any entry was cleared. */
  function Withdrew(m: Mem, p: nat, drop: seq<bool>): (r: Mem)
    requires p < |m.spaces| && |drop| == |m.spaces[p].dma|
    ensures |r.spaces| == |m.spaces| && |r.spaces[p].dma| == |m.spaces[p].dma|
  {
    var r := WithdrawSome(m, p, drop, |drop|);
    if SomeTouch(m, p, drop, |drop|) then r.(devs := Invalidated(r.devs)) else r
  }

  /** Only the selected records are cleared, and only devices change. */
  ghost predicate RecordsCleared(m: Mem, n: Mem, p: nat, drop: seq<bool>, upto: nat)
    requires p < |m.spaces| && upto <= |drop| == |m.spaces[p].dma|
  {
    && n.pool == m.pool && n.regions == m.regions && n.nextRegion == m.nextRegion
    && |n.spaces| == |m.spaces| && |n.spaces[p].dma| == |m.spaces[p].dma|
    && n.spaces == m.spaces[p := m.spaces[p].(dma := n.spaces[p].dma)]
    && forall k :: 0 <= k < |drop| ==>
         n.spaces[p].dma[k] == if k < upto && drop[k] && m.spaces[p].dma[k].region != 0 then NO_RECORD else m.spaces[p].dma[k]
  }

  lemma {:induction false} WithdrawSomeSound(m: Mem, ram: set<nat>, p: nat, drop: seq<bool>, n: nat)
    requires Sound(m, ram) && p < MAX_PROCS && n <= |drop| == SHARE_SLOTS && |drop| == |m.spaces[p].dma|
    ensures SoundBut(WithdrawSome(m, p, drop, n), ram, SomeTouch(m, p, drop, n))
    ensures RecordsCleared(m, WithdrawSome(m, p, drop, n), p, drop, n)
  {
    hide SoundBut, RecordTouches, WithdrawRecord, RecordsCleared;
    ShapeOf(m, ram, false);
    if n == 0 {
      NothingCleared(m, p, drop);
    } else {
      WithdrawSomeSound(m, ram, p, drop, n - 1);
      var r := WithdrawSome(m, p, drop, n - 1);
      ClearedNext(m, r, p, drop, n);
      if drop[n - 1] {
        WithdrawRecordSound(r, ram, SomeTouch(m, p, drop, n - 1), p, n - 1);
      }
    }
  }

  lemma {:induction false} NothingCleared(m: Mem, p: nat, drop: seq<bool>)
    requires p < |m.spaces| && |drop| == |m.spaces[p].dma|
    ensures RecordsCleared(m, m, p, drop, 0)
  {
    assert m.spaces == m.spaces[p := m.spaces[p].(dma := m.spaces[p].dma)];
  }

  lemma {:induction false} ClearedNext(m: Mem, r: Mem, p: nat, drop: seq<bool>, n: nat)
    requires p < |m.spaces| && 0 < n <= |drop| == |m.spaces[p].dma|
    requires RecordsCleared(m, r, p, drop, n - 1)
    ensures RecordsCleared(m, if drop[n - 1] then WithdrawRecord(r, p, n - 1) else r, p, drop, n)
  {
    hide Withdraw, DomainAt, RegionAt;
    var e := if drop[n - 1] then WithdrawRecord(r, p, n - 1) else r;
    assert e.spaces == m.spaces[p := m.spaces[p].(dma := e.spaces[p].dma)];
  }

  lemma {:induction false} WithdrewSound(m: Mem, ram: set<nat>, p: nat, drop: seq<bool>)
    requires Sound(m, ram) && p < MAX_PROCS && |drop| == SHARE_SLOTS && |drop| == |m.spaces[p].dma|
    ensures Sound(Withdrew(m, p, drop), ram)
    ensures RecordsCleared(m, Withdrew(m, p, drop), p, drop, |drop|)
  {
    hide SoundBut, WithdrawSome, SomeTouch, Invalidated;
    ShapeOf(m, ram, false);
    WithdrawSomeSound(m, ram, p, drop, |drop|);
    if SomeTouch(m, p, drop, |drop|) { InvalidatedSound(WithdrawSome(m, p, drop, |drop|), ram); }
  }

  /** Withdraw one region from one domain at a process's request, forgetting that process's records
      of it and telling that domain's unit. */
  function UnmapDma(m: Mem, p: nat, d: nat, i: nat): Mem
    requires p < |m.spaces| && d < |m.devs| && i < |m.regions|
  {
    var sp, fs := m.spaces[p], m.regions[i].frames;
    m.(devs := m.devs[d := Invalidate(Withdraw(m.devs[d], fs, |fs|))],
       spaces := m.spaces[p := Forgot(sp, Record(m.regions[i].id, m.devs[d].id))])
  }

  function Forgot(sp: Space, rec: Record): Space {
    sp.(dma := seq(|sp.dma|, k requires 0 <= k < |sp.dma| => if sp.dma[k] == rec then NO_RECORD else sp.dma[k]))
  }

  lemma {:induction false} UnmapDmaSound(m: Mem, ram: set<nat>, p: nat, d: nat, i: nat)
    requires Sound(m, ram) && p < MAX_PROCS && d < MAX_DOMAINS && i < MAX_REGIONS
    requires m.regions[i].live && m.devs[d].id != 0
    ensures Sound(UnmapDma(m, p, d, i), ram)
  {
    hide DeviceOk, Withdraw, TouchesAny, Conserved, WindowOk, OwnersOk, RegionAt, FramesOf, Attributed, ReachOk, Withdrawn;
    var n, fs := UnmapDma(m, p, d, i), m.regions[i].frames;
    DeviceWithdraw(m.devs[d], fs, false);
    var e := Withdraw(m.devs[d], fs, |fs|);
    if !TouchesAny(m.devs[d].leaves, fs) { InvalidateOk(e); }
    SameFrames(m, n, ram);
    SameOwners(m, n);
    WithdrawnShape(m.devs[d], e, fs);
    UnmapDmaReach(m, n, ram, p, d, i);
  }

  lemma {:induction false} WithdrawnShape(d: Device, e: Device, fs: seq<nat>)
    requires Withdrawn(d, e, fs)
    ensures |e.leaves| == |d.leaves| && e.tlb == d.tlb
    ensures forall a :: 0 <= a < |e.leaves| && e.leaves[a].Present? ==> e.leaves[a] == d.leaves[a] && e.leaves[a].frame !in fs
  {}

  lemma {:induction false} UnmapDmaReach(m: Mem, n: Mem, ram: set<nat>, p: nat, d: nat, i: nat)
    requires Sound(m, ram) && p < MAX_PROCS && d < MAX_DOMAINS && i < MAX_REGIONS
    requires m.regions[i].live && m.devs[d].id != 0
    requires n.regions == m.regions && |n.devs| == |m.devs| && n.devs[d].id == m.devs[d].id
    requires n.spaces == m.spaces[p := Forgot(m.spaces[p], Record(m.regions[i].id, m.devs[d].id))]
    requires forall c :: 0 <= c < |m.devs| && c != d ==> n.devs[c] == m.devs[c]
    requires |n.devs[d].leaves| == |m.devs[d].leaves|
    requires forall a :: 0 <= a < |n.devs[d].leaves| && n.devs[d].leaves[a].Present? ==>
               n.devs[d].leaves[a] == m.devs[d].leaves[a] && n.devs[d].leaves[a].frame !in m.regions[i].frames
    ensures ReachOk(n.regions, n.spaces, n.devs)
  {
    hide DeviceOk, DevicesOk, Conserved, WindowOk, OwnersOk, RegionAt, FramesOf, RecordsOk, QuietOk;
    RegionAtIs(m.regions, i);
    forall c, a | 0 <= c < |n.devs| && 0 <= a < |n.devs[c].leaves| && n.devs[c].leaves[a].Present?
      ensures Attributed(n.regions, n.spaces, n.devs[c].id, n.devs[c].leaves[a].frame)
    {
      var f := n.devs[c].leaves[a].frame;
      assert m.devs[c].leaves[a] == n.devs[c].leaves[a];
      assert Attributed(m.regions, m.spaces, m.devs[c].id, f);
      var q, j :| 0 <= q < |m.spaces| && 0 <= j < |m.spaces[q].dma|
                  && m.spaces[q].dma[j].region != 0 && m.spaces[q].dma[j].domain == m.devs[c].id
                  && f in FramesOf(m.regions, m.spaces[q].dma[j].region);
      assert n.spaces[q].dma[j] == m.spaces[q].dma[j];
    }
  }

  // ------------------------------------------------------------------- releasing a region

  function Withdrawals(devs: seq<Device>, fs: seq<nat>): (r: seq<Device>)
    ensures |r| == |devs|
  {
    seq(|devs|, d requires 0 <= d < |devs| => Withdraw(devs[d], fs, |fs|))
  }

  predicate AnyTouch(devs: seq<Device>, fs: seq<nat>) {
    exists d :: 0 <= d < |devs| && TouchesAny(devs[d].leaves, fs)
  }

  function Unrecorded(sp: Space, r: nat): Space {
    if sp.live then
      sp.(dma := seq(|sp.dma|, k requires 0 <= k < |sp.dma| => if sp.dma[k].region == r then NO_RECORD else sp.dma[k]))
    else sp
  }

  /** The device half of a release: hardware and model in every domain, then the units. */
  function Unreached(devs: seq<Device>, fs: seq<nat>): (r: seq<Device>)
    ensures |r| == |devs|
  {
    if AnyTouch(devs, fs) then Invalidated(Withdrawals(devs, fs)) else Withdrawals(devs, fs)
  }

  /** Release a region: no device reaches it, no record names it, its frames go back to the pool. */
  function Released(m: Mem, r: nat): (n: Mem)
    ensures |n.spaces| == |m.spaces| && |n.regions| == |m.regions|
  {
    var i := RegionAt(m.regions, r);
    if i == |m.regions| then m
    else
      var fs := m.regions[i].frames;
      Mem(m.pool + SetOf(fs), m.regions[i := NO_REGION],
          seq(|m.spaces|, p requires 0 <= p < |m.spaces| => Unrecorded(m.spaces[p], r)),
          Unreached(m.devs, fs), m.nextRegion)
  }

  lemma {:induction false} RegionGone(rs: seq<Region>, i: nat, id: nat)
    requires DistinctIds(rs) && i < |rs| && rs[i].live
    ensures id != rs[i].id ==>
              RegionAt(rs[i := NO_REGION], id) == RegionAt(rs, id) && FramesOf(rs[i := NO_REGION], id) == FramesOf(rs, id)
    ensures RegionAt(rs[i := NO_REGION], rs[i].id) == |rs|
  {
    var ss := rs[i := NO_REGION];
    var j, k := RegionAt(rs, id), RegionAt(ss, id);
    assert k < |ss| ==> ss[k].live && ss[k].id == id && ss[k] == rs[k];
    if j < |rs| && j != i { assert ss[j] == rs[j]; }
    var g := RegionAt(ss, rs[i].id);
  }

  lemma {:induction false} WithdrawalsOk(devs: seq<Device>, fs: seq<nat>)
    requires DevicesShaped(devs) && DevicesOk(devs, false)
    ensures DevicesShaped(Withdrawals(devs, fs)) && DevicesOk(Withdrawals(devs, fs), AnyTouch(devs, fs))
    ensures forall d :: 0 <= d < |devs| ==>
              Withdrawals(devs, fs)[d].id == devs[d].id && Withdrawn(devs[d], Withdrawals(devs, fs)[d], fs)
  {
    hide DeviceOk, Withdraw, TouchesAny, Withdrawn;
    forall d | 0 <= d < |devs|
      ensures var e := Withdrawals(devs, fs)[d];
              && e.id == devs[d].id && e.table == devs[d].table && Withdrawn(devs[d], e, fs)
              && DeviceOk(if AnyTouch(devs, fs) then Invalidate(e) else e)
              && |e.leaves| == |devs[d].leaves| && e.tlb == devs[d].tlb
              && (forall a :: 0 <= a < |e.leaves| && e.leaves[a].Present? ==> e.leaves[a] == devs[d].leaves[a])
    {
      var e := Withdrawals(devs, fs)[d];
      DeviceWithdraw(devs[d], fs, false);
      WithdrawnShape(devs[d], e, fs);
      if AnyTouch(devs, fs) && !TouchesAny(devs[d].leaves, fs) { InvalidateOk(e); }
    }
  }

  ghost predicate Unshared(m: Mem, r: nat) {
    forall p, k :: 0 <= p < |m.spaces| && 0 <= k < |m.spaces[p].shares| ==> m.spaces[p].shares[k] != r
  }

  /** Releasing a region no window shows: its frames reach the pool with nothing naming them. */
  lemma {:induction false} ReleasedSound(m: Mem, ram: set<nat>, r: nat)
    requires Sound(m, ram) && Unshared(m, r)
    ensures Sound(Released(m, r), ram)
  {
    hide DeviceOk, Conserved, WindowsOk, RecordsOk, OwnersOk, ReachOk, RegionsOk, DevicesOk, DevicesShaped, Withdrawals, Invalidated, AnyTouch, SetOf;
    var i := RegionAt(m.regions, r);
    if i < |m.regions| {
      var fs := m.regions[i].frames;
      var n := Released(m, r).(devs := Withdrawals(m.devs, fs));
      WithdrawalsOk(m.devs, fs);
      ReleasedConserved(m, n, ram, i);
      ReleasedTables(m, n, ram, i, r);
      ReleasedReach(m, n, ram, i, r);
      if AnyTouch(m.devs, fs) { InvalidatedSound(n, ram); }
    }
  }

  lemma {:induction false} ReleasedConserved(m: Mem, n: Mem, ram: set<nat>, i: nat)
    requires Sound(m, ram) && i < |m.regions| && n.pool == m.pool + SetOf(m.regions[i].frames)
    requires n.regions == m.regions[i := NO_REGION] && |n.spaces| == |m.spaces|
    requires forall p :: 0 <= p < |m.spaces| ==> n.spaces[p].frames == m.spaces[p].frames
    ensures Conserved(n.pool, n.regions, n.spaces, ram)
  {
    hide DeviceOk, Conserved, WindowsOk, RecordsOk, OwnersOk, ReachOk, RegionsOk, DevicesOk, DevicesShaped, QuietOk;
    RegionFrameIsExclusive(m, ram, i);
    PoolGain(m.pool, m.regions[i].frames);
    assert multiset(NO_REGION.frames) == multiset{};
    SharedMoves(m, n, ram, i);
  }

  lemma {:induction false} ReleasedTables(m: Mem, n: Mem, ram: set<nat>, i: nat, r: nat)
    requires Sound(m, ram) && Unshared(m, r) && i == RegionAt(m.regions, r) < |m.regions|
    requires n.regions == m.regions[i := NO_REGION] && n.nextRegion == m.nextRegion
    requires n.spaces == Released(m, r).spaces
    ensures RegionsOk(n.regions, n.nextRegion) && WindowsOk(n.regions, n.spaces) && RecordsOk(n.regions, n.spaces)
    ensures OwnersOk(n.regions, n.spaces)
  {
    hide DeviceOk, Conserved, ReachOk, DevicesOk, DevicesShaped, RegionAt, FramesOf, Unreached;
    forall id | id != r
      ensures RegionAt(n.regions, id) == RegionAt(m.regions, id) && FramesOf(n.regions, id) == FramesOf(m.regions, id)
    {
      RegionGone(m.regions, i, id);
    }
    forall j | 0 <= j < |n.regions| && n.regions[j].live ensures LiveId(n.spaces, n.regions[j].owner) {
      assert LiveId(m.spaces, m.regions[j].owner);
      var p :| 0 <= p < |m.spaces| && m.spaces[p].live && m.spaces[p].id == m.regions[j].owner;
      assert n.spaces[p].live;
    }
  }

  lemma {:induction false} ReleasedReach(m: Mem, n: Mem, ram: set<nat>, i: nat, r: nat)
    requires Sound(m, ram) && i == RegionAt(m.regions, r) < |m.regions|
    requires n.regions == m.regions[i := NO_REGION] && n.spaces == Released(m, r).spaces && |n.devs| == |m.devs|
    requires forall d :: 0 <= d < |m.devs| ==> n.devs[d].id == m.devs[d].id && Withdrawn(m.devs[d], n.devs[d], m.regions[i].frames)
    ensures ReachOk(n.regions, n.spaces, n.devs)
  {
    hide DeviceOk, Conserved, DevicesOk, DevicesShaped, RegionAt, WindowsOk, RecordsOk, OwnersOk, Withdrawn, Unreached;
    forall d, a | 0 <= d < |n.devs| && 0 <= a < |n.devs[d].leaves| && n.devs[d].leaves[a].Present?
      ensures Attributed(n.regions, n.spaces, n.devs[d].id, n.devs[d].leaves[a].frame)
    {
      var f := n.devs[d].leaves[a].frame;
      WithdrawnShape(m.devs[d], n.devs[d], m.regions[i].frames);
      assert Attributed(m.regions, m.spaces, m.devs[d].id, f);
      var q, j :| 0 <= q < |m.spaces| && 0 <= j < |m.spaces[q].dma|
                  && m.spaces[q].dma[j].region != 0 && m.spaces[q].dma[j].domain == m.devs[d].id
                  && f in FramesOf(m.regions, m.spaces[q].dma[j].region);
      var id := m.spaces[q].dma[j].region;
      RegionGone(m.regions, i, id);
      assert n.spaces[q].dma[j] == m.spaces[q].dma[j];
    }
  }
}
