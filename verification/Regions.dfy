/** Region lifetime plans: which mappings must go, in which order, before a region's frames may
    return to the pool. */
module Regions {
  import opened Seqs

  /** Ids are never reused and zero means "no region"; owners are process identities. */
  datatype Region = Region(live: bool, id: nat, owner: nat)

  /** One process's share slots: the region id in each, zero for an empty slot. */
  datatype Holder = Holder(live: bool, id: nat, slots: seq<nat>)

  datatype Step =
    | Unmap(proc: nat, slot: nat, region: nat)
    | ForgetCaps(region: nat)
    | Release(region: nat)

  // ------------------------------------------------------------------- what a plan should list

  predicate Exists(regions: seq<Region>, id: nat) {
    exists i :: 0 <= i < |regions| && regions[i].live && regions[i].id == id
  }

  predicate Owned(regions: seq<Region>, id: nat, owner: nat) {
    exists i :: 0 <= i < |regions| && regions[i].live && regions[i].id == id && regions[i].owner == owner
  }

  predicate Holds(holders: seq<Holder>, p: nat, s: nat, region: nat) {
    p < |holders| && holders[p].live && s < |holders[p].slots| && holders[p].slots[s] == region != 0
  }

  ghost predicate DistinctIds(regions: seq<Region>) {
    forall i, j :: 0 <= i < j < |regions| && regions[i].live && regions[j].live ==> regions[i].id != regions[j].id
  }

  function SlotSteps(h: Holder, p: nat, region: nat, n: nat): seq<Step>
    requires n <= |h.slots|
  {
    if n == 0 then []
    else SlotSteps(h, p, region, n - 1)
         + if h.live && h.slots[n - 1] == region != 0 then [Unmap(p, n - 1, region)] else []
  }

  function HolderSteps(holders: seq<Holder>, region: nat, n: nat): seq<Step>
    requires n <= |holders|
  {
    if n == 0 then []
    else HolderSteps(holders, region, n - 1)
         + SlotSteps(holders[n - 1], n - 1, region, |holders[n - 1].slots|)
  }

  function DestroySteps(regions: seq<Region>, holders: seq<Holder>, region: nat): seq<Step> {
    if region == 0 || !Exists(regions, region) then []
    else HolderSteps(holders, region, |holders|) + [ForgetCaps(region), Release(region)]
  }

  function OwnedSteps(regions: seq<Region>, holders: seq<Holder>, id: nat, n: nat): seq<Step>
    requires n <= |regions|
  {
    if n == 0 then []
    else OwnedSteps(regions, holders, id, n - 1)
         + if regions[n - 1].live && regions[n - 1].owner == id
           then DestroySteps(regions, holders, regions[n - 1].id) else []
  }

  predicate Unmaps(steps: seq<Step>, proc: nat, slot: nat) {
    exists i :: 0 <= i < |steps| && steps[i].Unmap? && steps[i].proc == proc && steps[i].slot == slot
  }

  function BorrowedSteps(regions: seq<Region>, h: Holder, proc: nat, id: nat, pre: seq<Step>, n: nat): seq<Step>
    requires n <= |h.slots|
  {
    if n == 0 then pre
    else
      var acc := BorrowedSteps(regions, h, proc, id, pre, n - 1);
      var r := h.slots[n - 1];
      if r != 0 && !Owned(regions, r, id) && !Unmaps(acc, proc, n - 1)
      then acc + [Unmap(proc, n - 1, r)] else acc
  }

  function TeardownSteps(regions: seq<Region>, holders: seq<Holder>, proc: nat, id: nat): seq<Step> {
    var pre := OwnedSteps(regions, holders, id, |regions|);
    if proc < |holders| && holders[proc].live && holders[proc].id == id
    then BorrowedSteps(regions, holders[proc], proc, id, pre, |holders[proc].slots|)
    else pre
  }

  // ------------------------------------------------------------------- the order of a plan

  /** No region is released while a later step would still unmap it. */
  ghost predicate WellOrdered(steps: seq<Step>) {
    forall i, j :: 0 <= i < j < |steps| && steps[i].Release? && steps[j].Unmap? ==>
      steps[i].region != steps[j].region
  }

  /** Unmaps of a region, then its capability sweep, then its release, then nothing about it. */
  ghost predicate Phased(steps: seq<Step>) {
    && (forall i, j :: 0 <= i < j < |steps| && steps[i].Release? ==> steps[j].region != steps[i].region)
    && (forall i, j :: 0 <= i < j < |steps| && steps[i].ForgetCaps? && steps[j].Unmap? ==>
          steps[j].region != steps[i].region)
  }

  lemma {:induction false} PhasedIsWellOrdered(steps: seq<Step>)
    requires Phased(steps)
    ensures WellOrdered(steps)
  {}

  lemma {:induction false} PhasedConcat(a: seq<Step>, b: seq<Step>)
    requires Phased(a) && Phased(b)
    requires forall x, y :: x in a && y in b && !x.Unmap? ==> x.region != y.region
    ensures Phased(a + b)
  {
    forall i, j | 0 <= i < j < |a + b| && !(a + b)[i].Unmap? && ((a + b)[i].Release? || (a + b)[j].Unmap?)
      ensures (a + b)[j].region != (a + b)[i].region
    {
      if i < |a| <= j {
        assert a[i] in a && b[j - |a|] in b;
      }
    }
  }

  // ------------------------------------------------------------------- destroying one region

  lemma {:induction false} SlotStepsExact(h: Holder, p: nat, region: nat, n: nat)
    requires n <= |h.slots|
    ensures forall x :: x in SlotSteps(h, p, region, n) <==>
              x.Unmap? && x.proc == p && x.region == region != 0 && h.live && x.slot < n && h.slots[x.slot] == region
    ensures NoDup(SlotSteps(h, p, region, n))
  {
    if n > 0 { SlotStepsExact(h, p, region, n - 1); }
  }

  lemma {:induction false} HolderStepsExact(holders: seq<Holder>, region: nat, n: nat)
    requires n <= |holders|
    ensures forall x :: x in HolderSteps(holders, region, n) <==>
              x.Unmap? && x.region == region && x.proc < n && Holds(holders, x.proc, x.slot, region)
    ensures NoDup(HolderSteps(holders, region, n))
  {
    if n > 0 {
      HolderStepsExact(holders, region, n - 1);
      SlotStepsExact(holders[n - 1], n - 1, region, |holders[n - 1].slots|);
      NoDupConcat(HolderSteps(holders, region, n - 1),
                  SlotSteps(holders[n - 1], n - 1, region, |holders[n - 1].slots|));
    }
  }

  /** The plan to destroy a live region unmaps exactly its holders, once each, then sweeps its
      capabilities, then releases it. A dead or zero id plans nothing. */
  lemma {:induction false} DestroyExact(regions: seq<Region>, holders: seq<Holder>, region: nat)
    ensures var steps := DestroySteps(regions, holders, region);
            && NoDup(steps) && Phased(steps)
            && (forall x :: x in steps <==>
                  && x.region == region != 0 && Exists(regions, region)
                  && (x.Unmap? ==> Holds(holders, x.proc, x.slot, region)))
            && (steps != [] ==> |steps| >= 2 && steps[|steps| - 2..] == [ForgetCaps(region), Release(region)])
  {
    if region != 0 && Exists(regions, region) {
      var a, b := HolderSteps(holders, region, |holders|), [ForgetCaps(region), Release(region)];
      HolderStepsExact(holders, region, |holders|);
      NoDupConcat(a, b);
      forall i | 0 <= i < |a| ensures a[i].Unmap? { assert a[i] in a; }
      PhasedConcat(a, b);
      assert forall x :: x in a + b <==> x in a || x in b;
    }
  }

  // ------------------------------------------------------------------- a dying process

  /** Among the first `n` table entries, `r` is a live region of this owner. */
  predicate OwnedAmong(regions: seq<Region>, n: nat, r: nat, owner: nat)
    requires n <= |regions|
  {
    exists i :: 0 <= i < n && regions[i].live && regions[i].id == r && regions[i].owner == owner
  }

  ghost predicate Dismantles(regions: seq<Region>, holders: seq<Holder>, id: nat, n: nat, x: Step)
    requires n <= |regions|
  {
    && x.region != 0
    && OwnedAmong(regions, n, x.region, id)
    && (x.Unmap? ==> Holds(holders, x.proc, x.slot, x.region))
  }

  lemma {:induction false} OwnedExact(regions: seq<Region>, holders: seq<Holder>, id: nat, n: nat)
    requires n <= |regions| && DistinctIds(regions)
    ensures NoDup(OwnedSteps(regions, holders, id, n)) && Phased(OwnedSteps(regions, holders, id, n))
    ensures forall x :: x in OwnedSteps(regions, holders, id, n) <==> Dismantles(regions, holders, id, n, x)
  {
    if n > 0 {
      OwnedExact(regions, holders, id, n - 1);
      var r := regions[n - 1];
      var a := OwnedSteps(regions, holders, id, n - 1);
      OwnedNext(regions, id, n);
      if r.live && r.owner == id {
        var b := DestroySteps(regions, holders, r.id);
        assert Exists(regions, r.id);
        DestroyExact(regions, holders, r.id);
        forall x | x in a ensures x.region != r.id { assert Dismantles(regions, holders, id, n - 1, x); }
        NoDupConcat(a, b);
        PhasedConcat(a, b);
        assert forall x :: x in a + b <==> x in a || x in b;
      }
      forall x ensures Dismantles(regions, holders, id, n, x) <==>
                       Dismantles(regions, holders, id, n - 1, x)
                       || (r.live && r.owner == id && x in DestroySteps(regions, holders, r.id)) {
        DestroyExact(regions, holders, r.id);
      }
    }
  }

  lemma {:induction false} OwnedNext(regions: seq<Region>, id: nat, n: nat)
    requires 0 < n <= |regions| && DistinctIds(regions)
    ensures forall r :: OwnedAmong(regions, n, r, id) <==>
              OwnedAmong(regions, n - 1, r, id)
              || (regions[n - 1].live && regions[n - 1].owner == id && regions[n - 1].id == r)
    ensures regions[n - 1].live ==> !OwnedAmong(regions, n - 1, regions[n - 1].id, id)
  {
    var last := regions[n - 1];
    assert last.live && last.owner == id ==> OwnedAmong(regions, n, last.id, id);
  }

  /** What `x` is doing in a teardown plan: dismantling an owned region, or dropping one of the
      dying process's own mappings of somebody else's. */
  ghost predicate Wanted(regions: seq<Region>, holders: seq<Holder>, proc: nat, id: nat, x: Step) {
    && x.region != 0
    && (x.Unmap? ==> Holds(holders, x.proc, x.slot, x.region))
    && if Owned(regions, x.region, id) then true
       else x.Unmap? && x.proc == proc && holders[proc].id == id
  }

  /** Wanted, and if borrowed then in one of the first `n` slots. */
  ghost predicate WantedAmong(regions: seq<Region>, holders: seq<Holder>, proc: nat, id: nat, n: nat, x: Step) {
    Wanted(regions, holders, proc, id, x) && (Owned(regions, x.region, id) || (x.Unmap? && x.slot < n))
  }

  lemma {:induction false} WantedNext(regions: seq<Region>, holders: seq<Holder>, proc: nat, id: nat, n: nat)
    requires proc < |holders| && holders[proc].live && holders[proc].id == id && 0 < n <= |holders[proc].slots|
    ensures var r := holders[proc].slots[n - 1];
            forall x :: WantedAmong(regions, holders, proc, id, n, x) <==>
              WantedAmong(regions, holders, proc, id, n - 1, x)
              || (r != 0 && !Owned(regions, r, id) && x == Unmap(proc, n - 1, r))
    ensures var r := holders[proc].slots[n - 1];
            !Owned(regions, r, id) ==>
            forall x :: WantedAmong(regions, holders, proc, id, n - 1, x) ==>
              !(x.Unmap? && x.proc == proc && x.slot == n - 1) && (!x.Unmap? ==> x.region != r)
  {}

  lemma {:induction false} BorrowedExact(regions: seq<Region>, holders: seq<Holder>, proc: nat, id: nat, n: nat)
    requires DistinctIds(regions)
    requires proc < |holders| && holders[proc].live && holders[proc].id == id && n <= |holders[proc].slots|
    ensures var pre := OwnedSteps(regions, holders, id, |regions|);
            var steps := BorrowedSteps(regions, holders[proc], proc, id, pre, n);
            && NoDup(steps) && Phased(steps)
            && (forall x :: x in steps <==> WantedAmong(regions, holders, proc, id, n, x))
  {
    var pre := OwnedSteps(regions, holders, id, |regions|);
    if n == 0 {
      OwnedExact(regions, holders, id, |regions|);
      assert forall r :: OwnedAmong(regions, |regions|, r, id) <==> Owned(regions, r, id);
    } else {
      BorrowedExact(regions, holders, proc, id, n - 1);
      WantedNext(regions, holders, proc, id, n);
      var acc := BorrowedSteps(regions, holders[proc], proc, id, pre, n - 1);
      var r := holders[proc].slots[n - 1];
      if r != 0 && !Owned(regions, r, id) {
        forall i | 0 <= i < |acc| ensures !(acc[i].Unmap? && acc[i].proc == proc && acc[i].slot == n - 1) {
          assert acc[i] in acc;
        }
        NoDupConcat(acc, [Unmap(proc, n - 1, r)]);
        PhasedConcat(acc, [Unmap(proc, n - 1, r)]);
      }
    }
  }

  /** The teardown plan of an identity is exactly what is wanted, each step once, in phases. */
  lemma {:induction false} TeardownExact(regions: seq<Region>, holders: seq<Holder>, proc: nat, id: nat)
    requires DistinctIds(regions)
    ensures var steps := TeardownSteps(regions, holders, proc, id);
            && NoDup(steps) && Phased(steps) && WellOrdered(steps)
            && (forall x :: x in steps <==> Wanted(regions, holders, proc, id, x))
  {
    var steps := TeardownSteps(regions, holders, proc, id);
    if proc < |holders| && holders[proc].live && holders[proc].id == id {
      BorrowedExact(regions, holders, proc, id, |holders[proc].slots|);
    } else {
      OwnedExact(regions, holders, id, |regions|);
      assert forall r :: OwnedAmong(regions, |regions|, r, id) <==> Owned(regions, r, id);
    }
    PhasedIsWellOrdered(steps);
  }

  /** An identity that occupies neither the slot nor any region plans nothing. */
  lemma {:induction false} StaleIdentityPlansNothing(regions: seq<Region>, holders: seq<Holder>, proc: nat, id: nat)
    requires DistinctIds(regions)
    requires forall i :: 0 <= i < |regions| && regions[i].live ==> regions[i].owner != id
    requires proc < |holders| && holders[proc].live ==> holders[proc].id != id
    ensures TeardownSteps(regions, holders, proc, id) == []
  {
    TeardownExact(regions, holders, proc, id);
    var steps := TeardownSteps(regions, holders, proc, id);
    Pigeonhole(steps, []);
  }

  // ------------------------------------------------------------------- how long a plan can be

  /** Every step any plan over these tables could hold. */
  function SlotCells(h: Holder, p: nat, n: nat): seq<Step>
    requires n <= |h.slots|
  {
    if n == 0 then [] else SlotCells(h, p, n - 1) + [Unmap(p, n - 1, h.slots[n - 1])]
  }

  function Cells(holders: seq<Holder>, n: nat): seq<Step>
    requires n <= |holders|
  {
    if n == 0 then [] else Cells(holders, n - 1) + SlotCells(holders[n - 1], n - 1, |holders[n - 1].slots|)
  }

  function Sweeps(regions: seq<Region>, n: nat): seq<Step>
    requires n <= |regions|
  {
    if n == 0 then []
    else Sweeps(regions, n - 1) + [ForgetCaps(regions[n - 1].id), Release(regions[n - 1].id)]
  }

  lemma {:induction false} SlotCellsAll(h: Holder, p: nat, n: nat)
    requires n <= |h.slots|
    ensures |SlotCells(h, p, n)| == n
    ensures forall s :: 0 <= s < n ==> Unmap(p, s, h.slots[s]) in SlotCells(h, p, n)
  {
    if n > 0 { SlotCellsAll(h, p, n - 1); }
  }

  lemma {:induction false} CellsAll(holders: seq<Holder>, n: nat, width: nat)
    requires n <= |holders|
    requires forall p :: 0 <= p < |holders| ==> |holders[p].slots| == width
    ensures |Cells(holders, n)| == n * width
    ensures forall p, s, r :: 0 <= p < n && Holds(holders, p, s, r) ==> Unmap(p, s, r) in Cells(holders, n)
  {
    if n > 0 {
      CellsAll(holders, n - 1, width);
      SlotCellsAll(holders[n - 1], n - 1, width);
    }
  }

  lemma {:induction false} SweepsAll(regions: seq<Region>, n: nat)
    requires n <= |regions|
    ensures |Sweeps(regions, n)| == 2 * n
    ensures forall i :: 0 <= i < n ==>
              ForgetCaps(regions[i].id) in Sweeps(regions, n) && Release(regions[i].id) in Sweeps(regions, n)
  {
    if n > 0 { SweepsAll(regions, n - 1); }
  }

  lemma {:induction false} PlanFits(regions: seq<Region>, holders: seq<Holder>, width: nat, steps: seq<Step>)
    requires forall p :: 0 <= p < |holders| ==> |holders[p].slots| == width
    requires NoDup(steps)
    requires forall x :: x in steps ==>
               if x.Unmap? then Holds(holders, x.proc, x.slot, x.region) else Exists(regions, x.region)
    ensures |steps| <= |holders| * width + 2 * |regions|
  {
    var u := Cells(holders, |holders|) + Sweeps(regions, |regions|);
    CellsAll(holders, |holders|, width);
    SweepsAll(regions, |regions|);
    Pigeonhole(steps, u);
  }

  /** With `P` holders of `S` slots and `R` regions, `P*S + 2*R` steps always suffice. */
  lemma {:induction false} DestroyFits(regions: seq<Region>, holders: seq<Holder>, width: nat, region: nat)
    requires forall p :: 0 <= p < |holders| ==> |holders[p].slots| == width
    ensures |DestroySteps(regions, holders, region)| <= |holders| * width + 2 * |regions|
  {
    DestroyExact(regions, holders, region);
    PlanFits(regions, holders, width, DestroySteps(regions, holders, region));
  }

  lemma {:induction false} TeardownFits(regions: seq<Region>, holders: seq<Holder>, width: nat, proc: nat, id: nat)
    requires DistinctIds(regions)
    requires forall p :: 0 <= p < |holders| ==> |holders[p].slots| == width
    ensures |TeardownSteps(regions, holders, proc, id)| <= |holders| * width + 2 * |regions|
  {
    TeardownExact(regions, holders, proc, id);
    PlanFits(regions, holders, width, TeardownSteps(regions, holders, proc, id));
  }

  // ------------------------------------------------------------------- the bounded plan

  /** The first `n` steps of a plan that should list `all`. */
  function Clip(all: seq<Step>, n: nat): seq<Step> {
    if |all| <= n then all else all[..n]
  }

  method OwnedCheck(regions: seq<Region>, id: nat, owner: nat) returns (b: bool)
    ensures b <==> Owned(regions, id, owner)
  {
    for i := 0 to |regions|
      invariant forall c :: 0 <= c < i ==> !(regions[c].live && regions[c].id == id && regions[c].owner == owner)
    {
      if regions[i].live && regions[i].id == id && regions[i].owner == owner { return true; }
    }
    return false;
  }

  method ExistsCheck(regions: seq<Region>, id: nat) returns (b: bool)
    ensures b <==> Exists(regions, id)
  {
    for i := 0 to |regions|
      invariant forall c :: 0 <= c < i ==> !(regions[c].live && regions[c].id == id)
    {
      if regions[i].live && regions[i].id == id { return true; }
    }
    return false;
  }

  class Plan {
    const steps: array<Step>
    var len: nat
    var truncated: bool

    /** The plan was meant to hold `all`: it holds as much of it as fits, and says so if some of
        it did not. */
    ghost predicate Represents(all: seq<Step>)
      reads this, steps
    {
      && len <= steps.Length
      && steps[..len] == Clip(all, steps.Length)
      && truncated == (|all| > steps.Length)
    }

    constructor (n: nat)
      ensures fresh(steps) && steps.Length == n && Represents([])
    {
      steps := new Step[n](_ => Release(0));
      len, truncated := 0, false;
    }

    method Push(s: Step, ghost all: seq<Step>)
      requires Represents(all)
      modifies this, steps
      ensures Represents(all + [s])
    {
      if len < steps.Length {
        steps[len] := s;
        len := len + 1;
        assert steps[..len] == all + [s];
      } else {
        truncated := true;
      }
    }

    /** The safety property as the program checks it. */
    method WellOrderedCheck() returns (b: bool)
      requires len <= steps.Length
      ensures b <==> WellOrdered(steps[..len])
    {
      for i := 0 to len
        invariant forall a, c :: 0 <= a < i && a < c < len && steps[a].Release? && steps[c].Unmap? ==>
                    steps[a].region != steps[c].region
      {
        if steps[i].Release? {
          for j := i + 1 to len
            invariant forall c :: i < c < j && steps[c].Unmap? ==> steps[i].region != steps[c].region
          {
            if steps[j].Unmap? && steps[j].region == steps[i].region {
              assert steps[..len][i] == steps[i] && steps[..len][j] == steps[j];
              return false;
            }
          }
        }
      }
      return true;
    }

    /** Does the plan already unmap this slot? */
    method HasUnmap(proc: nat, slot: nat) returns (b: bool)
      requires len <= steps.Length
      ensures b <==> Unmaps(steps[..len], proc, slot)
    {
      for i := 0 to len
        invariant forall c :: 0 <= c < i ==> !(steps[c].Unmap? && steps[c].proc == proc && steps[c].slot == slot)
      {
        if steps[i].Unmap? && steps[i].proc == proc && steps[i].slot == slot {
          assert steps[..len][i] == steps[i];
          return true;
        }
      }
      return false;
    }

    /** One holder's mappings of `region`. */
    method PushHolder(h: Holder, p: nat, region: nat, ghost before: seq<Step>)
      requires Represents(before) && region != 0
      modifies this, steps
      ensures Represents(before + SlotSteps(h, p, region, |h.slots|))
    {
      assert before + [] == before;
      for s := 0 to |h.slots|
        invariant Represents(before + SlotSteps(h, p, region, s))
      {
        ghost var acc := before + SlotSteps(h, p, region, s);
        if h.live && h.slots[s] == region {
          Push(Unmap(p, s, region), acc);
          assert acc + [Unmap(p, s, region)] == before + SlotSteps(h, p, region, s + 1);
        } else {
          assert acc == before + SlotSteps(h, p, region, s + 1);
        }
      }
    }

    /** The dying process's own mappings of regions it does not own. */
    method PushBorrowed(regions: seq<Region>, h: Holder, proc: nat, id: nat, ghost pre: seq<Step>)
      requires Represents(pre)
      modifies this, steps
      ensures Represents(BorrowedSteps(regions, h, proc, id, pre, |h.slots|))
    {
      for s := 0 to |h.slots|
        invariant Represents(BorrowedSteps(regions, h, proc, id, pre, s))
      {
        var r := h.slots[s];
        if r != 0 {
          var owned := OwnedCheck(regions, r, id);
          var already := HasUnmap(proc, s);
          ghost var acc := BorrowedSteps(regions, h, proc, id, pre, s);
          if !owned && !already {
            Push(Unmap(proc, s, r), acc);
          }
        }
      }
    }

    /** Append a sub-plan, inheriting its truncation. */
    method Append(sub: Plan, ghost all: seq<Step>, ghost more: seq<Step>)
      requires Represents(all) && sub.Represents(more)
      requires sub != this && sub.steps != steps && sub.steps.Length == steps.Length
      modifies this, steps
      ensures Represents(all + more)
    {
      ghost var part := sub.steps[..sub.len];
      for k := 0 to sub.len
        invariant Represents(all + part[..k])
        invariant sub.len <= sub.steps.Length && sub.steps[..sub.len] == part
        invariant sub.truncated == old(sub.truncated)
      {
        Push(sub.steps[k], all + part[..k]);
        assert all + part[..k] + [part[k]] == all + part[..k + 1];
      }
      assert part[..sub.len] == part;
      if sub.truncated {
        truncated := true;
        assert Clip(all + part, steps.Length) == Clip(all + more, steps.Length);
      }
    }
  }

  /** The plan to destroy one region, in a plan of capacity `n`. */
  method Destroy(regions: seq<Region>, holders: seq<Holder>, region: nat, n: nat) returns (plan: Plan)
    ensures fresh(plan) && fresh(plan.steps) && plan.steps.Length == n
    ensures plan.Represents(DestroySteps(regions, holders, region))
  {
    plan := new Plan(n);
    var known := ExistsCheck(regions, region);
    if region == 0 || !known {
      return;
    }
    for p := 0 to |holders|
      invariant fresh(plan) && fresh(plan.steps) && plan.steps.Length == n
      invariant plan.Represents(HolderSteps(holders, region, p))
    {
      plan.PushHolder(holders[p], p, region, HolderSteps(holders, region, p));
    }
    ghost var all := HolderSteps(holders, region, |holders|);
    plan.Push(ForgetCaps(region), all);
    plan.Push(Release(region), all + [ForgetCaps(region)]);
    assert all + [ForgetCaps(region)] + [Release(region)] == all + [ForgetCaps(region), Release(region)];
  }

  /** The plan for a dying process, in a plan of capacity `n`. */
  method Teardown(regions: seq<Region>, holders: seq<Holder>, proc: nat, id: nat, n: nat) returns (plan: Plan)
    ensures fresh(plan) && fresh(plan.steps) && plan.steps.Length == n
    ensures plan.Represents(TeardownSteps(regions, holders, proc, id))
  {
    plan := new Plan(n);
    for i := 0 to |regions|
      invariant fresh(plan) && fresh(plan.steps) && plan.steps.Length == n
      invariant plan.Represents(OwnedSteps(regions, holders, id, i))
    {
      ghost var all := OwnedSteps(regions, holders, id, i);
      if regions[i].live && regions[i].owner == id {
        var sub := Destroy(regions, holders, regions[i].id, n);
        plan.Append(sub, all, DestroySteps(regions, holders, regions[i].id));
      } else {
        assert all + [] == all;
      }
    }
    if proc < |holders| && holders[proc].live && holders[proc].id == id {
      plan.PushBorrowed(regions, holders[proc], proc, id, OwnedSteps(regions, holders, id, |regions|));
    }
  }
}
