/** The machine's device domains: for each, the model and the leaf table edited side by side, and the
    translations its unit may have cached. */
module Bank {
  import opened Abi
  import opened Basics
  import opened Dma
  import opened Memory
  import L = Lifetime
  import I = Iommu

  ghost predicate StandsFor(u: Unit, d: Device, id: nat, has: bool, tlb: set<(nat, Leaf)>)
    reads u.Repr()
  {
    u.Valid() && d == u.Value(id, has, tlb)
  }

  class Domains {
    const units: seq<Unit>
    const ids: seq<nat>
    const tables: seq<bool>
    var tlbs: seq<set<(nat, Leaf)>>
    /** What the domains stand for. */
    ghost var devs: seq<Device>

    /** What the methods may change. */
    ghost const Repr: set<object>

    /** The units are separate. */
    ghost predicate Apart() {
      forall d, e :: 0 <= d < e < |units| ==> units[d].Repr() !! units[e].Repr()
    }

    ghost predicate Valid()
      reads this, Repr
    {
      && this in Repr && |units| == |ids| == |tables| == |tlbs| == |devs| && Apart()
      && (forall d :: 0 <= d < |units| ==> this !in units[d].Repr() && units[d].Repr() <= Repr)
      && (forall d :: 0 <= d < |units| ==> StandsFor(units[d], devs[d], ids[d], tables[d], tlbs[d]))
    }

    constructor (ids: seq<nat>, tables: seq<bool>)
      requires |ids| == |tables|
      ensures Valid() && fresh(Repr)
      ensures devs == seq(|ids|, d requires 0 <= d < |ids| => Blank(ids[d], tables[d]))
    {
      hide Unit.Valid, Unit.Value, Unit.Repr, Blank;
      var us: seq<Unit> := [];
      for d := 0 to |ids|
        invariant |us| == d && forall e :: 0 <= e < d ==> fresh(us[e].Repr()) && allocated(us[e].Repr())
        invariant forall e :: 0 <= e < d ==> StandsFor(us[e], Blank(ids[e], tables[e]), ids[e], tables[e], {})
        invariant forall e, f :: 0 <= e < f < d ==> us[e].Repr() !! us[f].Repr()
      {
        var u := new Unit();
        assert forall e :: 0 <= e < d ==> us[e].Repr() !! u.Repr();
        us := us + [u];
      }
      this.units, this.ids, this.tables := us, ids, tables;
      ghost var parts := set d, o: object | 0 <= d < |us| && o in us[d].Repr() :: o;
      Repr := {this} + parts;
      tlbs := seq(|ids|, _ => {});
      devs := seq(|ids|, d requires 0 <= d < |ids| => Blank(ids[d], tables[d]));
    }

    /** Changing one unit leaves the others alone. */
    lemma {:induction false} OneUnit(d: nat)
      requires Valid() && d < |units|
      ensures this in Repr && this !in units[d].Repr() && units[d].Repr() <= Repr
      ensures forall e :: 0 <= e < |units| && e != d ==> units[e].Repr() !! units[d].Repr()
    {
      hide StandsFor, Unit.Repr;
      forall e | 0 <= e < |units| && e != d ensures units[e].Repr() !! units[d].Repr() {
        assert e < d ==> units[e].Repr() !! units[d].Repr();
        assert d < e ==> units[d].Repr() !! units[e].Repr();
      }
    }

    lemma {:induction false} Facts()
      requires Valid()
      ensures this in Repr && |units| == |ids| == |tables| == |tlbs| == |devs|
      ensures forall d :: 0 <= d < |ids| ==>
                devs[d].id == ids[d] && devs[d].table == tables[d] && devs[d].tlb == tlbs[d] && |devs[d].leaves| == L1_SLOTS
    {
      hide Unit.Repr, Apart;
      forall d | 0 <= d < |ids|
        ensures devs[d].id == ids[d] && devs[d].table == tables[d] && devs[d].tlb == tlbs[d] && |devs[d].leaves| == L1_SLOTS
      {
        assert StandsFor(units[d], devs[d], ids[d], tables[d], tlbs[d]);
      }
    }

    /** Is any domain claimed at all? */
    method AnyClaimed() returns (b: bool)
      requires Valid()
      ensures b <==> !(forall d :: 0 <= d < |devs| ==> devs[d].id == 0)
    {
      hide Valid;
      Facts();
      for d := 0 to |ids|
        invariant forall e :: 0 <= e < d ==> devs[e].id == 0
      {
        if ids[d] != 0 {
          assert devs[d].id != 0;
          return true;
        }
      }
      return false;
    }

    /** The domain a capability names, or the number of domains. */
    method Find(named: nat) returns (d: nat)
      requires Valid()
      ensures d == DomainAt(devs, named)
    {
      hide Valid;
      Facts();
      d := |ids|;
      for k := 0 to |ids|
        invariant d == if DomainAt(devs[..k], named) < k then DomainAt(devs[..k], named) else |ids|
      {
        assert devs[..k + 1][..k] == devs[..k] && devs[..k + 1][k] == devs[k];
        if d == |ids| && named != 0 && ids[k] == named {
          d := k;
        }
      }
      assert devs[..|ids|] == devs;
    }

    method HasTable(d: nat) returns (b: bool)
      requires Valid() && d < |devs|
      ensures b == devs[d].table
    {
      hide Valid;
      Facts();
      b := tables[d];
    }

    method IdOf(d: nat) returns (id: nat)
      requires Valid() && d < |devs|
      ensures id == devs[d].id
    {
      hide Valid;
      Facts();
      id := ids[d];
    }

    /** The lowest run of `n` absent entries. */
    method Scan(d: nat, n: nat) returns (first: Option<nat>)
      requires Valid() && d < |devs| && n > 0
      ensures |devs[d].leaves| == L1_SLOTS && first == FindRun(devs[d].leaves, n, FIRST_SLOT, 0)
    {
      first := units[d].FindFree(n);
    }

    /** Map a region's pages, all or nothing. */
    method MapPagesOn(d: nat, fs: seq<nat>, rights: Rights, first: nat) returns (ok: bool)
      requires Valid() && d < |devs| && first + |fs| <= L1_SLOTS && forall f :: f in fs ==> f < FRAMES
      modifies Repr
      ensures Valid() && |old(devs)[d].leaves| == L1_SLOTS
      ensures var out := MapPages(old(devs)[d], fs, rights, first, 0); devs == old(devs)[d := out.d] && ok == out.ok
    {
      hide MapPages, FindRun, Unit.Valid, Unit.Value, ViewOf, Apart;
      Facts();
      OneUnit(d);
      ghost var was := devs[d];
      assert StandsFor(units[d], was, ids[d], tables[d], tlbs[d]);
      ok := units[d].MapRegion(fs, rights, first, ids[d], tables[d], tlbs[d]);
      assert forall e :: 0 <= e < |units| && e != d ==> StandsFor(units[e], devs[e], ids[e], tables[e], tlbs[e]);
      devs := devs[d := MapPages(was, fs, rights, first, 0).d];
      assert StandsFor(units[d], devs[d], ids[d], tables[d], tlbs[d]);
      assert forall e :: 0 <= e < |units| && e != d ==> StandsFor(units[e], devs[e], ids[e], tables[e], tlbs[e]);
    }

    /** Clear one frame from one domain: its entries, then the model; says whether an entry went. */
    method WithdrawOn(d: nat, f: nat) returns (any: bool)
      requires Valid() && d < |devs|
      modifies Repr
      ensures Valid() && devs == old(devs)[d := WithdrawFrame(old(devs)[d], f)]
      ensures any == TouchesAny(old(devs)[d].leaves, [f])
    {
      hide TouchesAny, ClearedTable, I.Revoking, Unit.Valid, Unit.Value, ViewOf, Apart;
      Facts();
      OneUnit(d);
      ghost var was := devs[d];
      assert StandsFor(units[d], was, ids[d], tables[d], tlbs[d]);
      units[d].Parts(ids[d], tables[d], tlbs[d]);
      any := units[d].WithdrawOne(f);
      units[d].Parts(ids[d], tables[d], tlbs[d]);
      devs := devs[d := WithdrawFrame(was, f)];
      forall e | 0 <= e < |units| ensures StandsFor(units[e], devs[e], ids[e], tables[e], tlbs[e]) {
        if e != d { assert old(StandsFor(units[e], devs[e], ids[e], tables[e], tlbs[e])); }
      }
    }

    /** Clear a region from one domain, page by page. */
    method WithdrawRegionOn(d: nat, fs: seq<nat>) returns (any: bool)
      requires Valid() && d < |devs|
      modifies Repr
      ensures Valid() && devs == old(devs)[d := Withdraw(old(devs)[d], fs, |fs|)]
      ensures any == TouchesAny(old(devs)[d].leaves, fs)
    {
      hide Valid, WithdrawFrame, TouchesAny;
      ghost var was := devs;
      any := false;
      TouchesNone(was[d], fs);
      assert was[d := was[d]] == was;
      for k := 0 to |fs|
        invariant Valid() && devs == was[d := Withdraw(was[d], fs, k)]
        invariant any == TouchesAny(was[d].leaves, fs[..k])
      {
        TouchesOneMore(was[d], fs, k);
        var hit := WithdrawOn(d, fs[k]);
        any := any || hit;
      }
      assert fs[..|fs|] == fs;
    }

    /** Clear these frames from every domain; says whether any entry went. */
    method WithdrawEverywhere(fs: seq<nat>) returns (touched: bool)
      requires Valid()
      modifies Repr
      ensures Valid() && devs == L.Withdrawals(old(devs), fs) && touched == L.AnyTouch(old(devs), fs)
    {
      hide Valid, WithdrawFrame, TouchesAny;
      Facts();
      ghost var was := devs;
      touched := false;
      NoneTouched(was, fs);
      for k := 0 to |fs|
        invariant Valid() && |devs| == |was| && forall e :: 0 <= e < |was| ==> devs[e] == Withdraw(was[e], fs, k)
        invariant touched == L.AnyTouch(was, fs[..k])
      {
        ghost var mid, before := devs, touched;
        for d := 0 to |ids|
          invariant Valid() && |devs| == |was|
          invariant forall e :: 0 <= e < d ==> devs[e] == WithdrawFrame(mid[e], fs[k])
          invariant forall e :: d <= e < |was| ==> devs[e] == mid[e]
          invariant touched == (before || exists e :: 0 <= e < d && TouchesAny(mid[e].leaves, [fs[k]]))
        {
          Facts();
          var hit := WithdrawOn(d, fs[k]);
          touched := touched || hit;
        }
        MoreTouched(was, mid, fs, k);
      }
      assert fs[..|fs|] == fs;
      assert devs == L.Withdrawals(was, fs);
    }

    /** Tell one unit to forget what it cached. */
    method Flush(d: nat)
      requires Valid() && d < |devs|
      modifies this
      ensures Valid() && devs == old(devs)[d := Invalidate(old(devs)[d])]
    {
      hide Unit.Valid, Unit.Value, Unit.Repr, ViewOf;
      OneUnit(d);
      ghost var was := devs[d];
      assert StandsFor(units[d], was, ids[d], tables[d], tlbs[d]);
      tlbs := tlbs[d := {}];
      devs := devs[d := Invalidate(was)];
      Uncached(units[d], was, ids[d], tables[d], old(tlbs)[d]);
    }

    /** Tell every claimed unit. */
    method FlushAll()
      requires Valid()
      modifies this
      ensures Valid() && devs == L.Invalidated(old(devs))
    {
      hide Valid;
      Facts();
      ghost var was := devs;
      for d := 0 to |ids|
        invariant Valid() && |devs| == |was|
        invariant forall e :: 0 <= e < d ==> devs[e] == L.Invalidated(was)[e]
        invariant forall e :: d <= e < |was| ==> devs[e] == was[e]
      {
        Facts();
        if ids[d] != 0 {
          Flush(d);
        }
      }
      assert devs == L.Invalidated(was);
    }
  }

  lemma {:induction false} Uncached(u: Unit, d: Device, id: nat, has: bool, tlb: set<(nat, Leaf)>)
    requires StandsFor(u, d, id, has, tlb)
    ensures StandsFor(u, Invalidate(d), id, has, {})
  {}

  lemma {:induction false} TouchesNone(d: Device, fs: seq<nat>)
    ensures !TouchesAny(d.leaves, fs[..0])
  {}

  /** One more page withdrawn: an entry goes in this round exactly if there was one for that page and
      for none before it. */
  lemma {:induction false} TouchesOneMore(d: Device, fs: seq<nat>, k: nat)
    requires k < |fs|
    ensures TouchesAny(d.leaves, fs[..k + 1]) <==>
              TouchesAny(d.leaves, fs[..k]) || TouchesAny(Withdraw(d, fs, k).leaves, [fs[k]])
  {
    hide Withdraw;
    WithdrawIs(d, fs, k);
    var e := Withdraw(d, fs, k);
    assert fs[..k + 1] == fs[..k] + [fs[k]];
    if TouchesAny(d.leaves, fs[..k + 1]) && !TouchesAny(d.leaves, fs[..k]) {
      var a :| 0 <= a < |d.leaves| && d.leaves[a].Present? && d.leaves[a].frame in fs[..k + 1];
      assert e.leaves[a] == d.leaves[a];
    }
    if TouchesAny(d.leaves, fs[..k]) {
      var a :| 0 <= a < |d.leaves| && d.leaves[a].Present? && d.leaves[a].frame in fs[..k];
      assert d.leaves[a].frame in fs[..k + 1];
    }
    if TouchesAny(e.leaves, [fs[k]]) {
      var a :| 0 <= a < |e.leaves| && e.leaves[a].Present? && e.leaves[a].frame in [fs[k]];
      assert d.leaves[a] == e.leaves[a] && d.leaves[a].frame in fs[..k + 1];
    }
  }

  lemma {:induction false} NoneTouched(was: seq<Device>, fs: seq<nat>)
    ensures !L.AnyTouch(was, fs[..0])
  {}

  lemma {:induction false} MoreTouched(was: seq<Device>, mid: seq<Device>, fs: seq<nat>, k: nat)
    requires k < |fs| && |mid| == |was| && forall e :: 0 <= e < |was| ==> mid[e] == Withdraw(was[e], fs, k)
    ensures L.AnyTouch(was, fs[..k + 1]) <==>
              L.AnyTouch(was, fs[..k]) || exists e :: 0 <= e < |was| && TouchesAny(mid[e].leaves, [fs[k]])
  {
    hide Withdraw, TouchesAny;
    forall e | 0 <= e < |was|
      ensures TouchesAny(was[e].leaves, fs[..k + 1]) <==> TouchesAny(was[e].leaves, fs[..k]) || TouchesAny(mid[e].leaves, [fs[k]])
    {
      TouchesOneMore(was[e], fs, k);
    }
  }
}
