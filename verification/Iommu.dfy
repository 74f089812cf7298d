/** One device's DMA domain: which frames it is authorized to reach, and which it can. */
module Iommu {
  import opened Abi
  import opened Table

  datatype Target = Target(frame: nat, rights: Rights)

  datatype MapErr = NotGranted | RightsExceedGrant | IovaInUse | Full

  datatype MapResult = Mapped | Refused(why: MapErr)

  // ------------------------------------------------------------------- the domain as two maps

  /** What a domain stands for: rights per granted frame, and a target per translated address. */
  datatype Dom = Dom(grants: map<nat, Rights>, maps: map<nat, Target>)

  const EMPTY_DOM := Dom(map[], map[])

  /** Every address the device can reach is covered by a live grant with rights no wider. */
  ghost predicate Contained(d: Dom) {
    forall a :: a in d.maps ==>
      d.maps[a].frame in d.grants && Contains(d.grants[d.maps[a].frame], d.maps[a].rights)
  }

  /** The mappings `rights` on `frame` still cover. */
  function Covered(maps: map<nat, Target>, frame: nat, rights: Rights): map<nat, Target> {
    map a | a in maps && (maps[a].frame == frame ==> Contains(rights, maps[a].rights)) :: maps[a]
  }

  /** The mappings of other frames. */
  function Without(maps: map<nat, Target>, frame: nat): map<nat, Target> {
    map a | a in maps && maps[a].frame != frame :: maps[a]
  }

  predicate CanGrant(d: Dom, room: nat, frame: nat) {
    frame in d.grants || |d.grants| < room
  }

  function Granting(d: Dom, room: nat, frame: nat, rights: Rights): Dom {
    if frame in d.grants then Dom(d.grants[frame := rights], Covered(d.maps, frame, rights))
    else if |d.grants| < room then Dom(d.grants[frame := rights], d.maps)
    else d
  }

  function Revoking(d: Dom, frame: nat): Dom {
    Dom(d.grants - {frame}, Without(d.maps, frame))
  }

  function Verdict(d: Dom, room: nat, iova: nat, frame: nat, rights: Rights): MapResult {
    if frame !in d.grants then Refused(NotGranted)
    else if !Contains(d.grants[frame], rights) then Refused(RightsExceedGrant)
    else if iova in d.maps then Refused(IovaInUse)
    else if |d.maps| < room then Mapped
    else Refused(Full)
  }

  function Mapping(d: Dom, room: nat, iova: nat, frame: nat, rights: Rights): Dom {
    if Verdict(d, room, iova, frame, rights).Mapped?
    then d.(maps := d.maps[iova := Target(frame, rights)]) else d
  }

  function Unmapping(d: Dom, iova: nat): Dom {
    d.(maps := d.maps - {iova})
  }

  // ------------------------------------------------------------------- containment over runs

  datatype Op =
    | Grant(frame: nat, rights: Rights)
    | Revoke(frame: nat)
    | Map(iova: nat, frame: nat, rights: Rights)
    | Unmap(iova: nat)

  function Apply(d: Dom, g: nat, m: nat, op: Op): Dom {
    match op
    case Grant(frame, rights) => Granting(d, g, frame, rights)
    case Revoke(frame) => Revoking(d, frame)
    case Map(iova, frame, rights) => Mapping(d, m, iova, frame, rights)
    case Unmap(iova) => Unmapping(d, iova)
  }

  function Run(g: nat, m: nat, ops: seq<Op>): Dom {
    if ops == [] then EMPTY_DOM else Apply(Run(g, m, ops[..|ops| - 1]), g, m, ops[|ops| - 1])
  }

  ghost predicate Sound(d: Dom, g: nat, m: nat) {
    Contained(d) && |d.grants| <= g && |d.maps| <= m
  }

  lemma {:induction false} GrantingSound(d: Dom, g: nat, m: nat, frame: nat, rights: Rights)
    requires Sound(d, g, m)
    ensures Sound(Granting(d, g, frame, rights), g, m)
  {
    var d' := Granting(d, g, frame, rights);
    if frame in d.grants {
      assert d'.grants.Keys == d.grants.Keys;
      assert |d'.grants| == |d'.grants.Keys| && |d.grants| == |d.grants.Keys|;
      KeysShrink(d'.maps, d.maps);
    } else if |d.grants| < g {
      KeysGrow(d.grants, frame, rights);
    }
  }

  lemma {:induction false} RevokingSound(d: Dom, g: nat, m: nat, frame: nat)
    requires Sound(d, g, m)
    ensures Sound(Revoking(d, frame), g, m)
  {
    KeysShrink(Revoking(d, frame).maps, d.maps);
    KeysShrink(Revoking(d, frame).grants, d.grants);
  }

  lemma {:induction false} MappingSound(d: Dom, g: nat, m: nat, iova: nat, frame: nat, rights: Rights)
    requires Sound(d, g, m)
    ensures Sound(Mapping(d, m, iova, frame, rights), g, m)
  {
    if Verdict(d, m, iova, frame, rights).Mapped? {
      KeysGrow(d.maps, iova, Target(frame, rights));
    }
  }

  lemma {:induction false} UnmappingSound(d: Dom, g: nat, m: nat, iova: nat)
    requires Sound(d, g, m)
    ensures Sound(Unmapping(d, iova), g, m)
  {
    KeysShrink(Unmapping(d, iova).maps, d.maps);
  }

  lemma {:induction false} ApplySound(d: Dom, g: nat, m: nat, op: Op)
    requires Sound(d, g, m)
    ensures Sound(Apply(d, g, m, op), g, m)
  {
    match op
    case Grant(frame, rights) => GrantingSound(d, g, m, frame, rights);
    case Revoke(frame) => RevokingSound(d, g, m, frame);
    case Map(iova, frame, rights) => MappingSound(d, g, m, iova, frame, rights);
    case Unmap(iova) => UnmappingSound(d, g, m, iova);
  }

  /** Over every run, what a device reaches is authorized, and neither table overflows. */
  lemma {:induction false} RunContained(g: nat, m: nat, ops: seq<Op>)
    ensures Contained(Run(g, m, ops)) && |Run(g, m, ops).grants| <= g && |Run(g, m, ops).maps| <= m
  {
    if ops != [] {
      RunContained(g, m, ops[..|ops| - 1]);
      ApplySound(Run(g, m, ops[..|ops| - 1]), g, m, ops[|ops| - 1]);
    }
  }

  // ------------------------------------------------------------------- the tables themselves

  class Domain {
    const grants: array<Slot<Rights>>
    const maps: array<Slot<Target>>

    /** At most one live grant per frame, and one live mapping per address. */
    ghost predicate Valid()
      reads grants, maps
    {
      grants as object != maps && Unique(grants[..]) && Unique(maps[..])
    }

    ghost function Value(): Dom
      reads grants, maps
    {
      Dom(View(grants[..]), View(maps[..]))
    }

    constructor (g: nat, m: nat)
      ensures fresh(grants) && fresh(maps) && grants.Length == g && maps.Length == m
      ensures Valid() && Value() == EMPTY_DOM
    {
      grants := new Slot<Rights>[g](_ => Empty);
      maps := new Slot<Target>[m](_ => Empty);
      new;
      assert grants as object != maps;
      ViewIs(grants[..]);
      ViewIs(maps[..]);
    }

    /** Index of the grant of `frame`, or the table length. */
    method FindGrant(frame: nat) returns (i: nat)
      requires Valid()
      ensures i <= grants.Length
      ensures i < grants.Length ==> grants[i].Used? && grants[i].key == frame
      ensures i < grants.Length <==> frame in View(grants[..])
      ensures i < grants.Length ==> View(grants[..])[frame] == grants[i].value
    {
      i := 0;
      while i < grants.Length && !(grants[i].Used? && grants[i].key == frame)
        invariant i <= grants.Length
        invariant forall j :: 0 <= j < i ==> !(grants[j].Used? && grants[j].key == frame)
      {
        i := i + 1;
      }
      ViewIs(grants[..]);
    }

    /** Index of the first empty grant slot, or the table length. */
    method FreeGrant() returns (i: nat)
      requires Valid()
      ensures i <= grants.Length
      ensures i < grants.Length ==> grants[i].Empty?
      ensures i < grants.Length <==> |View(grants[..])| < grants.Length
    {
      i := 0;
      while i < grants.Length && grants[i].Used?
        invariant i <= grants.Length
        invariant forall j :: 0 <= j < i ==> grants[j].Used?
      {
        i := i + 1;
      }
      ViewSize(grants[..]);
      assert i < grants.Length ==> !grants[..][i].Used?;
    }

    method FindMap(iova: nat) returns (i: nat)
      requires Valid()
      ensures i <= maps.Length
      ensures i < maps.Length ==> maps[i].Used? && maps[i].key == iova
      ensures i < maps.Length <==> iova in View(maps[..])
    {
      i := 0;
      while i < maps.Length && !(maps[i].Used? && maps[i].key == iova)
        invariant i <= maps.Length
        invariant forall j :: 0 <= j < i ==> !(maps[j].Used? && maps[j].key == iova)
      {
        i := i + 1;
      }
      ViewIs(maps[..]);
    }

    method FreeMap() returns (i: nat)
      requires Valid()
      ensures i <= maps.Length
      ensures i < maps.Length ==> maps[i].Empty?
      ensures i < maps.Length <==> |View(maps[..])| < maps.Length
    {
      i := 0;
      while i < maps.Length && maps[i].Used?
        invariant i <= maps.Length
        invariant forall j :: 0 <= j < i ==> maps[j].Used?
      {
        i := i + 1;
      }
      ViewSize(maps[..]);
      assert i < maps.Length ==> !maps[..][i].Used?;
    }

    /** Authorize `frame`; narrowing an existing grant withdraws the mappings it no longer covers. */
    method GrantFrame(frame: nat, rights: Rights) returns (ok: bool)
      requires Valid()
      modifies grants, maps
      ensures Valid()
      ensures ok <==> CanGrant(old(Value()), grants.Length, frame)
      ensures Value() == Granting(old(Value()), grants.Length, frame, rights)
    {
      ghost var gs := grants[..];
      var i := FindGrant(frame);
      if i < grants.Length {
        ViewReplace(gs, i, rights);
        grants[i] := Used(frame, rights);
        assert grants[..] == gs[i := Used(gs[i].key, rights)];
        WithdrawUncovered(frame, rights);
        return true;
      }
      i := FreeGrant();
      if i < grants.Length {
        ViewInsert(gs, i, frame, rights);
        grants[i] := Used(frame, rights);
        assert grants[..] == gs[i := Used(frame, rights)];
        return true;
      }
      return false;
    }

    method WithdrawUncovered(frame: nat, rights: Rights)
      requires Valid()
      modifies maps
      ensures Valid()
      ensures View(maps[..]) == Covered(old(View(maps[..])), frame, rights)
    {
      ghost var ms := maps[..];
      ghost var keep := (a: nat, t: Target) => t.frame == frame ==> Contains(rights, t.rights);
      for i := 0 to maps.Length
        invariant forall j :: 0 <= j < i ==>
                    maps[j] == if ms[j].Used? && !keep(ms[j].key, ms[j].value) then Empty else ms[j]
        invariant forall j :: i <= j < maps.Length ==> maps[j] == ms[j]
      {
        if maps[i].Used? && maps[i].value.frame == frame && !Contains(rights, maps[i].value.rights) {
          maps[i] := Empty;
        }
      }
      ViewFilter(ms, maps[..], keep);
    }

    /** Drop every mapping of `frame`, counting them. */
    method WithdrawFrame(frame: nat) returns (n: nat)
      requires Valid()
      modifies maps
      ensures Valid()
      ensures n + |View(maps[..])| == |old(View(maps[..]))|
      ensures View(maps[..]) == Without(old(View(maps[..])), frame)
    {
      ghost var ms := maps[..];
      ghost var keep := (a: nat, t: Target) => t.frame != frame;
      n := 0;
      for i := 0 to maps.Length
        invariant forall j :: 0 <= j < i ==>
                    maps[j] == if ms[j].Used? && !keep(ms[j].key, ms[j].value) then Empty else ms[j]
        invariant forall j :: i <= j < maps.Length ==> maps[j] == ms[j]
        invariant Unique(maps[..]) && n + |View(maps[..])| == |View(ms)|
      {
        if maps[i].Used? && maps[i].value.frame == frame {
          ghost var was := maps[..];
          ViewErase(was, i);
          maps[i] := Empty;
          assert maps[..] == was[i := Empty];
          n := n + 1;
        }
      }
      ViewFilter(ms, maps[..], keep);
    }

    method DropGrant(frame: nat)
      requires Valid()
      modifies grants
      ensures Valid()
      ensures View(grants[..]) == old(View(grants[..])) - {frame}
    {
      ghost var gs := grants[..];
      ghost var keep := (f: nat, r: Rights) => f != frame;
      for i := 0 to grants.Length
        invariant forall j :: 0 <= j < i ==>
                    grants[j] == if gs[j].Used? && !keep(gs[j].key, gs[j].value) then Empty else gs[j]
        invariant forall j :: i <= j < grants.Length ==> grants[j] == gs[j]
      {
        if grants[i].Used? && grants[i].key == frame {
          grants[i] := Empty;
        }
      }
      ViewFilter(gs, grants[..], keep);
      assert View(grants[..]) == View(gs) - {frame};
    }

    /** Withdraw the authorization for `frame`: its mappings first, then the grant. Returns how
        many mappings went. */
    method RevokeFrame(frame: nat) returns (n: nat)
      requires Valid()
      modifies grants, maps
      ensures Valid()
      ensures n + |Value().maps| == |old(Value()).maps|
      ensures Value() == Revoking(old(Value()), frame)
    {
      n := WithdrawFrame(frame);
      DropGrant(frame);
    }

    /** Install a translation if a grant covers it; a refusal names its reason and changes nothing. */
    method MapFrame(iova: nat, frame: nat, rights: Rights) returns (r: MapResult)
      requires Valid()
      modifies maps
      ensures Valid()
      ensures r == Verdict(old(Value()), maps.Length, iova, frame, rights)
      ensures Value() == Mapping(old(Value()), maps.Length, iova, frame, rights)
    {
      var g := FindGrant(frame);
      if g == grants.Length {
        return Refused(NotGranted);
      }
      if !Contains(grants[g].value, rights) {
        return Refused(RightsExceedGrant);
      }
      var used := FindMap(iova);
      if used < maps.Length {
        return Refused(IovaInUse);
      }
      var i := FreeMap();
      if i == maps.Length {
        return Refused(Full);
      }
      ghost var ms, gs := maps[..], grants[..];
      ViewInsert(ms, i, iova, Target(frame, rights));
      maps[i] := Used(iova, Target(frame, rights));
      assert maps[..] == ms[i := Used(iova, Target(frame, rights))];
      assert grants[..] == gs;
      return Mapped;
    }

    /** Remove a translation; removing what is not there changes nothing. */
    method UnmapIova(iova: nat) returns (hit: bool)
      requires Valid()
      modifies maps
      ensures Valid()
      ensures hit <==> iova in old(Value()).maps
      ensures Value() == Unmapping(old(Value()), iova)
    {
      ghost var ms, gs := maps[..], grants[..];
      var i := FindMap(iova);
      if i == maps.Length {
        return false;
      }
      maps[i] := Empty;
      ghost var keep := (a: nat, t: Target) => a != iova;
      ViewFilter(ms, maps[..], keep);
      assert View(maps[..]) == View(ms) - {iova};
      assert grants[..] == gs;
      return true;
    }

    /** The containment check decides containment. */
    method ContainedCheck() returns (b: bool)
      requires Valid()
      ensures b <==> Contained(Value())
    {
      ViewIs(maps[..]);
      for i := 0 to maps.Length
        invariant forall j :: 0 <= j < i && maps[j].Used? ==>
                    var t := maps[j].value; t.frame in Value().grants && Contains(Value().grants[t.frame], t.rights)
      {
        if maps[i].Used? {
          var g := FindGrant(maps[i].value.frame);
          if g == grants.Length || !Contains(grants[g].value, maps[i].value.rights) {
            assert maps[i].key in Value().maps;
            return false;
          }
        }
      }
      return true;
    }
  }
}
