/** One device's DMA state: the domain that models its reach, the leaf table the hardware walks,
    and the translations the hardware may have cached. The kernel edits the first two side by
    side. */
module Dma {
  import opened Abi
  import opened Basics
  import opened Seqs
  import opened Table
  import opened Iommu

  const L1_SLOTS := 512
  const FIRST_SLOT := 256
  const END_SLOT := 512
  const GRANT_ROOM := MAX_REGIONS * REGION_MAX_PAGES
  const MAP_ROOM := 8

  /** One entry of the last-level table. */
  datatype Leaf = Absent | Present(frame: nat, read: bool, write: bool)

  function LeafFor(frame: nat, rights: Rights): Leaf {
    Present(frame, Contains(rights, READ), Contains(rights, WRITE))
  }

  /** `table` is false for a domain that never got a leaf table. */
  datatype Device = Device(id: nat, table: bool, dom: Dom, leaves: seq<Leaf>, tlb: set<(nat, Leaf)>)

  /** A domain as boot publishes it, claimed or not, with a table or without: nothing granted, mapped
      or cached. */
  function Blank(id: nat, has: bool): Device {
    Device(id, has, EMPTY_DOM, seq(L1_SLOTS, _ => Absent), {})
  }

  // ------------------------------------------------------------------- what the two halves owe

  /** Every live model mapping is present in the table with exactly its encoding. */
  ghost predicate ModelInTable(d: Device) {
    && |d.leaves| == L1_SLOTS
    && forall a :: a in d.dom.maps ==>
         FIRST_SLOT <= a < END_SLOT && d.leaves[a] == LeafFor(d.dom.maps[a].frame, d.dom.maps[a].rights)
  }

  /** Every present entry is a live model mapping. */
  ghost predicate TableInModel(d: Device) {
    |d.leaves| == L1_SLOTS && forall a :: 0 <= a < L1_SLOTS && d.leaves[a].Present? ==> a in d.dom.maps
  }

  /** The present leaves are exactly the encodings of the live mappings. */
  ghost predicate Agree(d: Device) {
    ModelInTable(d) && TableInModel(d)
  }

  /** Everything the hardware has cached is still present in the table. */
  ghost predicate CacheInTable(d: Device) {
    |d.leaves| == L1_SLOTS
    && forall c :: c in d.tlb ==> c.0 < L1_SLOTS && d.leaves[c.0] == c.1 && c.1.Present?
  }

  /** Nothing is authorized without being mapped. */
  ghost predicate GrantsUsed(d: Dom) {
    forall f :: f in d.grants ==> Reached(d, f)
  }

  predicate Reached(d: Dom, frame: nat) {
    exists a :: a in d.maps && d.maps[a].frame == frame
  }

  /** What holds of every device at every kernel-entry boundary, narrowed grants included. */
  ghost predicate DeviceOk(d: Device) {
    && Sound(d.dom, GRANT_ROOM, MAP_ROOM)
    && ModelInTable(d) && CacheInTable(d) && GrantsUsed(d.dom)
  }

  // ------------------------------------------------------------------- finding room

  /** First-fit search for `n` consecutive absent entries, as one pass over the window. */
  function FindRun(leaves: seq<Leaf>, n: nat, at: nat, run: nat): Option<nat>
    requires |leaves| == L1_SLOTS
    requires run < n && FIRST_SLOT + run <= at <= END_SLOT
    decreases END_SLOT - at
  {
    if at == END_SLOT then None
    else if leaves[at].Absent? then
      if run + 1 == n then Some(at + 1 - n) else FindRun(leaves, n, at + 1, run + 1)
    else FindRun(leaves, n, at + 1, 0)
  }

  predicate FreeRun(leaves: seq<Leaf>, first: nat, n: nat)
    requires |leaves| == L1_SLOTS
  {
    FIRST_SLOT <= first && first + n <= END_SLOT && forall j :: first <= j < first + n ==> leaves[j].Absent?
  }

  /** The search finds the lowest run of absent entries, and fails only if there is none. */
  lemma {:induction false} FindRunFirstFit(leaves: seq<Leaf>, n: nat, at: nat, run: nat)
    requires |leaves| == L1_SLOTS
    requires run < n && FIRST_SLOT + run <= at <= END_SLOT
    requires forall j :: at - run <= j < at ==> leaves[j].Absent?
    requires forall f: nat :: f < at - run ==> !FreeRun(leaves, f, n)
    ensures var r := FindRun(leaves, n, at, run);
            && (r.Some? ==> FreeRun(leaves, r.value, n) && forall f: nat :: f < r.value ==> !FreeRun(leaves, f, n))
            && (r.None? ==> forall f: nat :: !FreeRun(leaves, f, n))
    decreases END_SLOT - at
  {
    if at < END_SLOT {
      if leaves[at].Absent? {
        if run + 1 < n { FindRunFirstFit(leaves, n, at + 1, run + 1); }
      } else {
        forall f: nat | f < at + 1 ensures !FreeRun(leaves, f, n) {
          if at - run <= f {
            assert f <= at < f + n ==> leaves[at].Present?;
          }
        }
        FindRunFirstFit(leaves, n, at + 1, 0);
      }
    }
  }

  // ------------------------------------------------------------------- mapping a region

  datatype MapOut = MapOut(d: Device, ok: bool, tried: nat)

  /** Undo the first `k + 1` pages of a mapping that failed at page `k`: first the model mappings
      and entries this call made, then the grants nothing rests on any more. */
  function Unwind(d: Device, first: nat, n: nat): Device
    requires |d.leaves| == L1_SLOTS && first + n <= L1_SLOTS
    ensures |Unwind(d, first, n).leaves| == L1_SLOTS
  {
    if n == 0 then d
    else
      var e := Unwind(d, first, n - 1);
      e.(dom := Unmapping(e.dom, first + n - 1), leaves := e.leaves[first + n - 1 := Absent])
  }

  function DropIdle(d: Dom, frames: seq<nat>, n: nat): Dom
    requires n <= |frames|
  {
    if n == 0 then d
    else
      var e := DropIdle(d, frames, n - 1);
      if Reached(e, frames[n - 1]) then e else Revoking(e, frames[n - 1])
  }

  function Rollback(d: Device, frames: seq<nat>, first: nat, k: nat): Device
    requires |d.leaves| == L1_SLOTS && k < |frames| && first + |frames| <= L1_SLOTS
  {
    var e := Unwind(d, first, k + 1);
    e.(dom := DropIdle(e.dom, frames, k + 1))
  }

  /** Pages `k` onwards of a region, at consecutive slots from `first`: grant, map, then write the
      entry; the first refusal unwinds this call and nothing else. */
  function MapPages(d: Device, frames: seq<nat>, rights: Rights, first: nat, k: nat): MapOut
    requires |d.leaves| == L1_SLOTS && k <= |frames| && first + |frames| <= L1_SLOTS
    decreases |frames| - k
  {
    if k == |frames| then MapOut(d, true, k)
    else
      var e := d.(dom := Granting(d.dom, GRANT_ROOM, frames[k], rights));
      if Verdict(e.dom, MAP_ROOM, first + k, frames[k], rights).Mapped? then
        MapPages(e.(dom := Mapping(e.dom, MAP_ROOM, first + k, frames[k], rights),
                    leaves := e.leaves[first + k := LeafFor(frames[k], rights)]),
                 frames, rights, first, k + 1)
      else MapOut(Rollback(e, frames, first, k), false, k + 1)
  }

  /** The mappings that survive granting `rights` on every frame of `frames`. */
  ghost function Narrowed(maps: map<nat, Target>, frames: seq<nat>, rights: Rights): map<nat, Target> {
    map a | a in maps && (maps[a].frame in frames ==> Contains(rights, maps[a].rights)) :: maps[a]
  }

  /** The mappings this call has made for its first `k` pages. */
  ghost function Added(frames: seq<nat>, rights: Rights, first: nat, k: nat): map<nat, Target>
    requires k <= |frames|
  {
    if k == 0 then map[] else Added(frames, rights, first, k - 1)[first + k - 1 := Target(frames[k - 1], rights)]
  }

  lemma {:induction false} AddedIs(frames: seq<nat>, rights: Rights, first: nat, k: nat)
    requires k <= |frames|
    ensures forall a: nat :: a in Added(frames, rights, first, k) <==> first <= a < first + k
    ensures forall a: nat :: first <= a < first + k ==> Added(frames, rights, first, k)[a] == Target(frames[a - first], rights)
  {
    if k > 0 { AddedIs(frames, rights, first, k - 1); }
  }

  /** Part of the way through, the table has its old entries and this call's. */
  ghost predicate MidTable(d0: Device, d: Device, frames: seq<nat>, rights: Rights, first: nat, k: nat)
    requires k <= |frames|
  {
    && d.id == d0.id && d.table == d0.table && d.tlb == d0.tlb
    && |d.leaves| == |d0.leaves| == L1_SLOTS
    && forall a :: 0 <= a < L1_SLOTS ==>
         d.leaves[a] == if first <= a < first + k then LeafFor(frames[a - first], rights) else d0.leaves[a]
  }

  /** Part of the way through, the model has the narrowed old mappings and this call's. */
  ghost predicate MidModel(d0: Device, d: Device, frames: seq<nat>, rights: Rights, first: nat, k: nat)
    requires k <= |frames|
  {
    && d.dom.maps == Narrowed(d0.dom.maps, frames[..k], rights) + Added(frames, rights, first, k)
    && Sound(d.dom, GRANT_ROOM, MAP_ROOM)
    && GrantsUsed(d.dom)
  }

  ghost predicate Midway(d0: Device, d: Device, frames: seq<nat>, rights: Rights, first: nat, k: nat)
    requires k <= |frames|
  {
    MidTable(d0, d, frames, rights, first, k) && MidModel(d0, d, frames, rights, first, k)
  }

  ghost predicate MapPre(d: Device, frames: seq<nat>, first: nat) {
    && DeviceOk(d) && NoDup(frames) && frames != []
    && FreeRun(d.leaves, first, |frames|)
  }

  /** A slot in the free run carries no mapping, so `IovaInUse` never happens. */
  lemma {:induction false} FreeSlotUnmapped(d: Device, frames: seq<nat>, first: nat)
    requires MapPre(d, frames, first)
    ensures forall a :: first <= a < first + |frames| ==> a !in d.dom.maps
  {
    forall a | first <= a < first + |frames| ensures a !in d.dom.maps {
      assert d.leaves[a].Absent?;
    }
  }

  /** Narrowing one more frame, on maps alone. */
  lemma {:induction false} NarrowOne(maps0: map<nat, Target>, added: map<nat, Target>, frames: seq<nat>, rights: Rights, k: nat)
    requires k < |frames| && NoDup(frames)
    requires forall a :: a in added ==> a !in maps0 && added[a].frame in frames[..k]
    ensures var m := Narrowed(maps0, frames[..k], rights) + added;
            var n := Narrowed(maps0, frames[..k + 1], rights) + added;
            && Covered(m, frames[k], rights) == n
            && (!(exists a :: a in m && m[a].frame == frames[k]) ==> m == n)
  {
    hide Contains;
    var f := frames[k];
    assert frames[..k + 1] == frames[..k] + [f];
    assert f !in frames[..k];
    var m := Narrowed(maps0, frames[..k], rights) + added;
    var n := Narrowed(maps0, frames[..k + 1], rights) + added;
    forall a: nat ensures a in Covered(m, f, rights) <==> a in n {}
    if !(exists a :: a in m && m[a].frame == f) {
      forall a: nat ensures a in m <==> a in n {
        if a in m { assert m[a].frame != f; }
      }
    }
  }

  lemma {:induction false} AddedFrames(d0: Device, frames: seq<nat>, rights: Rights, first: nat, k: nat)
    requires MapPre(d0, frames, first) && k <= |frames|
    ensures forall a :: a in Added(frames, rights, first, k) ==>
              a !in d0.dom.maps && Added(frames, rights, first, k)[a].frame in frames[..k]
  {
    AddedIs(frames, rights, first, k);
    FreeSlotUnmapped(d0, frames, first);
    forall a | a in Added(frames, rights, first, k) ensures Added(frames, rights, first, k)[a].frame in frames[..k] {
      assert frames[..k][a - first] == frames[a - first];
    }
  }

  /** Granting page `k` narrows the old mappings of that frame and touches nothing else. */
  lemma {:induction false} GrantMidway(d0: Device, d: Device, frames: seq<nat>, rights: Rights, first: nat, k: nat)
    requires MapPre(d0, frames, first) && k < |frames|
    requires Midway(d0, d, frames, rights, first, k)
    ensures var e := Granting(d.dom, GRANT_ROOM, frames[k], rights);
            && e.maps == Narrowed(d0.dom.maps, frames[..k + 1], rights) + Added(frames, rights, first, k)
            && Sound(e, GRANT_ROOM, MAP_ROOM)
            && (frames[k] in e.grants ==> e.grants[frames[k]] == rights)
            && (forall f :: f in e.grants && f != frames[k] ==> Reached(e, f))
  {
    hide LeafFor, Contains, Sound, Narrowed;
    var f := frames[k];
    var e := Granting(d.dom, GRANT_ROOM, f, rights);
    GrantingSound(d.dom, GRANT_ROOM, MAP_ROOM, f, rights);
    AddedFrames(d0, frames, rights, first, k);
    NarrowOne(d0.dom.maps, Added(frames, rights, first, k), frames, rights, k);
    UngrantedUnmapped(d.dom, f);
    forall g | g in e.grants && g != f ensures Reached(e, g) {
      assert Reached(d.dom, g);
      var a :| a in d.dom.maps && d.dom.maps[a].frame == g;
      assert a in e.maps && e.maps[a].frame == g;
    }
  }

  lemma {:induction false} UngrantedUnmapped(d: Dom, f: nat)
    requires Sound(d, GRANT_ROOM, MAP_ROOM)
    ensures f !in d.grants ==> !(exists a :: a in d.maps && d.maps[a].frame == f)
    ensures f !in d.grants && |d.grants| >= GRANT_ROOM ==> Granting(d, GRANT_ROOM, f, NONE) == d
  {}

  /** The slot for page `k` is not in use, so a page is refused only for want of room. */
  lemma {:induction false} RefusalReasons(d0: Device, d: Device, frames: seq<nat>, rights: Rights, first: nat, k: nat)
    requires MapPre(d0, frames, first) && k < |frames|
    requires Midway(d0, d, frames, rights, first, k)
    ensures var e := Granting(d.dom, GRANT_ROOM, frames[k], rights);
            && first + k !in e.maps
            && Verdict(e, MAP_ROOM, first + k, frames[k], rights) in {Mapped, Refused(NotGranted), Refused(Full)}
  {
    hide Sound, LeafFor, Granting, MidModel, MidTable, MapPre, Midway;
    GrantMidway(d0, d, frames, rights, first, k);
    FreeSlotUnmapped(d0, frames, first);
    AddedIs(frames, rights, first, k);
    ContainsIsPartialOrder(rights, rights, rights);
  }

  /** A granted page that maps extends the work by one page. */
  lemma {:induction false} MapMidway(d0: Device, d: Device, frames: seq<nat>, rights: Rights, first: nat, k: nat)
    requires MapPre(d0, frames, first) && k < |frames|
    requires Midway(d0, d, frames, rights, first, k)
    requires Verdict(Granting(d.dom, GRANT_ROOM, frames[k], rights), MAP_ROOM, first + k, frames[k], rights).Mapped?
    ensures |d.leaves| == L1_SLOTS && first + k < L1_SLOTS
    ensures var e := Granting(d.dom, GRANT_ROOM, frames[k], rights);
            Midway(d0, d.(dom := Mapping(e, MAP_ROOM, first + k, frames[k], rights),
                          leaves := d.leaves[first + k := LeafFor(frames[k], rights)]),
                   frames, rights, first, k + 1)
  {
    hide LeafFor, Sound, Contains, Granting, Narrowed, Verdict;
    GrantMidway(d0, d, frames, rights, first, k);
    MapModel(d0, d, frames, rights, first, k);
  }

  lemma {:induction false} MapModel(d0: Device, d: Device, frames: seq<nat>, rights: Rights, first: nat, k: nat)
    requires k < |frames|
    requires var e := Granting(d.dom, GRANT_ROOM, frames[k], rights);
             && Verdict(e, MAP_ROOM, first + k, frames[k], rights).Mapped?
             && e.maps == Narrowed(d0.dom.maps, frames[..k + 1], rights) + Added(frames, rights, first, k)
             && Sound(e, GRANT_ROOM, MAP_ROOM)
             && (forall f :: f in e.grants && f != frames[k] ==> Reached(e, f))
    ensures var e := Granting(d.dom, GRANT_ROOM, frames[k], rights);
            MidModel(d0, d.(dom := Mapping(e, MAP_ROOM, first + k, frames[k], rights)), frames, rights, first, k + 1)
  {
    hide LeafFor, Sound, Contains, Granting, Narrowed, Verdict, GrantsUsed, Reached, Mapping, Added;
    var e := Granting(d.dom, GRANT_ROOM, frames[k], rights);
    MappingSound(e, GRANT_ROOM, MAP_ROOM, first + k, frames[k], rights);
    MapUsed(e, first + k, frames[k], rights);
    AddedNext(Narrowed(d0.dom.maps, frames[..k + 1], rights), frames, rights, first, k);
  }

  lemma {:induction false} AddedNext(n: map<nat, Target>, frames: seq<nat>, rights: Rights, first: nat, k: nat)
    requires k < |frames|
    ensures n + Added(frames, rights, first, k + 1)
         == (n + Added(frames, rights, first, k))[first + k := Target(frames[k], rights)]
  {}

  lemma {:induction false} MapUsed(e: Dom, iova: nat, f: nat, rights: Rights)
    requires Verdict(e, MAP_ROOM, iova, f, rights).Mapped?
    requires forall g :: g in e.grants && g != f ==> Reached(e, g)
    ensures GrantsUsed(Mapping(e, MAP_ROOM, iova, f, rights))
    ensures Mapping(e, MAP_ROOM, iova, f, rights).maps == e.maps[iova := Target(f, rights)]
  {
    hide Contains;
    var m := Mapping(e, MAP_ROOM, iova, f, rights);
    forall g | g in m.grants ensures Reached(m, g) {
      if g == f {
        assert m.maps[iova].frame == f;
      } else {
        var a :| a in e.maps && e.maps[a].frame == g;
        assert a in m.maps && m.maps[a].frame == g;
      }
    }
  }

  lemma {:induction false} UnwindIs(d: Device, first: nat, n: nat)
    requires |d.leaves| == L1_SLOTS && first + n <= L1_SLOTS
    ensures var e := Unwind(d, first, n);
            && e.id == d.id && e.table == d.table && e.tlb == d.tlb
            && e.dom.grants == d.dom.grants
            && e.dom.maps == (map a | a in d.dom.maps && !(first <= a < first + n) :: d.dom.maps[a])
            && (forall a :: 0 <= a < L1_SLOTS ==>
                  e.leaves[a] == if first <= a < first + n then Absent else d.leaves[a])
  {
    if n > 0 { UnwindIs(d, first, n - 1); }
  }

  lemma {:induction false} UnwindSound(d: Device, first: nat, n: nat)
    requires |d.leaves| == L1_SLOTS && first + n <= L1_SLOTS && Sound(d.dom, GRANT_ROOM, MAP_ROOM)
    ensures Sound(Unwind(d, first, n).dom, GRANT_ROOM, MAP_ROOM)
  {
    if n > 0 {
      UnwindSound(d, first, n - 1);
      UnmappingSound(Unwind(d, first, n - 1).dom, GRANT_ROOM, MAP_ROOM, first + n - 1);
    }
  }

  lemma {:induction false} DropOne(d: Dom, f: nat)
    requires Sound(d, GRANT_ROOM, MAP_ROOM)
    ensures var e := if Reached(d, f) then d else Revoking(d, f);
            && e.maps == d.maps && e.grants.Keys <= d.grants.Keys
            && Sound(e, GRANT_ROOM, MAP_ROOM)
            && (f in e.grants ==> Reached(d, f))
  {
    hide Contained;
    RevokingSound(d, GRANT_ROOM, MAP_ROOM, f);
    if !Reached(d, f) {
      assert Without(d.maps, f) == d.maps;
    }
  }

  predicate ReachedIn(maps: map<nat, Target>, frame: nat) {
    exists a :: a in maps && maps[a].frame == frame
  }

  lemma {:induction false} DropIdleIs(d: Dom, frames: seq<nat>, n: nat)
    requires n <= |frames| && Sound(d, GRANT_ROOM, MAP_ROOM)
    ensures var e := DropIdle(d, frames, n);
            && e.maps == d.maps && e.grants.Keys <= d.grants.Keys
            && Sound(e, GRANT_ROOM, MAP_ROOM)
            && (forall j :: 0 <= j < n && frames[j] in e.grants ==> ReachedIn(d.maps, frames[j]))
  {
    hide Sound, Revoking;
    if n > 0 {
      DropIdleIs(d, frames, n - 1);
      DropOne(DropIdle(d, frames, n - 1), frames[n - 1]);
    }
  }

  /** Unwinding removes this call's mappings and keeps the narrowed old ones. */
  lemma {:induction false} UnwoundMaps(d0: Device, e: Device, frames: seq<nat>, rights: Rights, first: nat, k: nat)
    requires MapPre(d0, frames, first) && k < |frames| && |e.leaves| == L1_SLOTS
    requires e.dom.maps == Narrowed(d0.dom.maps, frames[..k + 1], rights) + Added(frames, rights, first, k)
    ensures Unwind(e, first, k + 1).dom.maps == Narrowed(d0.dom.maps, frames[..k + 1], rights)
  {
    hide Sound, Contains, LeafFor;
    UnwindIs(e, first, k + 1);
    FreeSlotUnmapped(d0, frames, first);
    AddedIs(frames, rights, first, k);
  }

  lemma {:induction false} UnwoundTable(d0: Device, e: Device, frames: seq<nat>, rights: Rights, first: nat, k: nat)
    requires MapPre(d0, frames, first) && k < |frames|
    requires MidTable(d0, e, frames, rights, first, k)
    ensures var u := Unwind(e, first, k + 1);
            u.id == d0.id && u.table == d0.table && u.tlb == d0.tlb && u.leaves == d0.leaves
  {
    hide Sound, Contains, LeafFor, ModelInTable;
    UnwindIs(e, first, k + 1);
  }

  /** After a rollback no grant is idle: a frame this call tried was kept only if something still
      maps it, and any other granted frame was mapped before. */
  lemma {:induction false} RollbackUsed(d0: Device, e: Dom, r: Dom, frames: seq<nat>, rights: Rights, first: nat, k: nat)
    requires MapPre(d0, frames, first) && k < |frames|
    requires e.maps == Narrowed(d0.dom.maps, frames[..k + 1], rights) + Added(frames, rights, first, k)
    requires forall f :: f in e.grants && f != frames[k] ==> Reached(e, f)
    requires r.maps == Narrowed(d0.dom.maps, frames[..k + 1], rights) && r.grants.Keys <= e.grants.Keys
    requires forall j :: 0 <= j < k + 1 && frames[j] in r.grants ==> ReachedIn(r.maps, frames[j])
    ensures GrantsUsed(r)
  {
    hide Sound, Contains, LeafFor, ModelInTable;
    AddedIs(frames, rights, first, k);
    forall f | f in r.grants ensures Reached(r, f) {
      if j :| 0 <= j < k + 1 && frames[j] == f {
        assert ReachedIn(r.maps, f);
      } else {
        var a :| a in e.maps && e.maps[a].frame == f;
        assert a in r.maps && r.maps[a].frame == f;
      }
    }
  }

  /** A failed mapping leaves the table exactly as it found it, and the model with the narrowed
      old mappings: everything this call installed is gone, and no idle grant remains. */
  lemma {:induction false} RollbackIs(d0: Device, d: Device, frames: seq<nat>, rights: Rights, first: nat, k: nat)
    requires MapPre(d0, frames, first) && k < |frames|
    requires Midway(d0, d, frames, rights, first, k)
    ensures |d.leaves| == L1_SLOTS && first + |frames| <= L1_SLOTS
    ensures var e := d.(dom := Granting(d.dom, GRANT_ROOM, frames[k], rights));
            var r := Rollback(e, frames, first, k);
            && r.id == d0.id && r.table == d0.table && r.tlb == d0.tlb && r.leaves == d0.leaves
            && r.dom.maps == Narrowed(d0.dom.maps, frames[..k + 1], rights)
            && Sound(r.dom, GRANT_ROOM, MAP_ROOM) && GrantsUsed(r.dom)
  {
    hide LeafFor, Sound, Contains, Granting, Narrowed, DeviceOk, GrantsUsed;
    var e := d.(dom := Granting(d.dom, GRANT_ROOM, frames[k], rights));
    GrantMidway(d0, d, frames, rights, first, k);
    UnwoundMaps(d0, e, frames, rights, first, k);
    UnwoundTable(d0, e, frames, rights, first, k);
    UnwindIs(e, first, k + 1);
    UnwindSound(e, first, k + 1);
    var u := Unwind(e, first, k + 1);
    DropIdleIs(u.dom, frames, k + 1);
    RollbackUsed(d0, e.dom, DropIdle(u.dom, frames, k + 1), frames, rights, first, k);
  }

  lemma {:induction false} MidwayShape(d0: Device, d: Device, frames: seq<nat>, rights: Rights, first: nat, k: nat)
    requires MapPre(d0, frames, first) && k <= |frames|
    requires Midway(d0, d, frames, rights, first, k)
    ensures |d.leaves| == L1_SLOTS && first + |frames| <= L1_SLOTS
  {}

  /** Mapping a whole region: what the result is, in every case. */
  lemma {:induction false} MapPagesIs(d0: Device, d: Device, frames: seq<nat>, rights: Rights, first: nat, k: nat)
    requires MapPre(d0, frames, first) && k <= |frames|
    requires Midway(d0, d, frames, rights, first, k)
    ensures |d.leaves| == L1_SLOTS && first + |frames| <= L1_SLOTS
    ensures var out := MapPages(d, frames, rights, first, k);
            && k <= out.tried <= |frames| && (out.ok ==> out.tried == |frames|)
            && (if out.ok then Midway(d0, out.d, frames, rights, first, |frames|)
                else && out.d.id == d0.id && out.d.table == d0.table && out.d.tlb == d0.tlb
                     && out.d.leaves == d0.leaves && out.tried > 0
                     && out.d.dom.maps == Narrowed(d0.dom.maps, frames[..out.tried], rights)
                     && Sound(out.d.dom, GRANT_ROOM, MAP_ROOM) && GrantsUsed(out.d.dom))
    decreases |frames| - k
  {
    hide LeafFor, Midway, MapPre, Granting, Mapping, Verdict, Sound, Rollback, GrantsUsed, Narrowed;
    MidwayShape(d0, d, frames, rights, first, k);
    if k < |frames| {
      var e := d.(dom := Granting(d.dom, GRANT_ROOM, frames[k], rights));
      if Verdict(e.dom, MAP_ROOM, first + k, frames[k], rights).Mapped? {
        MapMidway(d0, d, frames, rights, first, k);
        MapPagesIs(d0, e.(dom := Mapping(e.dom, MAP_ROOM, first + k, frames[k], rights),
                          leaves := e.leaves[first + k := LeafFor(frames[k], rights)]),
                   frames, rights, first, k + 1);
      } else {
        RollbackIs(d0, d, frames, rights, first, k);
      }
    }
  }

  lemma {:induction false} StartMidway(d: Device, frames: seq<nat>, rights: Rights, first: nat)
    requires MapPre(d, frames, first)
    ensures Midway(d, d, frames, rights, first, 0)
  {
    assert Narrowed(d.dom.maps, frames[..0], rights) + Added(frames, rights, first, 0) == d.dom.maps;
  }

  /** None of these frames is already mapped with rights that the new ones do not contain. */
  ghost predicate NoNarrowing(maps: map<nat, Target>, frames: seq<nat>, rights: Rights) {
    forall a :: a in maps && maps[a].frame in frames ==> Contains(rights, maps[a].rights)
  }

  /** The outcome of a whole call, read off: on success the midway state of all pages; on failure
      the table untouched. */
  lemma {:induction false} MapOutcome(d: Device, frames: seq<nat>, rights: Rights, first: nat)
    requires MapPre(d, frames, first)
    ensures var out := MapPages(d, frames, rights, first, 0);
            && 0 < out.tried <= |frames|
            && out.d.id == d.id && out.d.table == d.table && out.d.tlb == d.tlb && |out.d.leaves| == L1_SLOTS
            && Sound(out.d.dom, GRANT_ROOM, MAP_ROOM) && GrantsUsed(out.d.dom)
            && out.d.dom.maps == Narrowed(d.dom.maps, frames[..out.tried], rights)
                                 + (if out.ok then Added(frames, rights, first, |frames|) else map[])
            && forall a :: 0 <= a < L1_SLOTS ==>
                 out.d.leaves[a] == if out.ok && first <= a < first + |frames| then LeafFor(frames[a - first], rights)
                                    else d.leaves[a]
  {
    hide LeafFor, Sound, Contains, Narrowed, MapPages, GrantsUsed, DeviceOk;
    StartMidway(d, frames, rights, first);
    MapPagesIs(d, d, frames, rights, first, 0);
    var out := MapPages(d, frames, rights, first, 0);
    assert out.ok ==> MidModel(d, out.d, frames, rights, first, |frames|) && MidTable(d, out.d, frames, rights, first, |frames|);
    assert !out.ok ==> Narrowed(d.dom.maps, frames[..out.tried], rights) + map[] == Narrowed(d.dom.maps, frames[..out.tried], rights);
  }

  /** Whatever happens, model mappings stay encoded in the table, the cache stays inside the table,
      containment holds and no idle grant remains. */
  lemma {:induction false} MapPagesKeepsOk(d: Device, frames: seq<nat>, rights: Rights, first: nat)
    requires MapPre(d, frames, first)
    ensures DeviceOk(MapPages(d, frames, rights, first, 0).d)
  {
    hide LeafFor, Sound, Contains, MapPages, GrantsUsed;
    MapOutcome(d, frames, rights, first);
    FreeSlotUnmapped(d, frames, first);
    AddedIs(frames, rights, first, |frames|);
    var out := MapPages(d, frames, rights, first, 0);
    forall c | c in out.d.tlb ensures c.0 < L1_SLOTS && out.d.leaves[c.0] == c.1 && c.1.Present? {
      assert c in d.tlb;
    }
  }

  // ------------------------------------------------------------------- how far a call gets

  /** How many of `n` pages are tried before the mapping table is full: all that fit, and the first
      that does not. */
  function Attempts(maps: map<nat, Target>, n: nat): (k: nat)
    ensures k <= n
  {
    if |maps| + n <= MAP_ROOM then n else if |maps| <= MAP_ROOM then MAP_ROOM - |maps| + 1 else 0
  }

  function FramesIn(maps: map<nat, Target>): set<nat> {
    set a | a in maps :: maps[a].frame
  }

  lemma {:induction false} FramesFew(maps: map<nat, Target>)
    ensures |FramesIn(maps)| <= |maps|
    decreases |maps|
  {
    if maps != map[] {
      var a :| a in maps;
      var rest := maps - {a};
      assert maps.Keys == rest.Keys + {a};
      FramesFew(rest);
      assert FramesIn(maps) == FramesIn(rest) + {maps[a].frame};
    }
  }

  /** With every grant in use, there are no more grants than mappings. */
  lemma {:induction false} GrantsFew(d: Dom)
    requires GrantsUsed(d)
    ensures |d.grants| <= |d.maps|
  {
    forall f | f in d.grants.Keys ensures f in FramesIn(d.maps) { assert Reached(d, f); }
    SubsetSize(d.grants.Keys, FramesIn(d.maps));
    FramesFew(d.maps);
  }

  lemma {:induction false} NothingNarrowed(maps: map<nat, Target>, frames: seq<nat>, rights: Rights)
    requires NoNarrowing(maps, frames, rights)
    ensures Narrowed(maps, frames, rights) == maps
  {
    hide Contains;
  }

  lemma {:induction false} PrefixNarrowing(maps: map<nat, Target>, frames: seq<nat>, rights: Rights, j: nat, k: nat)
    requires j <= k <= |frames| && NoNarrowing(maps, frames[..k], rights)
    ensures NoNarrowing(maps, frames[..j], rights)
  {
    hide Contains;
    assert forall f :: f in frames[..j] ==> f in frames[..k];
  }

  /** As long as nothing is narrowed, a page is granted for sure, and mapped unless the mapping
      table is full. */
  lemma {:induction false} PageFits(d0: Device, d: Device, frames: seq<nat>, rights: Rights, first: nat, k: nat)
    requires MapPre(d0, frames, first) && k < |frames| && Midway(d0, d, frames, rights, first, k)
    requires NoNarrowing(d0.dom.maps, frames[..k + 1], rights) && |d.dom.maps| <= MAP_ROOM
    ensures var e := Granting(d.dom, GRANT_ROOM, frames[k], rights);
            && e.maps == d.dom.maps
            && Verdict(e, MAP_ROOM, first + k, frames[k], rights)
               == (if |d.dom.maps| < MAP_ROOM then Mapped else Refused(Full))
            && |Mapping(e, MAP_ROOM, first + k, frames[k], rights).maps|
               == |d.dom.maps| + if |d.dom.maps| < MAP_ROOM then 1 else 0
  {
    hide LeafFor, Contains, Narrowed, NoNarrowing, Sound, MapPre, Reached, Granting, Verdict, Mapping, MidTable, GrantsUsed, Added;
    var e := Granting(d.dom, GRANT_ROOM, frames[k], rights);
    GrantMidway(d0, d, frames, rights, first, k);
    RefusalReasons(d0, d, frames, rights, first, k);
    PrefixNarrowing(d0.dom.maps, frames, rights, k, k + 1);
    NothingNarrowed(d0.dom.maps, frames[..k], rights);
    NothingNarrowed(d0.dom.maps, frames[..k + 1], rights);
    GrantsFew(d.dom);
    GrantedWithRoom(d.dom, frames[k], rights);
    VerdictWithRoom(e, first + k, frames[k], rights);
  }

  lemma {:induction false} GrantedWithRoom(d: Dom, frame: nat, rights: Rights)
    requires |d.grants| < GRANT_ROOM
    ensures frame in Granting(d, GRANT_ROOM, frame, rights).grants
  {}

  lemma {:induction false} VerdictWithRoom(e: Dom, iova: nat, frame: nat, rights: Rights)
    requires frame in e.grants && iova !in e.maps && |e.maps| <= MAP_ROOM
    requires Verdict(e, MAP_ROOM, iova, frame, rights) in {Mapped, Refused(NotGranted), Refused(Full)}
    ensures Verdict(e, MAP_ROOM, iova, frame, rights) == if |e.maps| < MAP_ROOM then Mapped else Refused(Full)
    ensures |Mapping(e, MAP_ROOM, iova, frame, rights).maps| == |e.maps| + if |e.maps| < MAP_ROOM then 1 else 0
  {
    hide Contains;
    if |e.maps| < MAP_ROOM { KeysGrow(e.maps, iova, Target(frame, rights)); }
  }

  /** Up to the first narrowed page, a call tries exactly as many pages as there is room for. */
  lemma {:induction false} TriedIs(d0: Device, d: Device, frames: seq<nat>, rights: Rights, first: nat, k: nat)
    requires MapPre(d0, frames, first) && k <= |frames| && Midway(d0, d, frames, rights, first, k)
    requires NoNarrowing(d0.dom.maps, frames[..k], rights) && |d.dom.maps| == |d0.dom.maps| + k <= MAP_ROOM
    ensures |d.leaves| == L1_SLOTS && first + |frames| <= L1_SLOTS
    ensures var t, p := MapPages(d, frames, rights, first, k).tried, Attempts(d0.dom.maps, |frames|);
            && k <= t <= |frames| && (k < |frames| ==> k < t)
            && (NoNarrowing(d0.dom.maps, frames[..t], rights) <==> NoNarrowing(d0.dom.maps, frames[..p], rights))
    decreases |frames| - k
  {
    hide LeafFor, Midway, MapPre, Granting, Mapping, Verdict, Sound, Rollback, GrantsUsed, Narrowed, NoNarrowing;
    MidwayShape(d0, d, frames, rights, first, k);
    if k < |frames| {
      var e := d.(dom := Granting(d.dom, GRANT_ROOM, frames[k], rights));
      var t, p := MapPages(d, frames, rights, first, k).tried, Attempts(d0.dom.maps, |frames|);
      MapPagesIs(d0, d, frames, rights, first, k);
      if NoNarrowing(d0.dom.maps, frames[..k + 1], rights) {
        PageFits(d0, d, frames, rights, first, k);
        if |d.dom.maps| < MAP_ROOM {
          MapMidway(d0, d, frames, rights, first, k);
          TriedIs(d0, e.(dom := Mapping(e.dom, MAP_ROOM, first + k, frames[k], rights),
                         leaves := e.leaves[first + k := LeafFor(frames[k], rights)]),
                  frames, rights, first, k + 1);
        }
      } else {
        TriedMore(d0, d, frames, rights, first, k);
        if NoNarrowing(d0.dom.maps, frames[..t], rights) { PrefixNarrowing(d0.dom.maps, frames, rights, k + 1, t); }
        if NoNarrowing(d0.dom.maps, frames[..p], rights) { PrefixNarrowing(d0.dom.maps, frames, rights, k + 1, p); }
      }
    }
  }

  /** Where nothing is narrowed, a call succeeds exactly if all its pages fit in the mapping table. */
  lemma {:induction false} FitsIff(d0: Device, d: Device, frames: seq<nat>, rights: Rights, first: nat, k: nat)
    requires MapPre(d0, frames, first) && k <= |frames| && Midway(d0, d, frames, rights, first, k)
    requires NoNarrowing(d0.dom.maps, frames, rights) && |d.dom.maps| == |d0.dom.maps| + k <= MAP_ROOM
    ensures |d.leaves| == L1_SLOTS && first + |frames| <= L1_SLOTS
    ensures MapPages(d, frames, rights, first, k).ok <==> |d0.dom.maps| + |frames| <= MAP_ROOM
    decreases |frames| - k
  {
    hide LeafFor, Midway, MapPre, Granting, Mapping, Verdict, Sound, Rollback, GrantsUsed, Narrowed, NoNarrowing;
    MidwayShape(d0, d, frames, rights, first, k);
    if k < |frames| {
      assert frames[..|frames|] == frames;
      PrefixNarrowing(d0.dom.maps, frames, rights, k + 1, |frames|);
      PageFits(d0, d, frames, rights, first, k);
      if |d.dom.maps| < MAP_ROOM {
        var e := d.(dom := Granting(d.dom, GRANT_ROOM, frames[k], rights));
        MapMidway(d0, d, frames, rights, first, k);
        FitsIff(d0, e.(dom := Mapping(e.dom, MAP_ROOM, first + k, frames[k], rights),
                       leaves := e.leaves[first + k := LeafFor(frames[k], rights)]),
                frames, rights, first, k + 1);
      }
    }
  }

  /** What a whole call leaves, where nothing is narrowed: all its mappings beside the old ones, or the
      old ones, table and model alike. */
  lemma {:induction false} MappedOrNot(d: Device, frames: seq<nat>, rights: Rights, first: nat)
    requires MapPre(d, frames, first) && NoNarrowing(d.dom.maps, frames, rights)
    ensures var out := MapPages(d, frames, rights, first, 0);
            && (out.ok <==> |d.dom.maps| + |frames| <= MAP_ROOM)
            && out.d.id == d.id && out.d.table == d.table && out.d.tlb == d.tlb && |out.d.leaves| == |d.leaves| == L1_SLOTS
            && (forall a :: 0 <= a < L1_SLOTS ==>
                  out.d.leaves[a] == if out.ok && first <= a < first + |frames| then LeafFor(frames[a - first], rights) else d.leaves[a])
            && (forall a :: a in out.d.dom.maps <==> a in d.dom.maps || (out.ok && first <= a < first + |frames|))
            && (forall a :: a in out.d.dom.maps ==>
                  out.d.dom.maps[a] == if out.ok && first <= a < first + |frames| then Target(frames[a - first], rights) else d.dom.maps[a])
  {
    hide LeafFor, Midway, Sound, MapPages, GrantsUsed, Narrowed, NoNarrowing, DeviceOk;
    StartMidway(d, frames, rights, first);
    MidwayShape(d, d, frames, rights, first, 0);
    MapOutcome(d, frames, rights, first);
    var out := MapPages(d, frames, rights, first, 0);
    MapsFit(d);
    FitsIff(d, d, frames, rights, first, 0);
    FreeSlotUnmapped(d, frames, first);
    AddedIs(frames, rights, first, |frames|);
    assert frames[..|frames|] == frames;
    PrefixNarrowing(d.dom.maps, frames, rights, out.tried, |frames|);
    NothingNarrowed(d.dom.maps, frames[..out.tried], rights);
  }

  /** Every call tries the page it is at. */
  lemma {:induction false} TriedMore(d0: Device, d: Device, frames: seq<nat>, rights: Rights, first: nat, k: nat)
    requires MapPre(d0, frames, first) && k < |frames| && Midway(d0, d, frames, rights, first, k)
    ensures |d.leaves| == L1_SLOTS && first + |frames| <= L1_SLOTS
    ensures k < MapPages(d, frames, rights, first, k).tried
  {
    hide LeafFor, Midway, MapPre, Granting, Mapping, Verdict, Rollback;
    MidwayShape(d0, d, frames, rights, first, k);
    var e := d.(dom := Granting(d.dom, GRANT_ROOM, frames[k], rights));
    if Verdict(e.dom, MAP_ROOM, first + k, frames[k], rights).Mapped? {
      MapMidway(d0, d, frames, rights, first, k);
      MapPagesIs(d0, e.(dom := Mapping(e.dom, MAP_ROOM, first + k, frames[k], rights),
                        leaves := e.leaves[first + k := LeafFor(frames[k], rights)]),
                 frames, rights, first, k + 1);
    }
  }

  /** Table and model still agree after mapping a region, successful or rolled back, exactly when
      none of the pages there is room to try is already mapped with rights the new ones do not
      contain. */
  lemma {:induction false} MapAgreesIff(d: Device, frames: seq<nat>, rights: Rights, first: nat)
    requires MapPre(d, frames, first) && Agree(d)
    ensures Agree(MapPages(d, frames, rights, first, 0).d)
            <==> NoNarrowing(d.dom.maps, frames[..Attempts(d.dom.maps, |frames|)], rights)
  {
    hide LeafFor, Sound, Contains, MapPages, NoNarrowing, Agree, Midway;
    AgreesUpToTried(d, frames, rights, first);
    StartMidway(d, frames, rights, first);
    NoneTried(d, rights, frames);
    MapsFit(d);
    TriedIs(d, d, frames, rights, first, 0);
  }

  lemma {:induction false} NoneTried(d: Device, rights: Rights, frames: seq<nat>)
    ensures NoNarrowing(d.dom.maps, frames[..0], rights)
  {}

  lemma {:induction false} MapsFit(d: Device)
    requires DeviceOk(d)
    ensures |d.dom.maps| <= MAP_ROOM
  {}

  lemma {:induction false} AgreesUpToTried(d: Device, frames: seq<nat>, rights: Rights, first: nat)
    requires MapPre(d, frames, first) && Agree(d)
    ensures var out := MapPages(d, frames, rights, first, 0);
            out.tried <= |frames| && (Agree(out.d) <==> NoNarrowing(d.dom.maps, frames[..out.tried], rights))
  {
    hide LeafFor, Sound, Contains, MapPages, GrantsUsed;
    MapOutcome(d, frames, rights, first);
    MapPagesKeepsOk(d, frames, rights, first);
    FreeSlotUnmapped(d, frames, first);
    AddedIs(frames, rights, first, |frames|);
    var out := MapPages(d, frames, rights, first, 0);
    if !NoNarrowing(d.dom.maps, frames[..out.tried], rights) {
      var a :| a in d.dom.maps && d.dom.maps[a].frame in frames[..out.tried] && !Contains(rights, d.dom.maps[a].rights);
      assert out.d.leaves[a] == d.leaves[a] && d.leaves[a] == LeafFor(d.dom.maps[a].frame, d.dom.maps[a].rights);
      LeafPresent(d.dom.maps[a].frame, d.dom.maps[a].rights);
      assert a !in out.d.dom.maps;
    }
  }

  lemma {:induction false} LeafPresent(frame: nat, rights: Rights)
    ensures LeafFor(frame, rights).Present? && LeafFor(frame, rights).frame == frame
  {}

  /** The condition a caller can check beforehand, over all the region's pages. */
  lemma {:induction false} WideningKeepsAgreement(d: Device, frames: seq<nat>, rights: Rights, first: nat)
    requires MapPre(d, frames, first) && Agree(d)
    requires NoNarrowing(d.dom.maps, frames, rights)
    ensures Agree(MapPages(d, frames, rights, first, 0).d)
  {
    hide MapPages, Agree, NoNarrowing;
    MapAgreesIff(d, frames, rights, first);
    assert frames[..|frames|] == frames;
    PrefixNarrowing(d.dom.maps, frames, rights, Attempts(d.dom.maps, |frames|), |frames|);
  }

  /** Frame 7 is mapped once, for reading and writing. */
  ghost function MappedForWriting(): Device {
    Device(1, true, Dom(map[7 := 3], map[256 := Target(7, 3)]),
           seq(L1_SLOTS, i => if i == 256 then LeafFor(7, 3) else Absent), {})
  }

  lemma {:induction false} MappedForWritingAgrees()
    ensures MapPre(MappedForWriting(), [7], 257) && Agree(MappedForWriting())
  {
    var d := MappedForWriting();
    assert d.dom.maps[256].frame == 7;
  }

  /** A concrete narrowing: mapping that frame again, read-only. The model forgets the first
      mapping while its entry stays present and writable. */
  lemma {:induction false} NarrowingDisagrees()
    ensures MapPre(MappedForWriting(), [7], 257) && Agree(MappedForWriting())
    ensures var out := MapPages(MappedForWriting(), [7], READ, 257, 0);
            && !Agree(out.d) && 256 !in out.d.dom.maps
            && |out.d.leaves| == L1_SLOTS && out.d.leaves[256] == LeafFor(7, 3)
  {
    hide MapPages, MapPre, Agree, LeafFor;
    MappedForWritingAgrees();
    var d := MappedForWriting();
    AgreesUpToTried(d, [7], READ, 257);
    MapOutcome(d, [7], READ, 257);
    AddedIs([7], READ, 257, 1);
    assert [7][..1] == [7];
    assert d.dom.maps[256].frame in [7] && !Contains(READ, d.dom.maps[256].rights);
  }

  // ------------------------------------------------------------------- withdrawing

  /** Clear every entry that points at `frame`, found by scanning the table itself. */
  function ClearedTable(leaves: seq<Leaf>, frame: nat): seq<Leaf> {
    seq(|leaves|, a requires 0 <= a < |leaves| =>
      if leaves[a].Present? && leaves[a].frame == frame then Absent else leaves[a])
  }

  /** Hardware first, then the model's mappings, then the grant. */
  function WithdrawFrame(d: Device, frame: nat): Device {
    d.(leaves := ClearedTable(d.leaves, frame), dom := Revoking(d.dom, frame))
  }

  function Withdraw(d: Device, frames: seq<nat>, n: nat): Device
    requires n <= |frames|
  {
    if n == 0 then d else WithdrawFrame(Withdraw(d, frames, n - 1), frames[n - 1])
  }

  predicate TouchesAny(leaves: seq<Leaf>, frames: seq<nat>) {
    exists a :: 0 <= a < |leaves| && leaves[a].Present? && leaves[a].frame in frames
  }

  /** Every translation the unit may have cached is dropped. */
  function Invalidate(d: Device): Device {
    d.(tlb := {})
  }

  lemma {:induction false} WithdrawIs(d: Device, frames: seq<nat>, n: nat)
    requires n <= |frames|
    ensures var e := Withdraw(d, frames, n);
            && e.id == d.id && e.table == d.table && e.tlb == d.tlb && |e.leaves| == |d.leaves|
            && (forall a :: 0 <= a < |d.leaves| ==>
                  e.leaves[a] == if d.leaves[a].Present? && d.leaves[a].frame in frames[..n] then Absent else d.leaves[a])
            && (forall a :: a in e.dom.maps <==> a in d.dom.maps && d.dom.maps[a].frame !in frames[..n])
            && (forall a :: a in e.dom.maps ==> e.dom.maps[a] == d.dom.maps[a])
            && (forall f :: f in e.dom.grants <==> f in d.dom.grants && f !in frames[..n])
            && (forall f :: f in e.dom.grants ==> e.dom.grants[f] == d.dom.grants[f])
  {
    if n > 0 {
      WithdrawIs(d, frames, n - 1);
      assert frames[..n] == frames[..n - 1] + [frames[n - 1]];
    }
  }

  lemma {:induction false} WithdrawSound(d: Device, frames: seq<nat>, n: nat)
    requires n <= |frames| && Sound(d.dom, GRANT_ROOM, MAP_ROOM)
    ensures Sound(Withdraw(d, frames, n).dom, GRANT_ROOM, MAP_ROOM)
  {
    if n > 0 {
      WithdrawSound(d, frames, n - 1);
      RevokingSound(Withdraw(d, frames, n - 1).dom, GRANT_ROOM, MAP_ROOM, frames[n - 1]);
    }
  }

  /** `e` is `d` without anything that names one of `frames`. */
  ghost predicate Withdrawn(d: Device, e: Device, frames: seq<nat>) {
    && |d.leaves| == |e.leaves| == L1_SLOTS && e.tlb == d.tlb
    && (forall a :: 0 <= a < L1_SLOTS ==>
          e.leaves[a] == if d.leaves[a].Present? && d.leaves[a].frame in frames then Absent else d.leaves[a])
    && (forall a :: a in e.dom.maps <==> a in d.dom.maps && d.dom.maps[a].frame !in frames)
    && (forall a :: a in e.dom.maps ==> e.dom.maps[a] == d.dom.maps[a])
    && (forall f :: f in e.dom.grants <==> f in d.dom.grants && f !in frames)
  }

  lemma {:induction false} WithdrawnModel(d: Device, e: Device, frames: seq<nat>)
    requires Withdrawn(d, e, frames) && ModelInTable(d)
    ensures ModelInTable(e)
    ensures TableInModel(d) ==> TableInModel(e)
  {
    hide LeafFor;
    forall a | a in e.dom.maps ensures FIRST_SLOT <= a < END_SLOT && e.leaves[a] == LeafFor(e.dom.maps[a].frame, e.dom.maps[a].rights) {
      LeafPresent(e.dom.maps[a].frame, e.dom.maps[a].rights);
    }
    if TableInModel(d) {
      forall a | 0 <= a < L1_SLOTS && e.leaves[a].Present? ensures a in e.dom.maps {
        LeafPresent(d.dom.maps[a].frame, d.dom.maps[a].rights);
      }
    }
  }

  lemma {:induction false} WithdrawnUsed(d: Device, e: Device, frames: seq<nat>)
    requires Withdrawn(d, e, frames) && GrantsUsed(d.dom)
    ensures GrantsUsed(e.dom)
  {
    forall f | f in e.dom.grants ensures Reached(e.dom, f) {
      var a :| a in d.dom.maps && d.dom.maps[a].frame == f;
      assert a in e.dom.maps && e.dom.maps[a].frame == f;
    }
  }

  /** Withdrawing a region leaves nothing that names it: no entry, no mapping, no grant, narrowed
      or not. The table and the model keep whatever agreement they had, and after an invalidation,
      or when no entry was cleared, the cache is inside the table again. */
  lemma {:induction false} WithdrawKeepsOk(d: Device, frames: seq<nat>)
    requires DeviceOk(d)
    ensures var e := Withdraw(d, frames, |frames|);
            && Withdrawn(d, e, frames) && e.id == d.id && e.table == d.table
            && DeviceOk(Invalidate(e))
            && (!TouchesAny(d.leaves, frames) ==> e.leaves == d.leaves && DeviceOk(e))
            && (Agree(d) ==> Agree(e))
  {
    hide Sound, Withdraw, LeafFor, Contains, GrantsUsed, ModelInTable, TableInModel;
    WithdrawIs(d, frames, |frames|);
    WithdrawSound(d, frames, |frames|);
    assert frames[..|frames|] == frames;
    ModelShape(d);
    var e := Withdraw(d, frames, |frames|);
    WithdrawnModel(d, e, frames);
    WithdrawnUsed(d, e, frames);
    ModelShape(e);
    ModelIgnoresCache(e);
    if !TouchesAny(d.leaves, frames) {
      assert e.leaves == d.leaves;
    }
  }

  lemma {:induction false} ModelShape(d: Device)
    requires ModelInTable(d)
    ensures |d.leaves| == L1_SLOTS
  {}

  lemma {:induction false} ModelIgnoresCache(d: Device)
    ensures ModelInTable(Invalidate(d)) <==> ModelInTable(d)
    ensures |d.leaves| == L1_SLOTS ==> CacheInTable(Invalidate(d))
  {}

  // ------------------------------------------------------------------- the device's own steps

  /** Between kernel entries the unit may cache any present entry. */
  function Cache(d: Device, slot: nat): Device {
    if slot < |d.leaves| && d.leaves[slot].Present? then d.(tlb := d.tlb + {(slot, d.leaves[slot])}) else d
  }

  lemma {:induction false} CacheKeepsOk(d: Device, slot: nat)
    requires DeviceOk(d)
    ensures DeviceOk(Cache(d, slot)) && Cache(d, slot).leaves == d.leaves && Cache(d, slot).dom == d.dom
  {
    hide Sound, LeafFor;
  }

  // ------------------------------------------------------------------- the entries as words

  const TWO61 := 0x2000_0000_0000_0000
  const TWO62 := 0x4000_0000_0000_0000
  const FRAMES := 0x100_0000_0000

  /** A leaf entry: present in bit 0, next level 0 in bits 9 to 11, the page frame in bits 12 to
      51, read permission in bit 61 and write permission in bit 62. */
  function Encode(frame: nat, rights: Rights): nat {
    (frame % FRAMES) * 0x1000 + 1
    + (if Contains(rights, READ) then TWO61 else 0)
    + (if Contains(rights, WRITE) then TWO62 else 0)
  }

  function Decode(pte: nat): Leaf {
    if pte % 2 == 0 then Absent
    else Present((pte / 0x1000) % FRAMES, (pte / TWO61) % 2 == 1, (pte / TWO62) % 2 == 1)
  }

  /** An entry reads back as the frame and rights it was written for, is a last-level entry, and
      fits a 64-bit word. */
  lemma {:induction false} EncodeRoundTrip(frame: nat, rights: Rights)
    requires frame < FRAMES
    ensures Decode(Encode(frame, rights)) == LeafFor(frame, rights)
    ensures (Encode(frame, rights) / 0x200) % 8 == 0
    ensures Encode(frame, rights) < 0x1_0000_0000_0000_0000
  {
    hide Contains;
    var r, w := if Contains(rights, READ) then 1 else 0, if Contains(rights, WRITE) then 1 else 0;
    assert Encode(frame, rights) == frame * 0x1000 + 1 + r * TWO61 + w * TWO62;
    EntryLow(frame, r, w);
    EntryFrame(frame, r, w);
    EntryRead(frame, r, w);
    EntryWrite(frame, r, w);
  }

  lemma {:induction false} EntryLow(frame: nat, r: nat, w: nat)
    requires frame < FRAMES && r <= 1 && w <= 1
    ensures var x := frame * 0x1000 + 1 + r * TWO61 + w * TWO62;
            x % 2 == 1 && (x / 0x200) % 8 == 0 && x < 0x1_0000_0000_0000_0000
  {
    var x := frame * 0x1000 + 1 + r * TWO61 + w * TWO62;
    assert x == 0x200 * (8 * (frame + r * 0x2_0000_0000_0000 + w * 0x4_0000_0000_0000)) + 1;
    assert x / 0x200 == 8 * (frame + r * 0x2_0000_0000_0000 + w * 0x4_0000_0000_0000);
  }

  lemma {:induction false} EntryFrame(frame: nat, r: nat, w: nat)
    requires frame < FRAMES && r <= 1 && w <= 1
    ensures ((frame * 0x1000 + 1 + r * TWO61 + w * TWO62) / 0x1000) % FRAMES == frame
  {
    var high := r * 0x200 + w * 0x400;
    assert frame * 0x1000 + 1 + r * TWO61 + w * TWO62 == 0x1000 * (frame + FRAMES * high) + 1;
    assert (0x1000 * (frame + FRAMES * high) + 1) / 0x1000 == frame + FRAMES * high;
  }

  lemma {:induction false} EntryRead(frame: nat, r: nat, w: nat)
    requires frame < FRAMES && r <= 1 && w <= 1
    ensures ((frame * 0x1000 + 1 + r * TWO61 + w * TWO62) / TWO61) % 2 == r
  {
    var low := frame * 0x1000 + 1;
    assert low < TWO61;
    assert (low + TWO61 * (r + 2 * w)) / TWO61 == r + 2 * w;
  }

  lemma {:induction false} EntryWrite(frame: nat, r: nat, w: nat)
    requires frame < FRAMES && r <= 1 && w <= 1
    ensures ((frame * 0x1000 + 1 + r * TWO61 + w * TWO62) / TWO62) % 2 == w
  {
    var low := frame * 0x1000 + 1 + r * TWO61;
    assert low < TWO62;
    assert (low + TWO62 * w) / TWO62 == w;
  }

  function ViewOf(words: seq<nat>): (v: seq<Leaf>)
    ensures |v| == |words|
    ensures forall i :: 0 <= i < |words| ==> v[i] == Decode(words[i])
  {
    seq(|words|, i requires 0 <= i < |words| => Decode(words[i]))
  }

  lemma {:induction false} ViewUpdate(words: seq<nat>, i: nat, w: nat)
    requires i < |words|
    ensures ViewOf(words[i := w]) == ViewOf(words)[i := Decode(w)]
  {}

  /** The two structures the kernel edits side by side: a domain and a leaf table. */
  class Unit {
    const domain: Domain
    const table: array<nat>

    /** What the unit's methods may change. */
    ghost function Repr(): set<object> {
      {domain.grants as object, domain.maps as object, table as object}
    }

    ghost predicate Valid()
      reads domain.grants, domain.maps, table
    {
      && domain.Valid() && domain.grants.Length == GRANT_ROOM && domain.maps.Length == MAP_ROOM
      && table.Length == L1_SLOTS
      && table as object != domain.grants && table as object != domain.maps
    }

    /** The device it stands for: `id` and `has` say whether the domain is claimed and its table published. */
    ghost function Value(id: nat, has: bool, tlb: set<(nat, Leaf)>): (d: Device)
      reads domain.grants, domain.maps, table
      ensures |d.leaves| == table.Length
    {
      Device(id, has, domain.Value(), ViewOf(table[..]), tlb)
    }

    lemma {:induction false} Parts(id: nat, has: bool, tlb: set<(nat, Leaf)>)
      ensures Value(id, has, tlb) == Device(id, has, domain.Value(), ViewOf(table[..]), tlb)
    {}

    constructor ()
      ensures Valid() && fresh(Repr())
      ensures forall id, has :: Value(id, has, {}) == Blank(id, has)
    {
      domain := new Domain(GRANT_ROOM, MAP_ROOM);
      table := new nat[L1_SLOTS](_ => 0);
      new;
      assert table as object != domain.grants && table as object != domain.maps;
      assert ViewOf(table[..]) == seq(L1_SLOTS, _ => Absent);
    }

    /** First-fit scan of the window for `n` absent entries. */
    method FindFree(n: nat) returns (first: Option<nat>)
      requires Valid() && n > 0
      ensures first == FindRun(ViewOf(table[..]), n, FIRST_SLOT, 0)
    {
      var run := 0;
      var at := FIRST_SLOT;
      while at < END_SLOT
        invariant FIRST_SLOT + run <= at <= END_SLOT && 0 <= run < n
        invariant FindRun(ViewOf(table[..]), n, FIRST_SLOT, 0) == FindRun(ViewOf(table[..]), n, at, run)
      {
        assert ViewOf(table[..])[at] == Decode(table[at]);
        if table[at] % 2 == 0 {
          run := run + 1;
          if run == n {
            return Some(at + 1 - n);
          }
        } else {
          run := 0;
        }
        at := at + 1;
      }
      return None;
    }

    /** Grant, map and write one page; on refusal nothing but the grant has changed. */
    method MapPage(frame: nat, rights: Rights, slot: nat) returns (ok: bool)
      requires Valid() && slot < L1_SLOTS && frame < FRAMES
      modifies domain.grants, domain.maps, table
      ensures Valid()
      ensures var e := Granting(old(domain.Value()), GRANT_ROOM, frame, rights);
              && ok == Verdict(e, MAP_ROOM, slot, frame, rights).Mapped?
              && domain.Value() == Mapping(e, MAP_ROOM, slot, frame, rights)
      ensures ViewOf(table[..]) == if ok then old(ViewOf(table[..]))[slot := LeafFor(frame, rights)]
                                   else old(ViewOf(table[..]))
    {
      hide Granting, Verdict, LeafFor, Decode, Encode;
      ghost var words := table[..];
      var granted := domain.GrantFrame(frame, rights);
      var r := domain.MapFrame(slot, frame, rights);
      ok := r.Mapped?;
      assert table[..] == words;
      if ok {
        EncodeRoundTrip(frame, rights);
        ViewUpdate(words, slot, Encode(frame, rights));
        table[slot] := Encode(frame, rights);
        assert table[..] == words[slot := Encode(frame, rights)];
      }
    }

    /** Remove the first `n` mappings and entries of a failed call. */
    method UnwindPages(first: nat, n: nat, ghost id: nat, ghost has: bool, ghost tlb: set<(nat, Leaf)>)
      requires Valid() && first + n <= L1_SLOTS
      modifies domain.maps, table
      ensures Valid()
      ensures Value(id, has, tlb) == Unwind(old(Value(id, has, tlb)), first, n)
    {
      hide Unmapping, Decode;
      ghost var start := Value(id, has, tlb);
      for done := 0 to n
        invariant Valid() && Value(id, has, tlb) == Unwind(start, first, done)
      {
        ghost var words := table[..];
        var hit := domain.UnmapIova(first + done);
        assert table[..] == words;
        ZeroIsAbsent();
        ViewUpdate(words, first + done, 0);
        table[first + done] := 0;
        assert table[..] == words[first + done := 0];
      }
    }

    /** Is any live mapping of this frame left? */
    method StillReached(frame: nat) returns (b: bool)
      requires Valid()
      ensures b <==> Reached(domain.Value(), frame)
    {
      ViewIs(domain.maps[..]);
      for i := 0 to domain.maps.Length
        invariant forall j :: 0 <= j < i && domain.maps[j].Used? ==> domain.maps[j].value.frame != frame
      {
        if domain.maps[i].Used? && domain.maps[i].value.frame == frame {
          assert domain.maps[..][i].Used?;
          return true;
        }
      }
      return false;
    }

    /** Drop the grants nothing rests on any more. */
    method DropIdleGrants(frames: seq<nat>, n: nat)
      requires Valid() && n <= |frames|
      modifies domain.grants, domain.maps
      ensures Valid()
      ensures domain.Value() == DropIdle(old(domain.Value()), frames, n)
    {
      hide Revoking, Reached;
      for done := 0 to n
        invariant Valid() && domain.Value() == DropIdle(old(domain.Value()), frames, done)
      {
        var still := StillReached(frames[done]);
        if !still {
          var k := domain.RevokeFrame(frames[done]);
        }
      }
    }

    /** Map every page of a region at consecutive slots, all or nothing. */
    method MapRegion(frames: seq<nat>, rights: Rights, first: nat, ghost id: nat, ghost has: bool, ghost tlb: set<(nat, Leaf)>)
      returns (ok: bool)
      requires Valid() && first + |frames| <= L1_SLOTS && forall f :: f in frames ==> f < FRAMES
      modifies Repr()
      ensures Valid()
      ensures var out := MapPages(old(Value(id, has, tlb)), frames, rights, first, 0);
              ok == out.ok && Value(id, has, tlb) == out.d
    {
      hide Granting, Verdict, LeafFor, Decode, Encode, Mapping, Unwind, DropIdle, ViewOf;
      ghost var goal := MapPages(Value(id, has, tlb), frames, rights, first, 0);
      for k := 0 to |frames|
        invariant Valid() && MapPages(Value(id, has, tlb), frames, rights, first, k) == goal
      {
        ghost var d := Value(id, has, tlb);
        assert frames[k] in frames;
        ok := MapPage(frames[k], rights, first + k);
        if !ok {
          ghost var e := d.(dom := Granting(d.dom, GRANT_ROOM, frames[k], rights));
          RefusedUnchanged(e.dom, first + k, frames[k], rights);
          assert Value(id, has, tlb) == e;
          UnwindPages(first, k + 1, id, has, tlb);
          DropIdleGrants(frames, k + 1);
          return;
        }
      }
      return true;
    }

    /** Clear the entries of one frame, then drop it from the model. */
    method WithdrawOne(frame: nat) returns (any: bool)
      requires Valid()
      modifies Repr()
      ensures Valid()
      ensures domain.Value() == Revoking(old(domain.Value()), frame)
      ensures ViewOf(table[..]) == ClearedTable(old(ViewOf(table[..])), frame)
      ensures any <==> TouchesAny(old(ViewOf(table[..])), [frame])
    {
      hide Revoking, Decode;
      ghost var view := ViewOf(table[..]);
      any := ClearEntries(frame);
      ghost var words := table[..];
      var k := domain.RevokeFrame(frame);
      assert table[..] == words;
    }

    /** Zero every present entry that points at `frame`. */
    method ClearEntries(frame: nat) returns (any: bool)
      requires Valid()
      modifies table
      ensures ViewOf(table[..]) == ClearedTable(old(ViewOf(table[..])), frame)
      ensures any <==> TouchesAny(old(ViewOf(table[..])), [frame])
    {
      ghost var words := table[..];
      any := false;
      for a := 0 to L1_SLOTS
        invariant forall i :: 0 <= i < a ==>
                    Decode(table[i]) == if Points(words[i], frame) then Absent else Decode(words[i])
        invariant forall i :: a <= i < L1_SLOTS ==> table[i] == words[i]
        invariant any <==> exists i :: 0 <= i < a && Points(words[i], frame)
      {
        if table[a] % 2 == 1 && (table[a] / 0x1000) % FRAMES == frame {
          assert Points(words[a], frame);
          table[a] := 0;
          any := true;
        }
      }
      assert ViewOf(table[..]) == ClearedTable(ViewOf(words), frame);
      assert forall i :: 0 <= i < L1_SLOTS ==>
               (Points(words[i], frame) <==> ViewOf(words)[i].Present? && ViewOf(words)[i].frame in [frame]);
    }
  }

  predicate Points(pte: nat, frame: nat) {
    Decode(pte).Present? && Decode(pte).frame == frame
  }

  lemma {:induction false} ZeroIsAbsent()
    ensures Decode(0) == Absent
  {}

  lemma {:induction false} RefusedUnchanged(d: Dom, iova: nat, frame: nat, rights: Rights)
    requires !Verdict(d, MAP_ROOM, iova, frame, rights).Mapped?
    ensures Mapping(d, MAP_ROOM, iova, frame, rights) == d
  {}
}
