/** Flat capability spaces, and the authority questions asked of them. */
module Capabilities {
  import opened Abi
  import opened Basics

  /** A slot is free exactly when its type is `Null`. */
  datatype Cap = Cap(ty: CapType, rights: Rights, obj: nat)

  const EMPTY_CAP := Cap(Null, NONE, 0)

  function FirstFree(caps: seq<Cap>): (i: nat)
    ensures i <= |caps|
    ensures i < |caps| ==> caps[i].ty == Null
    ensures forall j :: 0 <= j < i ==> caps[j].ty != Null
  {
    if caps == [] || caps[0].ty == Null then 0
    else
      var r := FirstFree(caps[1..]);
      assert forall j :: 1 <= j < r + 1 ==> caps[j] == caps[1..][j - 1];
      1 + r
  }

  function Lookup(caps: seq<Cap>, c: nat): Option<Cap> {
    if c < |caps| && caps[c].ty != Null then Some(caps[c]) else None
  }

  predicate CanInsert(caps: seq<Cap>, cap: Cap) {
    cap.ty != Null && FirstFree(caps) < |caps|
  }

  function Inserted(caps: seq<Cap>, cap: Cap): seq<Cap> {
    if CanInsert(caps, cap) then caps[FirstFree(caps) := cap] else caps
  }

  function Emptied(caps: seq<Cap>, c: nat): seq<Cap> {
    if c < |caps| then caps[c := EMPTY_CAP] else caps
  }

  /** Some slot carries this type, this object, and at least these rights. */
  predicate Holds(caps: seq<Cap>, ty: CapType, obj: nat, need: Rights) {
    exists i :: 0 <= i < |caps| && caps[i].ty == ty && caps[i].obj == obj && Contains(caps[i].rights, need)
  }

  predicate HoldsMmio(caps: seq<Cap>) {
    exists i :: 0 <= i < |caps| && caps[i].ty == Mmio && Contains(caps[i].rights, READ)
  }

  /** The object a slot names, if it has the right type and at least these rights. */
  function ObjectOf(caps: seq<Cap>, c: nat, ty: CapType, need: Rights): (r: Option<nat>)
    ensures r.Some? && ty != Null ==> Holds(caps, ty, r.value, need)
  {
    if c < |caps| && caps[c].ty == ty != Null && Contains(caps[c].rights, need) then Some(caps[c].obj) else None
  }

  /** Emptying a slot takes away authority only over what that slot named. */
  lemma {:induction false} EmptiedKeeps(caps: seq<Cap>, c: nat, ty: CapType, obj: nat, need: Rights)
    requires ty != Null
    ensures Holds(Emptied(caps, c), ty, obj, need) ==> Holds(caps, ty, obj, need)
    ensures c < |caps| && (caps[c].ty != ty || caps[c].obj != obj) ==>
              (Holds(Emptied(caps, c), ty, obj, need) <==> Holds(caps, ty, obj, need))
  {
    var t := Emptied(caps, c);
    if Holds(t, ty, obj, need) {
      var i :| 0 <= i < |t| && t[i].ty == ty && t[i].obj == obj && Contains(t[i].rights, need);
      assert caps[i] == t[i];
    }
    if c < |caps| && (caps[c].ty != ty || caps[c].obj != obj) && Holds(caps, ty, obj, need) {
      var i :| 0 <= i < |caps| && caps[i].ty == ty && caps[i].obj == obj && Contains(caps[i].rights, need);
      assert t[i] == caps[i];
    }
  }

  /** A freed slot is exactly the empty one, so whatever is inserted there later carries nothing
      of its predecessor; a new capability goes to the lowest free slot, disturbing no other. */
  lemma {:induction false} InsertAfterRevoke(caps: seq<Cap>, c: nat, cap: Cap)
    requires c < |caps| && caps[c].ty != Null && cap.ty != Null
    requires forall j :: 0 <= j < c ==> caps[j].ty != Null
    ensures var t := Inserted(Emptied(caps, c), cap);
            && Lookup(t, c) == Some(cap)
            && forall j :: 0 <= j < |caps| && j != c ==> Lookup(t, j) == Lookup(caps, j)
  {
    var e := Emptied(caps, c);
    var f := FirstFree(e);
    assert e[c].ty == Null;
    assert f < |e| ==> e[f].ty == Null;
  }

  class CapSpace {
    const slots: array<Cap>

    constructor (n: nat)
      ensures fresh(slots) && slots.Length == n
      ensures forall i :: 0 <= i < n ==> slots[i] == EMPTY_CAP
    {
      slots := new Cap[n](_ => EMPTY_CAP);
    }

    /** Put a capability in the first free slot; refuse `Null` and a full space. */
    method Insert(cap: Cap) returns (id: Option<nat>)
      modifies slots
      ensures slots[..] == Inserted(old(slots[..]), cap)
      ensures id == if CanInsert(old(slots[..]), cap) then Some(FirstFree(old(slots[..]))) else None
    {
      if cap.ty == Null {
        return None;
      }
      var i := 0;
      while i < slots.Length && slots[i].ty != Null
        invariant i <= slots.Length
        invariant forall j :: 0 <= j < i ==> slots[j].ty != Null
      {
        i := i + 1;
      }
      ghost var f := FirstFree(slots[..]);
      assert f < slots.Length ==> slots[f].ty == Null;
      assert i < slots.Length ==> slots[..][i].ty == Null;
      if i == slots.Length {
        return None;
      }
      slots[i] := cap;
      return Some(i);
    }

    method Find(c: nat) returns (r: Option<Cap>)
      ensures r == Lookup(slots[..], c)
    {
      return if c < slots.Length && slots[c].ty != Null then Some(slots[c]) else None;
    }

    /** Empty exactly the named slot. */
    method Revoke(c: nat)
      modifies slots
      ensures slots[..] == Emptied(old(slots[..]), c)
    {
      if c < slots.Length {
        slots[c] := EMPTY_CAP;
      }
    }

    /** The scan behind every authority predicate. */
    method HoldsCheck(ty: CapType, obj: nat, need: Rights) returns (b: bool)
      requires ty != Null
      ensures b <==> Holds(slots[..], ty, obj, need)
    {
      for i := 0 to slots.Length
        invariant forall j :: 0 <= j < i ==>
                    !(slots[j].ty == ty && slots[j].obj == obj && Contains(slots[j].rights, need))
      {
        var slot := Find(i);
        if slot.Some? && slot.value.ty == ty && slot.value.obj == obj && Contains(slot.value.rights, need) {
          assert slots[..][i] == slot.value;
          return true;
        }
      }
      return false;
    }
  }
}
