/** The round-robin run queue: a duplicate-free sequence and a cursor. */
module Sched {
  import opened Basics
  import opened Seqs

  datatype RunQ = RunQ(q: seq<nat>, cur: nat)

  ghost predicate QueueOk(r: RunQ) {
    NoDup(r.q) && (r.q == [] ==> r.cur == 0) && (r.q != [] ==> r.cur < |r.q|)
  }

  /** Where `t` is queued, or the queue's length. */
  function Position(q: seq<nat>, t: nat): (k: nat)
    ensures k <= |q|
    ensures k < |q| ==> q[k] == t
    ensures k == |q| <==> t !in q
  {
    if q == [] then 0
    else if q[0] == t then 0
    else 1 + Position(q[1..], t)
  }

  lemma {:induction false} FirstAt(q: seq<nat>, t: nat, k: nat)
    requires k <= |q| && (forall j :: 0 <= j < k ==> q[j] != t) && (k < |q| ==> q[k] == t)
    ensures Position(q, t) == k
  {
    if k > 0 { FirstAt(q[1..], t, k - 1); }
  }

  function Add(r: RunQ, t: nat): RunQ {
    if t in r.q then r else r.(q := r.q + [t])
  }

  function Remove(r: RunQ, t: nat): RunQ {
    var k := Position(r.q, t);
    if k == |r.q| then r
    else
      var q := r.q[..k] + r.q[k + 1..];
      RunQ(q, if q == [] then 0 else if k < r.cur then r.cur - 1 else if r.cur >= |q| then 0 else r.cur)
  }

  function Next(r: RunQ): RunQ {
    if r.q == [] then r else r.(cur := if r.cur + 1 < |r.q| then r.cur + 1 else 0)
  }

  lemma {:induction false} AddOk(r: RunQ, t: nat)
    requires QueueOk(r)
    ensures QueueOk(Add(r, t)) && Add(r, t).cur == r.cur
    ensures forall x :: x in Add(r, t).q <==> x in r.q || x == t
    ensures r.q <= Add(r, t).q
  {}

  lemma {:induction false} CutAt(s: seq<nat>, k: nat)
    requires k < |s|
    ensures var q := s[..k] + s[k + 1..];
            |q| == |s| - 1 && forall j :: 0 <= j < |q| ==> q[j] == if j < k then s[j] else s[j + 1]
  {}

  lemma {:induction false} CutKeeps(s: seq<nat>, k: nat)
    requires k < |s| && NoDup(s)
    ensures NoDup(s[..k] + s[k + 1..])
    ensures forall x :: x in s[..k] + s[k + 1..] <==> x in s && x != s[k]
  {
    var q := s[..k] + s[k + 1..];
    CutAt(s, k);
    forall x | x in s && x != s[k] ensures x in q {
      var j :| 0 <= j < |s| && s[j] == x;
      assert q[if j < k then j else j - 1] == x;
    }
  }

  /** Removing keeps everyone else, and keeps the cursor on whoever is current unless that is who
      left. */
  lemma {:induction false} RemoveOk(r: RunQ, t: nat)
    requires QueueOk(r)
    ensures QueueOk(Remove(r, t))
    ensures forall x :: x in Remove(r, t).q <==> x in r.q && x != t
    ensures var u := Remove(r, t); r.q != [] && r.q[r.cur] != t ==> u.q != [] && u.cur < |u.q| && u.q[u.cur] == r.q[r.cur]
  {
    hide NoDup;
    var k := Position(r.q, t);
    if k < |r.q| {
      CutKeeps(r.q, k);
      CutAt(r.q, k);
    }
  }

  lemma {:induction false} NextOk(r: RunQ)
    requires QueueOk(r)
    ensures QueueOk(Next(r)) && Next(r).q == r.q
  {}

  /** The cursor after `n` turns. */
  function Turns(r: RunQ, n: nat): RunQ {
    if n == 0 then r else Next(Turns(r, n - 1))
  }

  lemma {:induction false} TurnsAt(r: RunQ, n: nat)
    requires QueueOk(r) && r.q != [] && n <= |r.q|
    ensures Turns(r, n).q == r.q
    ensures Turns(r, n).cur == if r.cur + n < |r.q| then r.cur + n else r.cur + n - |r.q|
  {
    if n > 0 { TurnsAt(r, n - 1); }
  }

  /** Over one lap every queued thread gets exactly one turn. */
  lemma {:induction false} RoundRobin(r: RunQ, k: nat) returns (n: nat)
    requires QueueOk(r) && k < |r.q|
    ensures 0 < n <= |r.q| && Turns(r, n).cur == k
    ensures forall m :: 0 < m <= |r.q| && m != n ==> Turns(r, m).cur != k
  {
    n := if k > r.cur then k - r.cur else k + |r.q| - r.cur;
    forall m | 0 < m <= |r.q| ensures Turns(r, m).cur == if r.cur + m < |r.q| then r.cur + m else r.cur + m - |r.q| {
      TurnsAt(r, m);
    }
  }

  // ------------------------------------------------------------------- the queue itself

  function Threads(slots: seq<Option<nat>>): (q: seq<nat>)
    ensures |q| == |slots| && forall i :: 0 <= i < |slots| && slots[i].Some? ==> slots[i] == Some(q[i])
  {
    seq(|slots|, i requires 0 <= i < |slots| => if slots[i].Some? then slots[i].value else 0)
  }

  /** The threads occupy the first `len` slots in order of arrival; `cur` is the current one. */
  class Scheduler {
    const slots: array<Option<nat>>
    var len: nat
    var cur: nat

    ghost predicate Valid()
      reads this, slots
    {
      && len <= slots.Length && (len == 0 ==> cur == 0) && (len > 0 ==> cur < len)
      && forall i :: 0 <= i < slots.Length ==> (slots[i].Some? <==> i < len)
    }

    ghost function Value(): (r: RunQ)
      requires Valid()
      reads this, slots
      ensures |r.q| == len && r.cur == cur && forall i :: 0 <= i < len ==> slots[i] == Some(r.q[i])
    {
      RunQ(Threads(slots[..len]), cur)
    }

    constructor (n: nat)
      ensures Valid() && fresh(slots) && slots.Length == n && Value() == RunQ([], 0)
    {
      slots := new Option<nat>[n](_ => None);
      len, cur := 0, 0;
    }

    /** Where a thread is queued, or the queue's length. */
    method Find(t: nat) returns (k: nat)
      requires Valid()
      ensures k == Position(Value().q, t) && k <= len
    {
      k := 0;
      while k < len && slots[k].value != t
        invariant k <= len && forall j :: 0 <= j < k ==> Value().q[j] != t
      {
        k := k + 1;
      }
      FirstAt(Value().q, t, k);
    }

    /** Queue a thread at the tail, unless it is there already or there is no room. */
    method Enqueue(t: nat) returns (ok: bool)
      requires Valid()
      modifies this`len, slots
      ensures Valid() && ok == (old(len) < slots.Length && t !in old(Value()).q)
      ensures Value() == if ok then Add(old(Value()), t) else old(Value())
    {
      ghost var was := Value();
      var k := Find(t);
      if len == slots.Length || k < len {
        return false;
      }
      slots[len] := Some(t);
      len := len + 1;
      assert Value().q == was.q + [t];
      return true;
    }

    /** Whose turn it is. */
    method Current() returns (t: Option<nat>)
      requires Valid()
      ensures t == if Value().q == [] then None else Some(Value().q[Value().cur])
    {
      t := if len == 0 then None else slots[cur];
    }

    /** Pass the turn to the next thread in the lap. */
    method Advance() returns (t: Option<nat>)
      requires Valid()
      modifies this`cur
      ensures Valid() && Value() == Next(old(Value()))
      ensures t == if Value().q == [] then None else Some(Value().q[Value().cur])
    {
      if len == 0 {
        return None;
      }
      ghost var was := Value();
      cur := if cur + 1 == len then 0 else cur + 1;
      assert Value().q == was.q;
      t := Current();
    }

    /** Shift the tail down over slot `k`. */
    method CloseGap(k: nat)
      requires Valid() && k < len
      modifies slots
      ensures forall j :: 0 <= j < slots.Length && !(k <= j < len - 1) ==> slots[j] == old(slots[j])
      ensures forall j :: k <= j < len - 1 ==> slots[j] == old(slots[j + 1])
    {
      for i := k to len - 1
        invariant forall j :: 0 <= j < slots.Length && !(k <= j < i) ==> slots[j] == old(slots[j])
        invariant forall j :: k <= j < i ==> slots[j] == old(slots[j + 1])
      {
        slots[i] := slots[i + 1];
      }
    }

    /** Slot `k` is gone from the occupied ones. */
    method Vacate(k: nat)
      requires Valid() && k < len
      modifies this`len, slots
      ensures len == old(len) - 1 && forall i :: 0 <= i < slots.Length ==> (slots[i].Some? <==> i < len)
      ensures Threads(slots[..len]) == old(Value().q[..k] + Value().q[k + 1..])
    {
      ghost var q := Value().q;
      CloseGap(k);
      CutAt(q, k);
      len := len - 1;
      slots[len] := None;
      assert forall j :: 0 <= j < len ==> slots[j] == Some((q[..k] + q[k + 1..])[j]);
    }

    /** Take a thread out of the queue, keeping the cursor on a queued thread. */
    method Dequeue(t: nat) returns (ok: bool)
      requires Valid()
      modifies this, slots
      ensures Valid() && ok == (t in old(Value()).q) && Value() == Remove(old(Value()), t)
    {
      var k := Find(t);
      if k == len {
        return false;
      }
      Vacate(k);
      if len == 0 {
        cur := 0;
      } else if k < cur {
        cur := cur - 1;
      } else if cur >= len {
        cur := 0;
      }
      return true;
    }
  }
}
