/** Queued synchronous endpoints: two bounded ring buffers, at most one of them in use. */
module Ipc {

  import opened Basics

  const MAX_WORDS := 8

  datatype MessageInfo = MessageInfo(tag: nat, length: nat)

  datatype BlockedSender = BlockedSender(tid: nat, msg: MessageInfo, words: seq<nat>)

  datatype IpcAction =
    | Deliver(to: nat, from: nat, msg: MessageInfo, words: seq<nat>, wakeSender: bool)
    | Block(tid: nat)
    | QueueFull(tid: nat)

  /** The first eight words, padded with zeros. */
  function CopyWords(src: seq<nat>): (buf: seq<nat>)
    ensures |buf| == MAX_WORDS
    ensures forall i :: 0 <= i < MAX_WORDS ==> buf[i] == if i < |src| then src[i] else 0
  {
    if |src| < MAX_WORDS then src + seq(MAX_WORDS - |src|, _ => 0) else src[..MAX_WORDS]
  }

  // ------------------------------------------------------------------- the endpoint as sequences

  /** Waiting senders, waiting receivers, and the capacity of each queue. */
  datatype Chan = Chan(senders: seq<BlockedSender>, receivers: seq<nat>, room: nat)

  datatype Op = Send(from: BlockedSender) | Recv(tid: nat)

  function Outcome(c: Chan, op: Op): IpcAction {
    match op
    case Send(s) =>
      if c.receivers != [] then Deliver(c.receivers[0], s.tid, s.msg, s.words, false)
      else if |c.senders| < c.room then Block(s.tid)
      else QueueFull(s.tid)
    case Recv(tid) =>
      if c.senders != [] then
        Deliver(tid, c.senders[0].tid, c.senders[0].msg, c.senders[0].words, true)
      else if |c.receivers| < c.room then Block(tid)
      else QueueFull(tid)
  }

  function After(c: Chan, op: Op): Chan {
    match op
    case Send(s) =>
      if c.receivers != [] then c.(receivers := c.receivers[1..])
      else if |c.senders| < c.room then c.(senders := c.senders + [s])
      else c
    case Recv(tid) =>
      if c.senders != [] then c.(senders := c.senders[1..])
      else if |c.receivers| < c.room then c.(receivers := c.receivers + [tid])
      else c
  }

  function Run(room: nat, ops: seq<Op>): Chan {
    if ops == [] then Chan([], [], room) else After(Run(room, ops[..|ops| - 1]), ops[|ops| - 1])
  }

  /** The sends that were not refused, in order. */
  function Sends(room: nat, ops: seq<Op>): seq<BlockedSender> {
    if ops == [] then []
    else
      var n := |ops| - 1;
      Sends(room, ops[..n])
      + if ops[n].Send? && !Outcome(Run(room, ops[..n]), ops[n]).QueueFull? then [ops[n].from] else []
  }

  /** The receives that were not refused, in order. */
  function Recvs(room: nat, ops: seq<Op>): seq<nat> {
    if ops == [] then []
    else
      var n := |ops| - 1;
      Recvs(room, ops[..n])
      + if ops[n].Recv? && !Outcome(Run(room, ops[..n]), ops[n]).QueueFull? then [ops[n].tid] else []
  }

  datatype Delivery = Delivery(to: nat, from: nat, msg: MessageInfo, words: seq<nat>)

  /** What was delivered, in order. */
  function Deliveries(room: nat, ops: seq<Op>): seq<Delivery> {
    if ops == [] then []
    else
      var n := |ops| - 1;
      var out := Outcome(Run(room, ops[..n]), ops[n]);
      Deliveries(room, ops[..n]) + if out.Deliver? then [Delivery(out.to, out.from, out.msg, out.words)] else []
  }

  ghost predicate Paired(c: Chan, s: seq<BlockedSender>, r: seq<nat>, d: seq<Delivery>) {
    && |d| <= |s| && |d| <= |r|
    && (forall k :: 0 <= k < |d| ==> d[k] == Delivery(r[k], s[k].tid, s[k].msg, s[k].words))
    && c.senders == s[|d|..] && c.receivers == r[|d|..]
    && (c.senders == [] || c.receivers == [])
    && |c.senders| <= c.room && |c.receivers| <= c.room
  }

  lemma {:induction false} PairedSend(c: Chan, s: seq<BlockedSender>, r: seq<nat>, d: seq<Delivery>, x: BlockedSender)
    requires Paired(c, s, r, d)
    ensures var out := Outcome(c, Send(x));
            Paired(After(c, Send(x)), if out.QueueFull? then s else s + [x], r,
                   if out.Deliver? then d + [Delivery(out.to, out.from, out.msg, out.words)] else d)
  {
    if c.receivers != [] {
      assert c.receivers[0] == r[|d|] && (s + [x])[|d|] == x;
    } else if |c.senders| < c.room {
      assert (s + [x])[|d|..] == s[|d|..] + [x];
    }
  }

  lemma {:induction false} PairedRecv(c: Chan, s: seq<BlockedSender>, r: seq<nat>, d: seq<Delivery>, tid: nat)
    requires Paired(c, s, r, d)
    ensures var out := Outcome(c, Recv(tid));
            Paired(After(c, Recv(tid)), s, if out.QueueFull? then r else r + [tid],
                   if out.Deliver? then d + [Delivery(out.to, out.from, out.msg, out.words)] else d)
  {
    if c.senders != [] {
      assert c.senders[0] == s[|d|] && (r + [tid])[|d|] == tid;
    } else if |c.receivers| < c.room {
      assert (r + [tid])[|d|..] == r[|d|..] + [tid];
    }
  }

  /** Over every run, the k-th delivery pairs the k-th accepted send with the k-th accepted
      receive, carrying the sender's own identity, header and words; whatever is accepted and not
      yet delivered is still waiting, in order, and only one side ever waits. */
  lemma {:induction false} FifoPairing(room: nat, ops: seq<Op>)
    ensures Paired(Run(room, ops), Sends(room, ops), Recvs(room, ops), Deliveries(room, ops))
    ensures Run(room, ops).room == room
  {
    if ops != [] {
      var n := |ops| - 1;
      FifoPairing(room, ops[..n]);
      var c, s, r, d := Run(room, ops[..n]), Sends(room, ops[..n]), Recvs(room, ops[..n]), Deliveries(room, ops[..n]);
      assert s + [] == s && r + [] == r && d + [] == d;
      match ops[n]
      case Send(x) => PairedSend(c, s, r, d, x);
      case Recv(tid) => PairedRecv(c, s, r, d, tid);
    }
  }

  // ------------------------------------------------------------------- the ring buffer

  /** Position `i` places after `head` in a ring of `n`. */
  function At(head: nat, i: nat, n: nat): nat {
    if head + i < n then head + i else head + i - n
  }

  lemma {:induction false} QuotientIs(q: int, r: int, x: nat, n: nat)
    requires 0 <= r < n && x == n * q + r && x < 2 * n
    ensures q == if x < n then 0 else 1
  {
  }

  lemma {:induction false} AtIsModulo(head: nat, i: nat, n: nat)
    requires head < n && i <= n
    ensures (head + i) % n == if i < n then At(head, i, n) else head
  {
    QuotientIs((head + i) / n, (head + i) % n, head + i, n);
  }

  class Queue<T> {
    const buf: array<Option<T>>
    var head: nat
    var len: nat
    /** The queued items, oldest first. */
    ghost var items: seq<T>

    ghost predicate Valid()
      reads this, buf
    {
      && len == |items| <= buf.Length
      && (if buf.Length == 0 then head == 0 else head < buf.Length)
      && (forall i :: 0 <= i < |items| ==> buf[At(head, i, buf.Length)] == Some(items[i]))
    }

    constructor (n: nat)
      ensures Valid() && items == [] && buf.Length == n
      ensures fresh(buf)
    {
      buf := new Option<T>[n](_ => None);
      head, len, items := 0, 0, [];
    }

    /** Enqueue, unless the queue is full. */
    method PushBack(v: T) returns (ok: bool)
      requires Valid()
      modifies this, buf
      ensures Valid()
      ensures ok <==> |old(items)| < buf.Length
      ensures items == if ok then old(items) + [v] else old(items)
    {
      if len == buf.Length {
        return false;
      }
      AtIsModulo(head, len, buf.Length);
      var idx := (head + len) % buf.Length;
      buf[idx] := Some(v);
      len := len + 1;
      items := items + [v];
      return true;
    }

    /** Dequeue the oldest item, if any. */
    method PopFront() returns (v: Option<T>)
      requires Valid()
      modifies this, buf
      ensures Valid()
      ensures if old(items) == [] then v == None && items == []
              else v == Some(old(items)[0]) && items == old(items)[1..]
    {
      if len == 0 {
        return None;
      }
      v := buf[head];
      assert buf[At(head, 0, buf.Length)] == Some(items[0]);
      AtIsModulo(head, 1, buf.Length);
      ghost var was := items;
      buf[head] := None;
      head := (head + 1) % buf.Length;
      len := len - 1;
      items := items[1..];
      forall i | 0 <= i < |items| ensures buf[At(head, i, buf.Length)] == Some(items[i]) {
        assert items[i] == was[i + 1];
      }
    }
  }

  // ------------------------------------------------------------------- the endpoint

  class Endpoint {
    const sendQ: Queue<BlockedSender>
    const recvQ: Queue<nat>

    ghost predicate Valid()
      reads this, sendQ, sendQ.buf, recvQ, recvQ.buf
    {
      && sendQ as object != recvQ && sendQ.buf as object != recvQ.buf
      && sendQ.Valid() && recvQ.Valid()
      && sendQ.buf.Length == recvQ.buf.Length
      && (sendQ.items == [] || recvQ.items == [])
    }

    ghost function Value(): Chan
      reads this, sendQ, sendQ.buf, recvQ, recvQ.buf
      requires Valid()
    {
      Chan(sendQ.items, recvQ.items, sendQ.buf.Length)
    }

    constructor (room: nat)
      ensures Valid() && Value() == Chan([], [], room)
    {
      sendQ := new Queue<BlockedSender>(room);
      recvQ := new Queue<nat>(room);
      new;
      assert sendQ as object != recvQ;
    }

    /** Deliver to a waiting receiver, or wait, or report that the queue is full. */
    method SendMessage(from: nat, msg: MessageInfo, words: seq<nat>) returns (act: IpcAction)
      requires Valid()
      modifies sendQ, sendQ.buf, recvQ, recvQ.buf
      ensures Valid()
      ensures act == Outcome(old(Value()), Send(BlockedSender(from, msg, CopyWords(words))))
      ensures Value() == After(old(Value()), Send(BlockedSender(from, msg, CopyWords(words))))
    {
      var buf := CopyWords(words);
      var to := recvQ.PopFront();
      if to.Some? {
        return Deliver(to.value, from, msg, buf, false);
      }
      var ok := sendQ.PushBack(BlockedSender(from, msg, buf));
      return if ok then Block(from) else QueueFull(from);
    }

    /** Take a waiting sender's message, or wait, or report that the queue is full. */
    method ReceiveMessage(tid: nat) returns (act: IpcAction)
      requires Valid()
      modifies sendQ, sendQ.buf, recvQ, recvQ.buf
      ensures Valid()
      ensures act == Outcome(old(Value()), Recv(tid))
      ensures Value() == After(old(Value()), Recv(tid))
    {
      var s := sendQ.PopFront();
      if s.Some? {
        return Deliver(tid, s.value.tid, s.value.msg, s.value.words, true);
      }
      var ok := recvQ.PushBack(tid);
      return if ok then Block(tid) else QueueFull(tid);
    }
  }
}
