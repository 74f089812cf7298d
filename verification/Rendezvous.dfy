/** The kernel's own SEND and RECV: unbuffered rendezvous over a table of processes, with a payload
    that is parked with a blocked sender or held for a receiver whose address space is inactive. */
module Rendezvous {
  import opened Abi

  datatype PState =
    | Free
    | Ready
    | BlockedSend(ep: nat, word: nat, len: nat)
    | BlockedRecv(ep: nat, dst: nat, max: nat)
    | BlockedIrq(line: nat)

  /** One process-table slot, as far as message passing is concerned: its saved return registers,
      its kernel payload buffer, a copy still owed to its memory, and which event of the history
      the buffer belongs to. */
  datatype Port = Port(id: nat, state: PState, msg: seq<nat>, dst: nat, pending: nat,
                       r0: nat, r1: nat, r2: nat, tag: nat)

  /** An accepted SEND, with the sender's memory at its buffer as it was at the call. */
  datatype Sent = Sent(from: nat, ep: nat, word: nat, len: nat, mem: seq<nat>)

  /** One sender and one receiver meeting. */
  datatype Match = Match(send: nat, to: nat, ep: nat, max: nat)

  /** What a RECV returned, and to whom: status, word and count, and the bytes put in the receiver's
      memory. */
  datatype Receipt = Receipt(of: nat, to: nat, status: nat, word: nat, count: nat, bytes: seq<nat>)

  /** The table, and the history of the three kinds of event. */
  datatype Rv = Rv(ports: seq<Port>, sends: seq<Sent>, matches: seq<Match>, receipts: seq<Receipt>)

  function Min(a: nat, b: nat): nat {
    if a < b then a else b
  }

  /** The first `n` bytes of the buffer are overwritten. */
  function Filled(msg: seq<nat>, bytes: seq<nat>): seq<nat> {
    if |bytes| <= |msg| then bytes + msg[|bytes|..] else msg
  }

  // ------------------------------------------------------------------- finding a peer

  /** The first process blocked receiving on `ep`, or the table length. */
  function FindRecv(ports: seq<Port>, ep: nat): (i: nat)
    ensures i <= |ports|
    ensures i < |ports| ==> ports[i].state.BlockedRecv? && ports[i].state.ep == ep
    ensures forall j :: 0 <= j < i ==> !(ports[j].state.BlockedRecv? && ports[j].state.ep == ep)
  {
    if ports == [] then 0
    else
      var i := FindRecv(ports[..|ports| - 1], ep);
      var last := ports[|ports| - 1];
      if i < |ports| - 1 || (last.state.BlockedRecv? && last.state.ep == ep) then i else |ports|
  }

  /** The first process blocked sending on `ep`, or the table length. */
  function FindSend(ports: seq<Port>, ep: nat): (i: nat)
    ensures i <= |ports|
    ensures i < |ports| ==> ports[i].state.BlockedSend? && ports[i].state.ep == ep
    ensures forall j :: 0 <= j < i ==> !(ports[j].state.BlockedSend? && ports[j].state.ep == ep)
  {
    if ports == [] then 0
    else
      var i := FindSend(ports[..|ports| - 1], ep);
      var last := ports[|ports| - 1];
      if i < |ports| - 1 || (last.state.BlockedSend? && last.state.ep == ep) then i else |ports|
  }

  // ------------------------------------------------------------------- the invariant

  /** A blocked sender's payload sits untouched in its buffer, and nobody has taken it. */
  ghost predicate ParkedOk(p: Port, sends: seq<Sent>, matches: seq<Match>) {
    p.state.BlockedSend? ==>
      && p.pending == 0 && p.state.len <= |p.msg|
      && p.tag < |sends|
      && sends[p.tag].from == p.id && sends[p.tag].ep == p.state.ep && sends[p.tag].word == p.state.word
      && sends[p.tag].len == p.state.len <= |sends[p.tag].mem|
      && p.msg[..p.state.len] == sends[p.tag].mem[..p.state.len]
      && forall k :: 0 <= k < |matches| ==> matches[k].send != p.tag
  }

  /** The bytes a match is to deliver: as many as the receiver has room for. */
  function Delivered(s: Sent, max: nat): seq<nat> {
    if Min(s.len, max) <= |s.mem| then s.mem[..Min(s.len, max)] else s.mem
  }

  /** A copy still owed is the payload of one match nobody has had a receipt for, and the receiver's
      registers already say so. */
  ghost predicate OwedOk(p: Port, sends: seq<Sent>, matches: seq<Match>, receipts: seq<Receipt>) {
    !p.state.Free? && p.pending > 0 ==>
      && p.state.Ready? && p.pending <= |p.msg|
      && p.tag < |matches| && matches[p.tag].to == p.id && matches[p.tag].send < |sends|
      && var s := sends[matches[p.tag].send];
      && p.msg[..p.pending] == Delivered(s, matches[p.tag].max)
      && p.r0 == OK && p.r1 == s.word && p.r2 == p.pending
      && forall k :: 0 <= k < |receipts| ==> receipts[k].of != p.tag
  }

  ghost predicate PortOk(p: Port, sends: seq<Sent>, matches: seq<Match>, receipts: seq<Receipt>) {
    && |p.msg| == MAX_MSG_BYTES
    && ParkedOk(p, sends, matches)
    && OwedOk(p, sends, matches, receipts)
    && (p.state.BlockedRecv? ==> p.state.max <= MAX_MSG_BYTES && p.pending == 0)
    && (p.state.BlockedIrq? ==> p.pending == 0)
  }

  /** Each match joins a SEND and a RECV on one endpoint, and takes a SEND nobody else took. */
  ghost predicate MatchesOk(sends: seq<Sent>, matches: seq<Match>) {
    && (forall k :: 0 <= k < |matches| ==>
          matches[k].send < |sends| && sends[matches[k].send].ep == matches[k].ep
          && Min(sends[matches[k].send].len, matches[k].max) <= |sends[matches[k].send].mem|)
    && (forall j, k :: 0 <= j < k < |matches| ==> matches[j].send != matches[k].send)
  }

  /** Each receipt is of a different match, and carries its word and exactly its bytes, unless the
      receiver's own memory refused them. */
  ghost predicate ReceiptsOk(sends: seq<Sent>, matches: seq<Match>, receipts: seq<Receipt>) {
    && (forall k :: 0 <= k < |receipts| ==>
          && receipts[k].of < |matches| && matches[receipts[k].of].send < |sends|
          && var s := sends[matches[receipts[k].of].send];
          && receipts[k].to == matches[receipts[k].of].to && receipts[k].word == s.word
          && if receipts[k].status == OK
             then receipts[k].bytes == Delivered(s, matches[receipts[k].of].max) && receipts[k].count == |receipts[k].bytes|
             else receipts[k].status == FAULT && receipts[k].bytes == [] && receipts[k].count == 0)
    && (forall j, k :: 0 <= j < k < |receipts| ==> receipts[j].of != receipts[k].of)
  }

  /** This process is still owed the payload of match `m`. */
  predicate Owes(p: Port, m: nat) {
    !p.state.Free? && p.pending > 0 && p.tag == m
  }

  predicate Receipted(receipts: seq<Receipt>, m: nat) {
    exists k :: 0 <= k < |receipts| && receipts[k].of == m
  }

  /** No match is forgotten: its receiver has its receipt, or is still owed it. */
  ghost predicate Answered(ports: seq<Port>, matches: seq<Match>, receipts: seq<Receipt>) {
    forall m :: 0 <= m < |matches| ==> Receipted(receipts, m) || exists i :: 0 <= i < |ports| && Owes(ports[i], m)
  }

  /** No endpoint has a sender and a receiver waiting for each other. */
  ghost predicate OneSided(ports: seq<Port>) {
    forall i, j :: 0 <= i < |ports| && 0 <= j < |ports| && ports[i].state.BlockedSend? && ports[j].state.BlockedRecv? ==>
      ports[i].state.ep != ports[j].state.ep
  }

  /** No two processes hold the same event's payload. */
  ghost predicate TagsDistinct(ports: seq<Port>) {
    forall i, j :: 0 <= i < j < |ports| ==>
      && !(ports[i].state.BlockedSend? && ports[j].state.BlockedSend? && ports[i].tag == ports[j].tag)
      && !(!ports[i].state.Free? && !ports[j].state.Free? && ports[i].pending > 0 && ports[j].pending > 0 && ports[i].tag == ports[j].tag)
  }

  ghost predicate Sound(rv: Rv) {
    && (forall i :: 0 <= i < |rv.ports| ==> PortOk(rv.ports[i], rv.sends, rv.matches, rv.receipts))
    && MatchesOk(rv.sends, rv.matches)
    && ReceiptsOk(rv.sends, rv.matches, rv.receipts)
    && OneSided(rv.ports) && TagsDistinct(rv.ports)
    && Answered(rv.ports, rv.matches, rv.receipts)
  }

  /** Going on from `rv` to `o`, no receipt is lost, whoever is owed a payload still is or has its
      receipt, and every new match has its receipt or is owed. */
  lemma {:induction false} StillAnswered(rv: Rv, o: Rv)
    requires Answered(rv.ports, rv.matches, rv.receipts)
    requires |o.ports| == |rv.ports| && rv.matches <= o.matches && rv.receipts <= o.receipts
    requires forall i :: 0 <= i < |rv.ports| && o.ports[i] != rv.ports[i] && Owes(rv.ports[i], rv.ports[i].tag) ==>
               Receipted(o.receipts, rv.ports[i].tag)
    requires forall m :: |rv.matches| <= m < |o.matches| ==>
               Receipted(o.receipts, m) || exists i :: 0 <= i < |o.ports| && Owes(o.ports[i], m)
    ensures Answered(o.ports, o.matches, o.receipts)
  {
    forall m | 0 <= m < |o.matches|
      ensures Receipted(o.receipts, m) || exists i :: 0 <= i < |o.ports| && Owes(o.ports[i], m)
    {
      if m < |rv.matches| {
        if Receipted(rv.receipts, m) {
          var k :| 0 <= k < |rv.receipts| && rv.receipts[k].of == m;
          assert o.receipts[k] == rv.receipts[k];
        } else {
          var i :| 0 <= i < |rv.ports| && Owes(rv.ports[i], m);
          if o.ports[i] == rv.ports[i] { assert Owes(o.ports[i], m); }
        }
      }
    }
  }

  // ------------------------------------------------------------------- quiet changes

  /** A process that is neither a waiting sender nor a waiting receiver afterwards, and is owed
      nothing: waking, dying, blocking for an interrupt, being loaded, or just getting a result. */
  ghost predicate Calm(p: Port) {
    |p.msg| == MAX_MSG_BYTES && !p.state.BlockedSend? && !p.state.BlockedRecv? && (p.state.Free? || p.pending == 0)
  }

  lemma {:induction false} CalmSound(rv: Rv, i: nat, p: Port)
    requires Sound(rv) && i < |rv.ports| && Calm(p)
    requires rv.ports[i].state.Free? || rv.ports[i].pending == 0
    ensures Sound(rv.(ports := rv.ports[i := p]))
  {
    hide MatchesOk, ReceiptsOk, Delivered, Answered;
    StillAnswered(rv, rv.(ports := rv.ports[i := p]));
  }

  // ------------------------------------------------------------------- SEND

  /** A receiver is waiting: the payload goes to its kernel buffer, to be copied out when it next
      runs; the sender is done. */
  function SendMatched(rv: Rv, s: nat, r: nat, word: nat, len: nat, mem: seq<nat>): Rv
    requires s < |rv.ports| && r < |rv.ports| && rv.ports[r].state.BlockedRecv?
  {
    var p := rv.ports[r];
    var ep, max := p.state.ep, p.state.max;
    var n := Min(len, max);
    var bytes := if n <= |mem| then mem[..n] else mem;
    var q := p.(state := Ready, msg := Filled(p.msg, bytes), dst := p.state.dst, pending := n,
                r0 := OK, r1 := word, r2 := n, tag := |rv.matches|);
    var ports := rv.ports[r := q];
    Rv(ports[s := ports[s].(r0 := OK)],
       rv.sends + [Sent(rv.ports[s].id, ep, word, len, mem)],
       rv.matches + [Match(|rv.sends|, p.id, ep, max)],
       if n == 0 then rv.receipts + [Receipt(|rv.matches|, p.id, OK, word, 0, [])] else rv.receipts)
  }

  /** Nobody is waiting: the payload is parked with the sender, who blocks. */
  function SendParked(rv: Rv, s: nat, ep: nat, word: nat, len: nat, mem: seq<nat>): Rv
    requires s < |rv.ports|
  {
    var p := rv.ports[s];
    var bytes := if len <= |mem| then mem[..len] else mem;
    rv.(ports := rv.ports[s := p.(state := BlockedSend(ep, word, len), msg := Filled(p.msg, bytes), tag := |rv.sends|)],
        sends := rv.sends + [Sent(p.id, ep, word, len, mem)])
  }

  lemma {:induction false} FilledPrefix(msg: seq<nat>, bytes: seq<nat>)
    requires |bytes| <= |msg|
    ensures |Filled(msg, bytes)| == |msg| && Filled(msg, bytes)[..|bytes|] == bytes
  {}

  lemma {:induction false} SendMatchedSound(rv: Rv, s: nat, r: nat, word: nat, len: nat, mem: seq<nat>)
    requires Sound(rv) && s < |rv.ports| && r < |rv.ports| && s != r
    requires rv.ports[s].state.Ready? && rv.ports[s].pending == 0
    requires rv.ports[r].state.BlockedRecv? && Min(len, rv.ports[r].state.max) <= |mem|
    ensures Sound(SendMatched(rv, s, r, word, len, mem))
  {
    hide Filled, Answered;
    var o := SendMatched(rv, s, r, word, len, mem);
    var max := rv.ports[r].state.max;
    FilledPrefix(rv.ports[r].msg, mem[..Min(len, max)]);
    SendMatchedAnswered(rv, s, r, word, len, mem);
    assert Delivered(o.sends[|rv.sends|], max) == mem[..Min(len, max)];
    SendMatchedPorts(rv, o, s, r, word, len, mem);
    SendMatchedLogs(rv, o, s, r, word, len, mem);
  }

  lemma {:induction false} SendMatchedAnswered(rv: Rv, s: nat, r: nat, word: nat, len: nat, mem: seq<nat>)
    requires Sound(rv) && s < |rv.ports| && r < |rv.ports| && s != r
    requires rv.ports[s].state.Ready? && rv.ports[s].pending == 0 && rv.ports[r].state.BlockedRecv?
    ensures var o := SendMatched(rv, s, r, word, len, mem); Answered(o.ports, o.matches, o.receipts)
  {
    hide MatchesOk, ReceiptsOk, Delivered, Filled, Answered, OneSided, TagsDistinct, ParkedOk, OwedOk;
    var o := SendMatched(rv, s, r, word, len, mem);
    assert PortOk(rv.ports[r], rv.sends, rv.matches, rv.receipts);
    if Min(len, rv.ports[r].state.max) == 0 {
      assert o.receipts[|rv.receipts|].of == |rv.matches|;
    } else {
      assert Owes(o.ports[r], |rv.matches|);
    }
    StillAnswered(rv, o);
  }

  lemma {:induction false} SendMatchedPorts(rv: Rv, o: Rv, s: nat, r: nat, word: nat, len: nat, mem: seq<nat>)
    requires Sound(rv) && s < |rv.ports| && r < |rv.ports| && s != r
    requires rv.ports[s].state.Ready? && rv.ports[s].pending == 0
    requires rv.ports[r].state.BlockedRecv? && Min(len, rv.ports[r].state.max) <= |mem|
    requires o == SendMatched(rv, s, r, word, len, mem)
    ensures forall i :: 0 <= i < |o.ports| ==> PortOk(o.ports[i], o.sends, o.matches, o.receipts)
    ensures OneSided(o.ports) && TagsDistinct(o.ports)
  {
    hide MatchesOk, Delivered, Filled;
    var max := rv.ports[r].state.max;
    FilledPrefix(rv.ports[r].msg, mem[..Min(len, max)]);
    DeliveredIs(Sent(rv.ports[s].id, rv.ports[r].state.ep, word, len, mem), max);
    forall i | 0 <= i < |o.ports| ensures PortOk(o.ports[i], o.sends, o.matches, o.receipts) {
      if i != r && i != s { PortGrows(rv.ports[i], rv, o); }
    }
  }

  lemma {:induction false} DeliveredIs(s: Sent, max: nat)
    requires Min(s.len, max) <= |s.mem|
    ensures Delivered(s, max) == s.mem[..Min(s.len, max)]
  {}

  /** A bystander is undisturbed when the history grows without touching its own event. */
  lemma {:induction false} PortGrows(p: Port, rv: Rv, o: Rv)
    requires PortOk(p, rv.sends, rv.matches, rv.receipts)
    requires rv.sends <= o.sends && rv.matches <= o.matches && rv.receipts <= o.receipts
    requires forall k :: |rv.matches| <= k < |o.matches| ==> !(p.state.BlockedSend? && o.matches[k].send == p.tag)
    requires forall k :: |rv.receipts| <= k < |o.receipts| ==> !(!p.state.Free? && p.pending > 0 && o.receipts[k].of == p.tag)
    ensures PortOk(p, o.sends, o.matches, o.receipts)
  {
    hide Delivered;
    assert forall k :: 0 <= k < |rv.sends| ==> o.sends[k] == rv.sends[k];
    assert forall k :: 0 <= k < |rv.matches| ==> o.matches[k] == rv.matches[k];
    assert forall k :: 0 <= k < |rv.receipts| ==> o.receipts[k] == rv.receipts[k];
  }

  lemma {:induction false} SendMatchedLogs(rv: Rv, o: Rv, s: nat, r: nat, word: nat, len: nat, mem: seq<nat>)
    requires Sound(rv) && s < |rv.ports| && r < |rv.ports|
    requires rv.ports[r].state.BlockedRecv? && Min(len, rv.ports[r].state.max) <= |mem|
    requires o == SendMatched(rv, s, r, word, len, mem)
    ensures MatchesOk(o.sends, o.matches) && ReceiptsOk(o.sends, o.matches, o.receipts)
  {
    hide PortOk, OneSided, TagsDistinct, Delivered, Filled;
    DeliveredIs(o.sends[|rv.sends|], rv.ports[r].state.max);
    forall k | 0 <= k < |o.matches|
      ensures o.matches[k].send < |o.sends| && o.sends[o.matches[k].send].ep == o.matches[k].ep
    {
      if k < |rv.matches| { assert o.matches[k] == rv.matches[k]; }
    }
    forall k | 0 <= k < |rv.receipts| ensures o.receipts[k] == rv.receipts[k] {}
  }

  lemma {:induction false} SendParkedSound(rv: Rv, s: nat, ep: nat, word: nat, len: nat, mem: seq<nat>)
    requires Sound(rv) && s < |rv.ports| && rv.ports[s].state.Ready? && rv.ports[s].pending == 0
    requires len <= MAX_MSG_BYTES && len <= |mem|
    requires forall j :: 0 <= j < |rv.ports| ==> !(rv.ports[j].state.BlockedRecv? && rv.ports[j].state.ep == ep)
    ensures Sound(SendParked(rv, s, ep, word, len, mem))
  {
    hide Delivered, Filled, Answered;
    var o := SendParked(rv, s, ep, word, len, mem);
    StillAnswered(rv, o);
    FilledPrefix(rv.ports[s].msg, mem[..len]);
    forall i | 0 <= i < |o.ports| ensures PortOk(o.ports[i], o.sends, o.matches, o.receipts) {
      if i != s { PortGrows(rv.ports[i], rv, o); }
    }
    forall k | 0 <= k < |rv.sends| ensures o.sends[k] == rv.sends[k] {}
  }

  // ------------------------------------------------------------------- RECV

  /** A sender is waiting: its parked payload goes straight to the receiver. */
  function RecvMatched(rv: Rv, r: nat, s: nat, max: nat): Rv
    requires s < |rv.ports| && r < |rv.ports| && rv.ports[s].state.BlockedSend?
  {
    var q := rv.ports[s];
    var n := Min(q.state.len, max);
    var ports := rv.ports[r := rv.ports[r].(r0 := OK, r1 := q.state.word, r2 := n)];
    Rv(ports[s := ports[s].(state := Ready, r0 := OK)],
       rv.sends,
       rv.matches + [Match(q.tag, rv.ports[r].id, q.state.ep, max)],
       rv.receipts + [Receipt(|rv.matches|, rv.ports[r].id, OK, q.state.word, n, if n <= |q.msg| then q.msg[..n] else q.msg)])
  }

  /** Nobody is waiting: the receiver blocks, offering its buffer. */
  function RecvParked(rv: Rv, r: nat, ep: nat, dst: nat, max: nat): Rv
    requires r < |rv.ports|
  {
    rv.(ports := rv.ports[r := rv.ports[r].(state := BlockedRecv(ep, dst, max))])
  }

  lemma {:induction false} RecvMatchedSound(rv: Rv, r: nat, s: nat, max: nat)
    requires Sound(rv) && s < |rv.ports| && r < |rv.ports| && s != r
    requires rv.ports[r].state.Ready? && rv.ports[r].pending == 0 && rv.ports[s].state.BlockedSend?
    ensures Sound(RecvMatched(rv, r, s, max))
  {
    hide PortOk, MatchesOk, ReceiptsOk, OneSided, TagsDistinct, Answered;
    RecvMatchedAnswered(rv, r, s, max);
    RecvMatchedPorts(rv, r, s, max);
    RecvMatchedLogs(rv, r, s, max);
  }

  lemma {:induction false} RecvMatchedAnswered(rv: Rv, r: nat, s: nat, max: nat)
    requires Sound(rv) && s < |rv.ports| && r < |rv.ports| && s != r
    requires rv.ports[r].state.Ready? && rv.ports[r].pending == 0 && rv.ports[s].state.BlockedSend?
    ensures var o := RecvMatched(rv, r, s, max); Answered(o.ports, o.matches, o.receipts)
  {
    hide MatchesOk, ReceiptsOk, Delivered, Filled, Answered, OneSided, TagsDistinct, OwedOk;
    var o := RecvMatched(rv, r, s, max);
    assert PortOk(rv.ports[s], rv.sends, rv.matches, rv.receipts);
    assert o.receipts[|rv.receipts|].of == |rv.matches|;
    StillAnswered(rv, o);
  }

  lemma {:induction false} RecvMatchedPorts(rv: Rv, r: nat, s: nat, max: nat)
    requires Sound(rv) && s < |rv.ports| && r < |rv.ports| && s != r
    requires rv.ports[r].state.Ready? && rv.ports[r].pending == 0 && rv.ports[s].state.BlockedSend?
    ensures var o := RecvMatched(rv, r, s, max);
            && (forall i :: 0 <= i < |o.ports| ==> PortOk(o.ports[i], o.sends, o.matches, o.receipts))
            && OneSided(o.ports) && TagsDistinct(o.ports)
  {
    hide Delivered, Filled, MatchesOk, ReceiptsOk;
    var o := RecvMatched(rv, r, s, max);
    forall i | 0 <= i < |o.ports| ensures PortOk(o.ports[i], o.sends, o.matches, o.receipts) {
      if i != s && i != r { PortGrows(rv.ports[i], rv, o); }
    }
  }

  lemma {:induction false} RecvMatchedLogs(rv: Rv, r: nat, s: nat, max: nat)
    requires Sound(rv) && s < |rv.ports| && r < |rv.ports| && rv.ports[s].state.BlockedSend?
    ensures var o := RecvMatched(rv, r, s, max);
            MatchesOk(o.sends, o.matches) && ReceiptsOk(o.sends, o.matches, o.receipts)
  {
    hide Delivered, Filled, OwedOk, OneSided, TagsDistinct;
    assert PortOk(rv.ports[s], rv.sends, rv.matches, rv.receipts);
    var o, q := RecvMatched(rv, r, s, max), rv.ports[s];
    TakenPayload(q, rv.sends[q.tag], max);
    forall k | 0 <= k < |rv.matches| ensures o.matches[k] == rv.matches[k] {}
    forall k | 0 <= k < |rv.receipts| ensures o.receipts[k] == rv.receipts[k] {}
  }

  lemma {:induction false} TakenPayload(q: Port, s: Sent, max: nat)
    requires q.state.BlockedSend? && q.state.len <= |q.msg| && s.len == q.state.len <= |s.mem|
    requires q.msg[..q.state.len] == s.mem[..q.state.len]
    ensures q.msg[..Min(q.state.len, max)] == Delivered(s, max)
  {
    var n := Min(q.state.len, max);
    assert q.msg[..n] == q.msg[..q.state.len][..n];
    assert s.mem[..n] == s.mem[..q.state.len][..n];
  }

  lemma {:induction false} RecvParkedSound(rv: Rv, r: nat, ep: nat, dst: nat, max: nat)
    requires Sound(rv) && r < |rv.ports| && rv.ports[r].state.Ready? && rv.ports[r].pending == 0
    requires max <= MAX_MSG_BYTES
    requires forall j :: 0 <= j < |rv.ports| ==> !(rv.ports[j].state.BlockedSend? && rv.ports[j].state.ep == ep)
    ensures Sound(RecvParked(rv, r, ep, dst, max))
  {
    hide MatchesOk, ReceiptsOk, Delivered, Answered;
    StillAnswered(rv, RecvParked(rv, r, ep, dst, max));
  }

  // ------------------------------------------------------------------- resuming

  /** A resumed process first gets the copy it is owed, if its memory takes it. */
  function Collected(rv: Rv, i: nat, taken: bool): Rv
    requires i < |rv.ports|
  {
    var p := rv.ports[i];
    if p.pending == 0 || p.pending > |p.msg| then rv
    else if taken then
      rv.(ports := rv.ports[i := p.(pending := 0)],
          receipts := rv.receipts + [Receipt(p.tag, p.id, OK, p.r1, p.pending, p.msg[..p.pending])])
    else
      rv.(ports := rv.ports[i := p.(pending := 0, r0 := FAULT, r2 := 0)],
          receipts := rv.receipts + [Receipt(p.tag, p.id, FAULT, p.r1, 0, [])])
  }

  lemma {:induction false} CollectedAnswered(rv: Rv, i: nat, taken: bool)
    requires Sound(rv) && i < |rv.ports|
    ensures var o := Collected(rv, i, taken); Answered(o.ports, o.matches, o.receipts)
  {
    hide PortOk, MatchesOk, ReceiptsOk, OneSided, TagsDistinct, Answered;
    var o, p := Collected(rv, i, taken), rv.ports[i];
    if |o.receipts| > |rv.receipts| { assert o.receipts[|rv.receipts|].of == p.tag; }
    StillAnswered(rv, o);
  }

  lemma {:induction false} CollectedSound(rv: Rv, i: nat, taken: bool)
    requires Sound(rv) && i < |rv.ports| && rv.ports[i].state.Ready?
    ensures Sound(Collected(rv, i, taken)) && Collected(rv, i, taken).ports[i].pending == 0
  {
    hide Delivered, Answered;
    var o, p := Collected(rv, i, taken), rv.ports[i];
    assert PortOk(p, rv.sends, rv.matches, rv.receipts);
    CollectedAnswered(rv, i, taken);
    if p.pending > 0 {
      forall j | 0 <= j < |o.ports| ensures PortOk(o.ports[j], o.sends, o.matches, o.receipts) {
        if j != i { PortGrows(rv.ports[j], rv, o); }
      }
      forall k | 0 <= k < |rv.receipts| ensures o.receipts[k] == rv.receipts[k] {}
    }
  }
}
