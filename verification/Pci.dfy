/** PCI enumeration: every function on every bus reachable through bridges, by a breadth-first
    walk with a bounded worklist over arbitrary configuration space. */
module Pci {
  import opened Graph
  import opened Seqs

  type Reg = x: int | 0 <= x < 0x1_0000_0000

  /** The 32-bit register of (bus, device, function) at an offset. Reads are taken to be stable
      for the duration of a scan. */
  type Config = (nat, nat, nat, nat) -> Reg

  const MAX_BUSES := 16
  const NO_VENDOR := 0xFFFF

  datatype Function = Function(bus: nat, dev: nat, func: nat, vendor: nat, device: nat)

  function Vendor(cfg: Config, b: nat, d: nat, f: nat): nat { cfg(b, d, f, 0x00) % 0x1_0000 }

  function Device(cfg: Config, b: nat, d: nat, f: nat): nat { cfg(b, d, f, 0x00) / 0x1_0000 }

  function Header(cfg: Config, b: nat, d: nat, f: nat): nat { (cfg(b, d, f, 0x0C) / 0x1_0000) % 0x100 }

  /** Header type 1 in the low seven bits: a PCI-to-PCI bridge. */
  predicate IsBridge(cfg: Config, b: nat, d: nat, f: nat) { Header(cfg, b, d, f) % 0x80 == 1 }

  predicate IsMulti(cfg: Config, b: nat, d: nat, f: nat) { Header(cfg, b, d, f) >= 0x80 }

  function Secondary(cfg: Config, b: nat, d: nat, f: nat): nat { (cfg(b, d, f, 0x18) / 0x100) % 0x100 }

  predicate Present(cfg: Config, b: nat, d: nat, f: nat) { Vendor(cfg, b, d, f) != NO_VENDOR }

  /** The walk stops a device after function 0 only when function 0 is there and says it is the
      only one. */
  predicate SingleFunction(cfg: Config, b: nat, d: nat) {
    Present(cfg, b, d, 0) && !IsMulti(cfg, b, d, 0)
  }

  predicate Answers(cfg: Config, b: nat, d: nat, f: nat) {
    d < 32 && f < 8 && Present(cfg, b, d, f) && (f == 0 || !SingleFunction(cfg, b, d))
  }

  function Found(cfg: Config, b: nat, d: nat, f: nat): Function {
    Function(b, d, f, Vendor(cfg, b, d, f), Device(cfg, b, d, f))
  }

  // ------------------------------------------------------------------- the bus topology

  predicate Linked(cfg: Config, b: nat, s: nat) {
    s != 0 && exists d, f :: 0 <= d < 32 && 0 <= f < 8 && BridgeTo(cfg, b, d, f, s)
  }

  predicate BridgeTo(cfg: Config, b: nat, d: nat, f: nat, s: nat) {
    Answers(cfg, b, d, f) && IsBridge(cfg, b, d, f) && Secondary(cfg, b, d, f) == s
  }

  function Buses(cfg: Config): set<Link<nat>> {
    set b: nat, s: nat | b < 256 && s < 256 && Linked(cfg, b, s) :: (b, s)
  }

  ghost predicate Reachable(cfg: Config, b: nat) {
    b == 0 || Reach(Buses(cfg), 0, b)
  }

  // ------------------------------------------------------------------- what should be listed

  function OfDevice(cfg: Config, b: nat, d: nat, n: nat): seq<Function> {
    if n == 0 then []
    else OfDevice(cfg, b, d, n - 1) + if Answers(cfg, b, d, n - 1) then [Found(cfg, b, d, n - 1)] else []
  }

  function OfBus(cfg: Config, b: nat, n: nat): seq<Function> {
    if n == 0 then [] else OfBus(cfg, b, n - 1) + OfDevice(cfg, b, n - 1, 8)
  }

  function OfBuses(cfg: Config, buses: seq<nat>): seq<Function> {
    if buses == [] then []
    else OfBuses(cfg, buses[..|buses| - 1]) + OfBus(cfg, buses[|buses| - 1], 32)
  }

  lemma {:induction false} OfDeviceExact(cfg: Config, b: nat, d: nat, n: nat)
    requires n <= 8
    ensures NoDup(OfDevice(cfg, b, d, n))
    ensures forall x :: x in OfDevice(cfg, b, d, n) <==>
              x.bus == b && x.dev == d && x.func < n && Answers(cfg, b, d, x.func) && x == Found(cfg, b, d, x.func)
  {
    if n > 0 { OfDeviceExact(cfg, b, d, n - 1); }
  }

  lemma {:induction false} OfBusExact(cfg: Config, b: nat, n: nat)
    requires n <= 32
    ensures NoDup(OfBus(cfg, b, n))
    ensures forall x :: x in OfBus(cfg, b, n) <==>
              x.bus == b && x.dev < n && Answers(cfg, b, x.dev, x.func) && x == Found(cfg, b, x.dev, x.func)
  {
    if n > 0 {
      OfBusExact(cfg, b, n - 1);
      OfDeviceExact(cfg, b, n - 1, 8);
      NoDupConcat(OfBus(cfg, b, n - 1), OfDevice(cfg, b, n - 1, 8));
    }
  }

  /** A walk over distinct buses lists every answering function of each, once. */
  lemma {:induction false} OfBusesExact(cfg: Config, buses: seq<nat>)
    requires NoDup(buses)
    ensures NoDup(OfBuses(cfg, buses))
    ensures forall x :: x in OfBuses(cfg, buses) <==>
              x.bus in buses && Answers(cfg, x.bus, x.dev, x.func) && x == Found(cfg, x.bus, x.dev, x.func)
  {
    if buses != [] {
      var n := |buses| - 1;
      OfBusesExact(cfg, buses[..n]);
      OfBusExact(cfg, buses[n], 32);
      NoDupConcat(OfBuses(cfg, buses[..n]), OfBus(cfg, buses[n], 32));
      assert buses == buses[..n] + [buses[n]];
    }
  }

  /** A worklist that starts at bus 0 and is closed under bridge links holds every reachable bus. */
  lemma {:induction false} ClosedHoldsReachable(cfg: Config, buses: seq<nat>)
    requires 0 in buses
    requires forall b, s :: b in buses && Linked(cfg, b, s) ==> s in buses
    ensures forall b :: Reachable(cfg, b) ==> b in buses
  {
    forall b | Reachable(cfg, b) ensures b in buses {
      if b != 0 {
        var S := iset z | z in buses;
        ReachStaysIn(Buses(cfg), 0, b, S);
      }
    }
  }

  // ------------------------------------------------------------------- the published rule

  /** PCI Local Bus 3.0, section 6.2.1: every device implements function 0, and only a device
      that says it is multi-function is probed further. */
  predicate StandardAnswers(cfg: Config, b: nat, d: nat, f: nat) {
    d < 32 && f < 8 && Present(cfg, b, d, f) && Present(cfg, b, d, 0) && (f == 0 || IsMulti(cfg, b, d, 0))
  }

  /** A device with no function 0 that nevertheless answers at some other function. */
  predicate Headless(cfg: Config, b: nat, d: nat) {
    !Present(cfg, b, d, 0) && exists f :: 0 <= f < 8 && Present(cfg, b, d, f)
  }

  /** The walk also probes past an absent function 0, so it lists what the standard lists exactly
      on devices that are not headless. */
  lemma {:induction false} StandardRuleIff(cfg: Config, b: nat, d: nat)
    requires d < 32
    ensures (forall f :: Answers(cfg, b, d, f) <==> StandardAnswers(cfg, b, d, f)) <==> !Headless(cfg, b, d)
    ensures forall f :: StandardAnswers(cfg, b, d, f) ==> Answers(cfg, b, d, f)
  {
    if Headless(cfg, b, d) {
      var f :| 0 <= f < 8 && Present(cfg, b, d, f);
      assert Answers(cfg, b, d, f) && !StandardAnswers(cfg, b, d, f);
    }
  }

  /** One device at one place, answering at function 1 alone. */
  function OnlyFunctionOne(): Config {
    (b, d, f, off) => if b != 0 || d != 3 || f != 1 then 0xFFFF_FFFF else if off == 0 then 0x7550_1002 else 0
  }

  lemma {:induction false} OnlyItAnswers(b: nat, d: nat, f: nat)
    ensures Present(OnlyFunctionOne(), b, d, f) <==> b == 0 && d == 3 && f == 1
    ensures Answers(OnlyFunctionOne(), b, d, f) <==> b == 0 && d == 3 && f == 1
  {}

  /** A headless device: the walk lists it, the published rule does not. */
  lemma {:induction false} HeadlessIsListed(buses: seq<nat>)
    requires NoDup(buses) && 0 in buses
    ensures var cfg := OnlyFunctionOne();
            && Headless(cfg, 0, 3) && !StandardAnswers(cfg, 0, 3, 1)
            && OfBuses(cfg, buses) == [Function(0, 3, 1, 0x1002, 0x7550)]
  {
    var cfg, it := OnlyFunctionOne(), Function(0, 3, 1, 0x1002, 0x7550);
    assert Found(cfg, 0, 3, 1) == it;
    assert Present(cfg, 0, 3, 1) && !Present(cfg, 0, 3, 0);
    hide OnlyFunctionOne, OfBuses, Present, Answers, Found;
    forall b: nat, d: nat, f: nat
      ensures Present(cfg, b, d, f) <==> b == 0 && d == 3 && f == 1
      ensures Answers(cfg, b, d, f) <==> b == 0 && d == 3 && f == 1
    {
      OnlyItAnswers(b, d, f);
    }
    OfBusesExact(cfg, buses);
    var all := OfBuses(cfg, buses);
    assert it in all;
    forall k | 0 <= k < |all| ensures all[k] == it { assert all[k] in all; }
    Pigeonhole(all, [it]);
  }

  // ------------------------------------------------------------------- the walk's bookkeeping

  /** The buses met so far: those queued, and those that found the worklist full. */
  datatype Met = Met(queue: seq<nat>, lost: set<nat>)

  ghost predicate Known(m: Met, b: nat) {
    b in m.queue || b in m.lost
  }

  ghost predicate Grows(m: Met, m': Met) {
    m.queue <= m'.queue && m.lost <= m'.lost
  }

  ghost predicate WorklistOk(cfg: Config, m: Met) {
    && 1 <= |m.queue| <= MAX_BUSES && m.queue[0] == 0 && NoDup(m.queue)
    && (forall k :: 0 <= k < |m.queue| ==> Reachable(cfg, m.queue[k]) && m.queue[k] < 256)
    && (forall b :: b in m.lost ==> Reachable(cfg, b) && b !in m.queue && |m.queue| == MAX_BUSES)
  }

  ghost predicate FunctionNoted(cfg: Config, b: nat, d: nat, f: nat, m: Met) {
    Answers(cfg, b, d, f) && IsBridge(cfg, b, d, f) && Secondary(cfg, b, d, f) != 0 ==>
      Known(m, Secondary(cfg, b, d, f))
  }

  /** Every bus behind a bridge among the first `n` functions of a device has been met. */
  ghost predicate DeviceNoted(cfg: Config, b: nat, d: nat, n: nat, m: Met) {
    n > 0 ==> DeviceNoted(cfg, b, d, n - 1, m) && FunctionNoted(cfg, b, d, n - 1, m)
  }

  ghost predicate BusNoted(cfg: Config, b: nat, n: nat, m: Met) {
    n > 0 ==> BusNoted(cfg, b, n - 1, m) && DeviceNoted(cfg, b, n - 1, 8, m)
  }

  /** The output is as much of what was seen as fits, and truncation says when something did not. */
  ghost predicate ScanOk(cfg: Config, m: Met, seen: seq<Function>, listed: seq<Function>, room: nat, truncated: bool) {
    && WorklistOk(cfg, m)
    && |listed| == (if |seen| < room then |seen| else room)
    && listed == seen[..|listed|]
    && (truncated <==> |seen| > room || m.lost != {})
  }

  lemma {:induction false} GrowsTrans(m: Met, m': Met, m'': Met)
    requires Grows(m, m') && Grows(m', m'')
    ensures Grows(m, m'')
  {}

  lemma {:induction false} KnownGrows(m: Met, m': Met, b: nat)
    requires Grows(m, m') && Known(m, b)
    ensures Known(m', b)
  {
    if b in m.queue {
      var k :| 0 <= k < |m.queue| && m.queue[k] == b;
      assert m'.queue[k] == b;
    }
  }

  lemma {:induction false} DeviceNotedGrows(cfg: Config, b: nat, d: nat, n: nat, m: Met, m': Met)
    requires Grows(m, m') && DeviceNoted(cfg, b, d, n, m)
    ensures DeviceNoted(cfg, b, d, n, m')
  {
    if n > 0 {
      DeviceNotedGrows(cfg, b, d, n - 1, m, m');
      if Known(m, Secondary(cfg, b, d, n - 1)) { KnownGrows(m, m', Secondary(cfg, b, d, n - 1)); }
    }
  }

  lemma {:induction false} BusNotedGrows(cfg: Config, b: nat, n: nat, m: Met, m': Met)
    requires Grows(m, m') && BusNoted(cfg, b, n, m)
    ensures BusNoted(cfg, b, n, m')
  {
    if n > 0 {
      BusNotedGrows(cfg, b, n - 1, m, m');
      DeviceNotedGrows(cfg, b, n - 1, 8, m, m');
    }
  }

  lemma {:induction false} DeviceNotedAt(cfg: Config, b: nat, d: nat, n: nat, f: nat, m: Met)
    requires f < n && DeviceNoted(cfg, b, d, n, m)
    ensures FunctionNoted(cfg, b, d, f, m)
  {
    if f < n - 1 { DeviceNotedAt(cfg, b, d, n - 1, f, m); }
  }

  lemma {:induction false} BusNotedAt(cfg: Config, b: nat, n: nat, d: nat, m: Met)
    requires d < n && BusNoted(cfg, b, n, m)
    ensures DeviceNoted(cfg, b, d, 8, m)
  {
    if d < n - 1 { BusNotedAt(cfg, b, n - 1, d, m); }
  }

  /** A worklist every bus of which has been walked, with nothing lost, is the reachable set. */
  lemma {:induction false} WalkedIsReachable(cfg: Config, m: Met)
    requires WorklistOk(cfg, m) && m.lost == {}
    requires forall k :: 0 <= k < |m.queue| ==> BusNoted(cfg, m.queue[k], 32, m)
    ensures forall b :: Reachable(cfg, b) ==> b in m.queue
  {
    forall b, s | b in m.queue && Linked(cfg, b, s) ensures s in m.queue {
      var k :| 0 <= k < |m.queue| && m.queue[k] == b;
      var d, f :| 0 <= d < 32 && 0 <= f < 8 && BridgeTo(cfg, b, d, f, s);
      BusNotedAt(cfg, b, 32, d, m);
      DeviceNotedAt(cfg, b, d, 8, f, m);
    }
    assert m.queue[0] in m.queue;
    ClosedHoldsReachable(cfg, m.queue);
  }

  // ------------------------------------------------------------------- the walk

  class Scan {
    const out: array<Function>
    const buses: array<nat>
    var nbuses: nat
    var n: nat
    var truncated: bool
    /** Everything found so far, whether or not it fit. */
    ghost var seen: seq<Function>
    ghost var met: Met

    ghost predicate Valid(cfg: Config)
      reads this, buses, out
    {
      && buses as object != out && buses.Length == MAX_BUSES
      && nbuses <= MAX_BUSES && buses[..nbuses] == met.queue
      && n <= out.Length
      && ScanOk(cfg, met, seen, out[..n], out.Length, truncated)
    }

    constructor (cfg: Config, out: array<Function>)
      ensures Valid(cfg) && this.out == out && fresh(buses)
      ensures nbuses == 1 && seen == []
    {
      this.out := out;
      buses := new nat[MAX_BUSES](_ => 0);
      nbuses, n, truncated := 1, 0, false;
      seen, met := [], Met([0], {});
      new;
      assert buses[..1] == [0];
    }

    /** Is this bus already queued? */
    method IsQueued(b: nat) returns (known: bool)
      requires nbuses <= buses.Length
      ensures known <==> b in buses[..nbuses]
    {
      for k := 0 to nbuses
        invariant forall j :: 0 <= j < k ==> buses[j] != b
      {
        if buses[k] == b {
          assert buses[..nbuses][k] == b;
          return true;
        }
      }
      return false;
    }

    /** Queue a bridge's secondary bus unless it is already known. */
    method NoteBridge(cfg: Config, secondary: nat)
      requires Valid(cfg) && Reachable(cfg, secondary) && secondary < 256
      modifies this, buses
      ensures Valid(cfg) && seen == old(seen)
      ensures Grows(old(met), met)
      ensures secondary != 0 ==> Known(met, secondary)
    {
      var known := IsQueued(secondary);
      if secondary != 0 && !known {
        if nbuses < buses.Length {
          ghost var was := met.queue;
          buses[nbuses] := secondary;
          nbuses := nbuses + 1;
          met := met.(queue := was + [secondary]);
          assert buses[..nbuses] == was + [secondary];
        } else {
          truncated := true;
          met := met.(lost := met.lost + {secondary});
        }
      }
    }

    /** Write one function to the output, or report that it did not fit. */
    method Emit(cfg: Config, f: Function)
      requires Valid(cfg)
      modifies this, out
      ensures Valid(cfg) && seen == old(seen) + [f] && met == old(met)
    {
      if n < out.Length {
        out[n] := f;
        n := n + 1;
      } else {
        truncated := true;
      }
      seen := seen + [f];
    }

    /** A function that answers: follow it if it is a bridge, and list it. */
    method Visit(cfg: Config, bus: nat, dev: nat, func: nat)
      requires Valid(cfg) && Reachable(cfg, bus) && bus < 256 && Answers(cfg, bus, dev, func)
      modifies this, buses, out
      ensures Valid(cfg) && seen == old(seen) + [Found(cfg, bus, dev, func)]
      ensures Grows(old(met), met)
      ensures FunctionNoted(cfg, bus, dev, func, met)
    {
      if IsBridge(cfg, bus, dev, func) {
        SecondaryReachable(cfg, bus, dev, func);
        NoteBridge(cfg, Secondary(cfg, bus, dev, func));
      }
      Emit(cfg, Found(cfg, bus, dev, func));
    }

    /** All eight functions of one device, stopping early for a single-function device. */
    method ScanDevice(cfg: Config, bus: nat, dev: nat)
      requires Valid(cfg) && Reachable(cfg, bus) && bus < 256 && dev < 32
      modifies this, buses, out
      ensures Valid(cfg) && seen == old(seen) + OfDevice(cfg, bus, dev, 8)
      ensures Grows(old(met), met) && DeviceNoted(cfg, bus, dev, 8, met)
    {
      hide ScanOk, WorklistOk, Found, Linked, Vendor, Header, Secondary, IsBridge, Known, Reachable;
      var func := 0;
      while func < 8
        invariant func <= 8
        invariant Valid(cfg) && seen == old(seen) + OfDevice(cfg, bus, dev, func)
        invariant Grows(old(met), met) && DeviceNoted(cfg, bus, dev, func, met)
        invariant func > 0 ==> !SingleFunction(cfg, bus, dev)
      {
        ghost var before := met;
        if Present(cfg, bus, dev, func) {
          Visit(cfg, bus, dev, func);
          DeviceNotedGrows(cfg, bus, dev, func, before, met);
          GrowsTrans(old(met), before, met);
          if func == 0 && !IsMulti(cfg, bus, dev, 0) {
            OnlyFunctionZero(cfg, bus, dev, 8);
            OnlyZeroNoted(cfg, bus, dev, 8, met);
            return;
          }
        }
        func := func + 1;
      }
    }

    /** The 32 devices of one bus. */
    method ScanBus(cfg: Config, bus: nat)
      requires Valid(cfg) && Reachable(cfg, bus) && bus < 256
      modifies this, buses, out
      ensures Valid(cfg) && seen == old(seen) + OfBus(cfg, bus, 32)
      ensures Grows(old(met), met) && BusNoted(cfg, bus, 32, met)
    {
      hide ScanOk, DeviceNoted, Answers, Found, Linked, WorklistOk;
      for dev := 0 to 32
        invariant Valid(cfg) && seen == old(seen) + OfBus(cfg, bus, dev)
        invariant Grows(old(met), met) && BusNoted(cfg, bus, dev, met)
      {
        ghost var before := met;
        ScanDevice(cfg, bus, dev);
        BusNotedGrows(cfg, bus, dev, before, met);
        GrowsTrans(old(met), before, met);
        assert seen == old(seen) + (OfBus(cfg, bus, dev) + OfDevice(cfg, bus, dev, 8));
      }
    }
  }

  lemma {:induction false} SecondaryReachable(cfg: Config, b: nat, d: nat, f: nat)
    requires Reachable(cfg, b) && b < 256 && Answers(cfg, b, d, f) && IsBridge(cfg, b, d, f)
    ensures Reachable(cfg, Secondary(cfg, b, d, f)) && Secondary(cfg, b, d, f) < 256
  {
    var s := Secondary(cfg, b, d, f);
    if s != 0 {
      assert BridgeTo(cfg, b, d, f, s);
      assert Linked(cfg, b, s);
      assert (b, s) in Buses(cfg);
      if b == 0 { LinkReaches(Buses(cfg), b, s); } else { ReachExtends(Buses(cfg), 0, b, s); }
    }
  }

  lemma {:induction false} OnlyZeroNoted(cfg: Config, b: nat, d: nat, n: nat, m: Met)
    requires SingleFunction(cfg, b, d) && n >= 1 && FunctionNoted(cfg, b, d, 0, m)
    ensures DeviceNoted(cfg, b, d, n, m)
  {
    if n > 1 {
      OnlyZeroNoted(cfg, b, d, n - 1, m);
    } else {
      assert DeviceNoted(cfg, b, d, 0, m);
    }
  }

  lemma {:induction false} OnlyFunctionZero(cfg: Config, b: nat, d: nat, n: nat)
    requires SingleFunction(cfg, b, d) && d < 32 && 1 <= n <= 8
    ensures OfDevice(cfg, b, d, n) == [Found(cfg, b, d, 0)]
  {
    if n > 1 { OnlyFunctionZero(cfg, b, d, n - 1); } else { assert OfDevice(cfg, b, d, 0) == []; }
  }

  /** Walk the whole reachable topology.

      Every bus is queued at most once and at most sixteen are, so the walk terminates whatever
      configuration space reports. Without truncation the output lists exactly once every function
      that answers on every reachable bus; truncation is reported exactly when something that
      should have been listed was not. */
  method Enumerate(cfg: Config, out: array<Function>)
    returns (n: nat, truncated: bool, nbuses: nat, ghost walked: seq<nat>)
    modifies out
    ensures |walked| == nbuses <= MAX_BUSES && NoDup(walked) && 0 in walked
    ensures forall b :: b in walked ==> Reachable(cfg, b)
    ensures n <= out.Length && n <= |OfBuses(cfg, walked)| && out[..n] == OfBuses(cfg, walked)[..n]
    ensures truncated <==> |OfBuses(cfg, walked)| > out.Length || exists b :: Reachable(cfg, b) && b !in walked
    ensures !truncated ==>
              && NoDup(out[..n])
              && forall x :: x in out[..n] <==>
                   Reachable(cfg, x.bus) && Answers(cfg, x.bus, x.dev, x.func) && x == Found(cfg, x.bus, x.dev, x.func)
  {
    hide Answers, Found, OfBus, BusNoted, Reachable, Known, ScanOk;
    var scan := new Scan(cfg, out);
    var next := 0;
    while next < scan.nbuses
      invariant scan.Valid(cfg) && scan.out == out && fresh(scan) && fresh(scan.buses)
      invariant next <= scan.nbuses
      invariant scan.seen == OfBuses(cfg, scan.met.queue[..next])
      invariant forall k :: 0 <= k < next ==> BusNoted(cfg, scan.met.queue[k], 32, scan.met)
      decreases MAX_BUSES - next
    {
      ghost var before := scan.met;
      var bus := scan.buses[next];
      assert bus == before.queue[next];
      QueueReachable(cfg, before, scan.seen, out[..scan.n], out.Length, scan.truncated, next);
      scan.ScanBus(cfg, bus);
      forall k | 0 <= k < next ensures BusNoted(cfg, scan.met.queue[k], 32, scan.met) {
        BusNotedGrows(cfg, before.queue[k], 32, before, scan.met);
      }
      ghost var head := scan.met.queue[..next];
      next := next + 1;
      assert head == before.queue[..|head|];
      assert scan.met.queue[..next] == head + [bus];
      assert (head + [bus])[..|head|] == head;
    }
    n, truncated, nbuses, walked := scan.n, scan.truncated, scan.nbuses, scan.met.queue;
    assert walked[..next] == walked;
    ListingComplete(cfg, scan.met, out[..n], out.Length, truncated);
  }

  lemma {:induction false} QueueReachable(cfg: Config, m: Met, seen: seq<Function>, listed: seq<Function>, room: nat,
                                          truncated: bool, k: nat)
    requires ScanOk(cfg, m, seen, listed, room, truncated) && k < |m.queue|
    ensures Reachable(cfg, m.queue[k]) && m.queue[k] < 256
  {}

  lemma {:induction false} ListingComplete(cfg: Config, m: Met, listed: seq<Function>, room: nat, truncated: bool)
    requires forall k :: 0 <= k < |m.queue| ==> BusNoted(cfg, m.queue[k], 32, m)
    requires ScanOk(cfg, m, OfBuses(cfg, m.queue), listed, room, truncated)
    ensures |m.queue| <= MAX_BUSES && NoDup(m.queue) && 0 in m.queue
    ensures |listed| <= |OfBuses(cfg, m.queue)| && listed == OfBuses(cfg, m.queue)[..|listed|]
    ensures truncated <==> |OfBuses(cfg, m.queue)| > room || exists b :: Reachable(cfg, b) && b !in m.queue
    ensures forall b :: b in m.queue ==> Reachable(cfg, b)
    ensures !truncated ==>
              && NoDup(listed)
              && forall x :: x in listed <==>
                   Reachable(cfg, x.bus) && Answers(cfg, x.bus, x.dev, x.func) && x == Found(cfg, x.bus, x.dev, x.func)
  {
    OfBusesExact(cfg, m.queue);
    assert m.queue[0] in m.queue;
    if m.lost == {} {
      WalkedIsReachable(cfg, m);
    } else {
      var b :| b in m.lost;
      assert Reachable(cfg, b) && b !in m.queue;
    }
  }
}
