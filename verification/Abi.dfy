/** The vocabulary every other module shares: rights, capability kinds, result codes and the
    table sizes the kernel is built with. */
module Abi {

  /** Rights are a bit mask of eight representable bits, three of which are defined. */
  type Rights = bv8

  const NONE: Rights := 0
  const READ: Rights := 1
  const WRITE: Rights := 2
  const GRANT: Rights := 4
  const ALL: Rights := 7

  predicate Contains(have: Rights, need: Rights) {
    have & need == need
  }

  function Intersect(a: Rights, b: Rights): (r: Rights)
    ensures Contains(a, r) && Contains(b, r)
  {
    a & b
  }

  /** Rights named by an untrusted word: the low byte, with every undefined bit dropped. */
  function FromUser(word: bv64): (r: Rights)
    ensures Contains(ALL, r)
  {
    ((word & 0xFF) as bv8) & ALL
  }

  /** The three defined rights are the three lowest bits of the word, and nothing else of it counts. */
  lemma {:induction false} FromUserBits(word: bv64)
    ensures FromUser(word) as bv64 == word & 7
  {
    assert ((word & 0xFF) as bv8) as bv64 == word & 0xFF;
    assert ((((word & 0xFF) as bv8) & 7) as bv64) == (word & 0xFF) & 7;
  }

  /** `Contains` is a partial order with `ALL` above everything an untrusted word can name. */
  lemma {:induction false} ContainsIsPartialOrder(a: Rights, b: Rights, c: Rights)
    ensures Contains(a, a)
    ensures Contains(a, b) && Contains(b, a) ==> a == b
    ensures Contains(a, b) && Contains(b, c) ==> Contains(a, c)
    ensures Contains(a, NONE)
  {}

  /** What a delegation confers is the largest set of rights that both the holder has and the
      untrusted request names: it never exceeds the holder, and it is never silently smaller. */
  lemma {:induction false} DelegatedRightsAreGreatest(held: Rights, word: bv64, r: Rights)
    ensures Contains(held, Intersect(held, FromUser(word)))
    ensures Contains(ALL, Intersect(held, FromUser(word)))
    ensures Contains(held, r) && Contains(FromUser(word), r)
            ==> Contains(Intersect(held, FromUser(word)), r)
  {
    ContainsIsPartialOrder(ALL, FromUser(word), Intersect(held, FromUser(word)));
  }

  /** What an intersection confers is exactly what both confer. */
  lemma {:induction false} IntersectIsMeet(a: Rights, b: Rights, need: Rights)
    ensures Contains(Intersect(a, b), need) <==> Contains(a, need) && Contains(b, need)
  {
    assert (a & b) & need == a & (b & need);
    assert (a & b) & need == b & (a & need);
    if Contains(Intersect(a, b), need) {
      ContainsIsPartialOrder(a, Intersect(a, b), need);
      ContainsIsPartialOrder(b, Intersect(a, b), need);
    }
  }

  datatype CapType =
    | Null | Untyped | FrameCap | PageTable | EndpointCap | Notification | Tcb
    | IommuDomain | Mmio | RegionCap | Irq

  /** The one type new authority can be created from. */
  predicate IsMintSource(t: CapType) {
    t == Untyped
  }

  const MAX_MSG_BYTES := 128
  const REGION_QUOTA := 6

  const OK := 0
  const NO_CAP := 0xFFFF_FFFF_FFFF_FFFE
  const NO_MEM := 0xFFFF_FFFF_FFFF_FFFD
  const FAULT := 0xFFFF_FFFF_FFFF_FFFC

  const MAX_PROCS := 6
  const CAP_SLOTS := 20
  const MAX_PROC_FRAMES := 64
  const MAX_REGIONS := 12
  const REGION_MAX_PAGES := 4
  const MAX_DOMAINS := 2
  const SHARE_SLOTS := 4
  const MAX_IRQ_LINES := 8
  const MAX_DELEGATIONS := 16
  const PLAN_STEPS := MAX_PROCS * SHARE_SLOTS + 2 * MAX_REGIONS + SHARE_SLOTS
}
