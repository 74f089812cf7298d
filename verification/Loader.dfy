/** The static ELF64 loader: segments copied page by page into fresh frames, against a
    byte-by-byte description of the image. One model serves both instruction sets. */
module Loader {
  import opened Abi
  import opened Basics
  import opened Seqs

  const PAGE := 4096
  const TOP := 0x1_0000_0000_0000_0000

  type U64 = x: int | 0 <= x < TOP
  type Byte = x: int | 0 <= x < 256

  datatype LoadError = BadMagic | Not64 | NotExec | BadMachine | Truncated | OutOfFrames | MapFailed

  // ------------------------------------------------------------------- permissions

  datatype Isa = X86 | RiscV

  datatype PageFlag = PRESENT | USER | WRITABLE | NO_EXEC | V | R | U | W | X

  const PT_LOAD := 1
  const ET_EXEC := 2
  const ELFCLASS64 := 2

  function Machine16(isa: Isa): nat { if isa == X86 then 0x3E else 0xF3 }

  predicate WantsExec(pflags: nat) { pflags % 2 == 1 }

  predicate WantsWrite(pflags: nat) { (pflags / 2) % 2 == 1 }

  /** The leaf permissions each instruction set encodes for a segment. */
  function LeafFlags(isa: Isa, pflags: nat): set<PageFlag> {
    match isa
    case X86 =>
      {PRESENT, USER} + (if WantsWrite(pflags) then {WRITABLE} else {}) + (if WantsExec(pflags) then {} else {NO_EXEC})
    case RiscV =>
      {V, R, U} + (if WantsWrite(pflags) then {W} else {}) + (if WantsExec(pflags) then {X} else {})
  }

  predicate Writable(isa: Isa, flags: set<PageFlag>) {
    if isa == X86 then WRITABLE in flags else W in flags
  }

  predicate Executable(isa: Isa, flags: set<PageFlag>) {
    if isa == X86 then NO_EXEC !in flags else X in flags
  }

  predicate UserReadable(isa: Isa, flags: set<PageFlag>) {
    if isa == X86 then {PRESENT, USER} <= flags else {V, R, U} <= flags
  }

  /** Both encodings grant exactly what the header asks for, though one marks execution by a
      present bit and the other by an absent one. */
  lemma {:induction false} FlagsMeanWhatTheHeaderSays(isa: Isa, pflags: nat)
    ensures var f := LeafFlags(isa, pflags);
            && (Writable(isa, f) <==> WantsWrite(pflags))
            && (Executable(isa, f) <==> WantsExec(pflags))
            && UserReadable(isa, f)
  {
    match isa
    case X86 =>
    case RiscV =>
  }

  // ------------------------------------------------------------------- reading the image

  function Rd16(b: seq<Byte>, off: nat): (r: nat)
    requires off + 2 <= |b|
    ensures r < 0x1_0000
  {
    b[off] as int + 256 * (b[off + 1] as int)
  }

  function Rd32(b: seq<Byte>, off: nat): (r: nat)
    requires off + 4 <= |b|
    ensures r < 0x1_0000_0000
  {
    Rd16(b, off) + 0x1_0000 * Rd16(b, off + 2)
  }

  function Rd64(b: seq<Byte>, off: nat): (r: U64)
    requires off + 8 <= |b|
  {
    Rd32(b, off) + 0x1_0000_0000 * Rd32(b, off + 4)
  }

  datatype Phdr = Phdr(kind: nat, flags: nat, offset: U64, vaddr: U64, filesz: U64, memsz: U64)

  function PhdrAt(elf: seq<Byte>, off: nat): Phdr
    requires off + 56 <= |elf|
  {
    Phdr(Rd32(elf, off), Rd32(elf, off + 4), Rd64(elf, off + 8), Rd64(elf, off + 16),
         Rd64(elf, off + 32), Rd64(elf, off + 40))
  }

  /** What the header checks reject, in the order they are made. */
  function HeaderVerdict(elf: seq<Byte>, isa: Isa): Option<LoadError> {
    if |elf| < 64 then Some(Truncated)
    else if elf[..4] != [0x7F, 0x45, 0x4C, 0x46] then Some(BadMagic)
    else if elf[4] != ELFCLASS64 then Some(Not64)
    else if Rd16(elf, 18) != Machine16(isa) then Some(BadMachine)
    else if Rd16(elf, 16) != ET_EXEC then Some(NotExec)
    else None
  }

  function Times(i: nat, size: nat): nat {
    i * size
  }

  function PhdrOff(elf: seq<Byte>, i: nat): nat
    requires |elf| >= 64
  {
    Rd64(elf, 32) + Times(i, Rd16(elf, 54))
  }

  predicate PhdrInBounds(elf: seq<Byte>, i: nat)
    requires |elf| >= 64
  {
    PhdrOff(elf, i) + 56 <= |elf|
  }

  /** The loadable segments among the first `n` program headers. */
  function Segments(elf: seq<Byte>, n: nat): seq<Phdr>
    requires |elf| >= 64
    requires forall i :: 0 <= i < n ==> PhdrInBounds(elf, i)
  {
    if n == 0 then []
    else
      assert PhdrInBounds(elf, n - 1);
      var ph := PhdrAt(elf, PhdrOff(elf, n - 1));
      Segments(elf, n - 1) + if ph.kind == PT_LOAD then [ph] else []
  }

  // ------------------------------------------------------------------- writing the headers

  /** `n` as `k` bytes, least significant first. */
  function Bytes(n: nat, k: nat): (b: seq<Byte>)
    ensures |b| == k
  {
    if k == 0 then [] else [n % 256] + Bytes(n / 256, k - 1)
  }

  /** `part` stands in `b` at offset `off`. */
  ghost predicate At(b: seq<Byte>, off: nat, part: seq<Byte>) {
    off + |part| <= |b| && b[off..off + |part|] == part
  }

  lemma {:induction false} Reads16(b: seq<Byte>, off: nat, n: nat)
    requires n < 0x1_0000 && At(b, off, Bytes(n, 2))
    ensures Rd16(b, off) == n
  {
    assert Bytes(n, 2) == [n % 256] + ([(n / 256) % 256] + Bytes(n / 256 / 256, 0));
    assert b[off] == b[off..off + 2][0] && b[off + 1] == b[off..off + 2][1];
  }

  lemma {:induction false} BytesSplit(n: nat, j: nat, k: nat, q: nat)
    requires q == Over(n, j)
    ensures Bytes(n, j + k) == Bytes(n, j) + Bytes(q, k)
  {
    if j > 0 { BytesSplit(n / 256, j - 1, k, q); }
  }

  /** `n` without its `j` lowest bytes. */
  function Over(n: nat, j: nat): nat {
    if j == 0 then n else Over(n / 256, j - 1)
  }

  lemma {:induction false} SplitAt(b: seq<Byte>, off: nat, x: seq<Byte>, y: seq<Byte>)
    requires At(b, off, x + y)
    ensures At(b, off, x) && At(b, off + |x|, y)
  {
    var z := b[off..off + |x + y|];
    assert x == z[..|x|] && y == z[|x|..];
    assert z[..|x|] == b[off..off + |x|] && z[|x|..] == b[off + |x|..off + |x| + |y|];
  }

  /** All the bytes of a number that fits. */
  lemma {:induction false} LowBytes(n: nat)
    ensures Bytes(n, 2) == Bytes(n % 0x1_0000, 2) && Over(n, 2) == n / 0x1_0000
    ensures Over(n, 4) == n / 0x1_0000_0000 && Bytes(n, 4) == Bytes(n % 0x1_0000_0000, 4)
  {
    assert n / 256 / 256 == n / 0x1_0000 && n / 0x1_0000 / 0x1_0000 == n / 0x1_0000_0000;
    assert Over(n, 4) == Over(n / 256, 3) == Over(n / 256 / 256, 2);
    LowTwo(n);
    LowTwo(n % 0x1_0000_0000);
    BytesSplit(n, 2, 2, n / 0x1_0000);
    BytesSplit(n % 0x1_0000_0000, 2, 2, n % 0x1_0000_0000 / 0x1_0000);
    LowTwo(n / 0x1_0000);
    assert n % 0x1_0000_0000 / 0x1_0000 == n / 0x1_0000 % 0x1_0000;
    assert n % 0x1_0000_0000 % 0x1_0000 == n % 0x1_0000;
  }

  lemma {:induction false} LowTwo(n: nat)
    ensures Bytes(n, 2) == Bytes(n % 0x1_0000, 2) && Over(n, 2) == n / 0x1_0000
  {
    var m := n % 0x1_0000;
    assert n % 256 == m % 256 && (n / 256) % 256 == (m / 256) % 256;
    assert Bytes(n, 2) == [n % 256] + ([(n / 256) % 256] + Bytes(n / 256 / 256, 0));
    assert Bytes(m, 2) == [m % 256] + ([(m / 256) % 256] + Bytes(m / 256 / 256, 0));
    assert Over(n, 2) == Over(n / 256, 1) == Over(n / 256 / 256, 0);
  }

  lemma {:induction false} Reads32(b: seq<Byte>, off: nat, n: nat)
    requires n < 0x1_0000_0000 && At(b, off, Bytes(n, 4))
    ensures Rd32(b, off) == n
  {
    LowTwo(n);
    BytesSplit(n, 2, 2, n / 0x1_0000);
    SplitAt(b, off, Bytes(n, 2), Bytes(n / 0x1_0000, 2));
    Reads16(b, off, n % 0x1_0000);
    Reads16(b, off + 2, n / 0x1_0000);
  }

  lemma {:induction false} Reads64(b: seq<Byte>, off: nat, n: nat)
    requires n < TOP && At(b, off, Bytes(n, 8))
    ensures Rd64(b, off) == n
  {
    LowBytes(n);
    BytesSplit(n, 4, 4, n / 0x1_0000_0000);
    SplitAt(b, off, Bytes(n, 4), Bytes(n / 0x1_0000_0000, 4));
    Reads32(b, off, n % 0x1_0000_0000);
    Reads32(b, off + 4, n / 0x1_0000_0000);
  }

  /** A program header in the order the ELF-64 object file format lays it out: type, flags, offset, virtual
      address, physical address, size in the file, size in memory, alignment. */
  function PhdrBytes(ph: Phdr, paddr: nat, align: nat): (b: seq<Byte>)
    ensures |b| == 56
  {
    Bytes(ph.kind, 4) + (Bytes(ph.flags, 4) + (Bytes(ph.offset, 8) + (Bytes(ph.vaddr, 8) + (Bytes(paddr, 8)
    + (Bytes(ph.filesz, 8) + (Bytes(ph.memsz, 8) + Bytes(align, 8)))))))
  }

  /** What is written as a program header reads back as it. */
  lemma {:induction false} PhdrRoundTrip(elf: seq<Byte>, off: nat, ph: Phdr, paddr: nat, align: nat)
    requires At(elf, off, PhdrBytes(ph, paddr, align)) && ph.kind < 0x1_0000_0000 && ph.flags < 0x1_0000_0000
    ensures PhdrAt(elf, off) == ph
  {
    hide Bytes, At, Rd32, Rd64;
    var h := Bytes(align, 8);
    var g := Bytes(ph.memsz, 8) + h;
    var f := Bytes(ph.filesz, 8) + g;
    var e := Bytes(paddr, 8) + f;
    var d := Bytes(ph.vaddr, 8) + e;
    var c := Bytes(ph.offset, 8) + d;
    SplitAt(elf, off, Bytes(ph.kind, 4), Bytes(ph.flags, 4) + c);
    SplitAt(elf, off + 4, Bytes(ph.flags, 4), c);
    SplitAt(elf, off + 8, Bytes(ph.offset, 8), d);
    SplitAt(elf, off + 16, Bytes(ph.vaddr, 8), e);
    SplitAt(elf, off + 24, Bytes(paddr, 8), f);
    SplitAt(elf, off + 32, Bytes(ph.filesz, 8), g);
    SplitAt(elf, off + 40, Bytes(ph.memsz, 8), h);
    Reads32(elf, off, ph.kind);
    Reads32(elf, off + 4, ph.flags);
    Reads64(elf, off + 8, ph.offset);
    Reads64(elf, off + 16, ph.vaddr);
    Reads64(elf, off + 32, ph.filesz);
    Reads64(elf, off + 40, ph.memsz);
    AtFits(elf, off, PhdrBytes(ph, paddr, align));
  }

  /** What a file header says that the loader reads. */
  datatype Ehdr = Ehdr(width: Byte, etype: nat, machine: nat, entry: U64, phoff: U64, phentsize: nat, phnum: nat)

  /** A file header in the order the format lays it out: magic, class, the rest of the identification, type,
      machine, version, entry, both table offsets, flags, and the six small sizes and counts. */
  function EhdrBytes(h: Ehdr, ident: seq<Byte>, version: nat, shoff: nat, flags: nat, ehsize: nat, rest: seq<Byte>): (b: seq<Byte>)
    requires |ident| == 11 && |rest| == 6
    ensures |b| == 64
  {
    [0x7F, 0x45, 0x4C, 0x46] + ([h.width] + (ident + (Bytes(h.etype, 2) + (Bytes(h.machine, 2) + (Bytes(version, 4)
    + (Bytes(h.entry, 8) + (Bytes(h.phoff, 8) + (Bytes(shoff, 8) + (Bytes(flags, 4) + (Bytes(ehsize, 2)
    + (Bytes(h.phentsize, 2) + (Bytes(h.phnum, 2) + rest))))))))))))
  }

  /** What is written as a file header is judged by what it says, and its fields read back. */
  lemma {:induction false} EhdrRoundTrip(elf: seq<Byte>, isa: Isa, h: Ehdr, ident: seq<Byte>, version: nat, shoff: nat, flags: nat,
                                         ehsize: nat, rest: seq<Byte>)
    requires |ident| == 11 && |rest| == 6 && At(elf, 0, EhdrBytes(h, ident, version, shoff, flags, ehsize, rest))
    requires h.etype < 0x1_0000 && h.machine < 0x1_0000 && h.phentsize < 0x1_0000 && h.phnum < 0x1_0000
    ensures |elf| >= 64 && Rd64(elf, 24) == h.entry && Rd16(elf, 56) == h.phnum
    ensures forall i: nat :: PhdrOff(elf, i) == h.phoff + Times(i, h.phentsize)
    ensures HeaderVerdict(elf, isa) == if h.width != 2 then Some(Not64)
                                       else if h.machine != (if isa == X86 then 0x3E else 0xF3) then Some(BadMachine)
                                       else if h.etype != 2 then Some(NotExec) else None
  {
    hide Bytes, At, Rd16, Rd64, Times;
    var m := Bytes(h.phnum, 2) + rest;
    var l := Bytes(h.phentsize, 2) + m;
    var k := Bytes(ehsize, 2) + l;
    var j := Bytes(flags, 4) + k;
    var i := Bytes(shoff, 8) + j;
    var g := Bytes(h.phoff, 8) + i;
    var f := Bytes(h.entry, 8) + g;
    var e := Bytes(version, 4) + f;
    var d := Bytes(h.machine, 2) + e;
    var c := Bytes(h.etype, 2) + d;
    SplitAt(elf, 0, [0x7F, 0x45, 0x4C, 0x46], [h.width] + (ident + c));
    SplitAt(elf, 4, [h.width], ident + c);
    SplitAt(elf, 5, ident, c);
    SplitAt(elf, 16, Bytes(h.etype, 2), d);
    SplitAt(elf, 18, Bytes(h.machine, 2), e);
    SplitAt(elf, 20, Bytes(version, 4), f);
    SplitAt(elf, 24, Bytes(h.entry, 8), g);
    SplitAt(elf, 32, Bytes(h.phoff, 8), i);
    SplitAt(elf, 40, Bytes(shoff, 8), j);
    SplitAt(elf, 48, Bytes(flags, 4), k);
    SplitAt(elf, 52, Bytes(ehsize, 2), l);
    SplitAt(elf, 54, Bytes(h.phentsize, 2), m);
    SplitAt(elf, 56, Bytes(h.phnum, 2), rest);
    AtFits(elf, 0, EhdrBytes(h, ident, version, shoff, flags, ehsize, rest));
    Reads16(elf, 16, h.etype);
    Reads16(elf, 18, h.machine);
    Reads64(elf, 24, h.entry);
    Reads64(elf, 32, h.phoff);
    Reads16(elf, 54, h.phentsize);
    Reads16(elf, 56, h.phnum);
    IdentAt(elf, h.width);
  }

  lemma {:induction false} IdentAt(elf: seq<Byte>, width: Byte)
    requires At(elf, 0, [0x7F, 0x45, 0x4C, 0x46]) && At(elf, 4, [width])
    ensures |elf| >= 5 && elf[..4] == [0x7F, 0x45, 0x4C, 0x46] && elf[4] == width
  {
    assert elf[4] == elf[4..5][0];
  }

  lemma {:induction false} AtFits(b: seq<Byte>, off: nat, part: seq<Byte>)
    requires At(b, off, part)
    ensures off + |part| <= |b|
  {}

  // ------------------------------------------------------------------- what an image means

  function Min(a: int, b: int): int { if a < b then a else b }

  function Max(a: int, b: int): int { if a > b then a else b }

  function PageBase(va: nat): nat { va - va % PAGE }

  predicate InCover(ph: Phdr, page: nat) {
    ph.memsz > 0 && page % PAGE == 0 && PageBase(ph.vaddr) <= page < ph.vaddr + ph.memsz
  }

  /** The bytes a segment takes from the file: no more than it declares in memory. */
  function FileLen(ph: Phdr): nat { Min(ph.filesz, ph.memsz) }

  /** A segment the loader accepts: no wraparound, and every file byte it needs exists. */
  predicate SegmentOk(elf: seq<Byte>, ph: Phdr) {
    ph.memsz > 0 ==>
      && ph.vaddr + ph.memsz < TOP
      && ph.vaddr + ph.filesz < TOP
      && (FileLen(ph) > 0 ==> ph.offset + FileLen(ph) <= |elf|)
  }

  /** What address `va` of a segment holds: its file byte, or zero past the file part. */
  function ByteAt(elf: seq<Byte>, ph: Phdr, va: nat): Byte {
    if ph.vaddr <= va < ph.vaddr + FileLen(ph) && ph.offset + (va - ph.vaddr) < |elf|
    then elf[ph.offset + (va - ph.vaddr)] else 0
  }

  predicate PageHolds(elf: seq<Byte>, ph: Phdr, page: nat, bytes: seq<Byte>) {
    |bytes| == PAGE && forall i :: 0 <= i < PAGE ==> bytes[i] == ByteAt(elf, ph, page + i)
  }

  /** The file bytes of every page below `page` exist. */
  predicate FileReaches(elf: seq<Byte>, ph: Phdr, page: nat) {
    FileLen(ph) > 0 && page > ph.vaddr ==> ph.offset + Min(FileLen(ph), page - ph.vaddr) <= |elf|
  }

  // ------------------------------------------------------------------- frames and page tables

  datatype Leaf = Leaf(frame: nat, flags: set<PageFlag>)

  function Zeros(): (z: seq<Byte>)
    ensures |z| == PAGE && forall i :: 0 <= i < PAGE ==> z[i] == 0
  {
    seq(PAGE, _ => 0)
  }

  // ------------------------------------------------------------------- what loading achieves

  /** The pages of `ph` below `upTo` are in place, and nothing else changed since the start. */
  ghost predicate Placed(elf: seq<Byte>, isa: Isa, ph: Phdr, upTo: nat,
                         space0: map<nat, Leaf>, bytes0: map<nat, seq<Byte>>,
                         space: map<nat, Leaf>, bytes: map<nat, seq<Byte>>)
  {
    && (forall va: nat :: va in space <==> va in space0 || (InCover(ph, va) && va < upTo))
    && (forall va: nat :: va in space0 ==> Kept(va, space0, bytes0, space, bytes) && !(InCover(ph, va) && va < upTo))
    && (forall va: nat :: InCover(ph, va) && va < upTo ==> PagePlaced(elf, isa, ph, va, space, bytes))
  }

  ghost predicate Kept(va: nat, space0: map<nat, Leaf>, bytes0: map<nat, seq<Byte>>,
                       space: map<nat, Leaf>, bytes: map<nat, seq<Byte>>) {
    && va in space0 && va in space && space[va] == space0[va]
    && space[va].frame in bytes0 && space[va].frame in bytes
    && bytes[space[va].frame] == bytes0[space[va].frame]
  }

  ghost predicate PagePlaced(elf: seq<Byte>, isa: Isa, ph: Phdr, va: nat,
                             space: map<nat, Leaf>, bytes: map<nat, seq<Byte>>) {
    && va in space && space[va].flags == LeafFlags(isa, ph.flags)
    && space[va].frame in bytes && PageHolds(elf, ph, va, bytes[space[va].frame])
  }

  /** The mapped pages are those mapped before plus the page covers of the segments, all disjoint. */
  ghost predicate Outline(segs: seq<Phdr>, before: set<nat>, after: set<nat>) {
    && (forall va: nat :: va in after <==> va in before || Covers(segs, va))
    && (forall va: nat, k: nat :: va in before && k < |segs| ==> !InCover(segs[k], va))
    && (forall j: nat, k: nat, va: nat :: j < k < |segs| ==> !(InCover(segs[j], va) && InCover(segs[k], va)))
  }

  ghost predicate Covers(segs: seq<Phdr>, va: nat) {
    exists k: nat :: k < |segs| && InCover(segs[k], va)
  }

  ghost predicate AllKept(space0: map<nat, Leaf>, bytes0: map<nat, seq<Byte>>,
                          space: map<nat, Leaf>, bytes: map<nat, seq<Byte>>) {
    forall va: nat :: va in space0 ==> Kept(va, space0, bytes0, space, bytes)
  }

  ghost predicate AllPlaced(elf: seq<Byte>, isa: Isa, segs: seq<Phdr>,
                            space: map<nat, Leaf>, bytes: map<nat, seq<Byte>>) {
    forall k: nat, va: nat :: k < |segs| && InCover(segs[k], va) ==> PagePlaced(elf, isa, segs[k], va, space, bytes)
  }

  /** The address space holds exactly what was there before plus the page covers of the segments,
      which do not overlap; every page holds its segment's bytes under its segment's permissions. */
  ghost predicate Loaded(elf: seq<Byte>, isa: Isa, segs: seq<Phdr>,
                         space0: map<nat, Leaf>, bytes0: map<nat, seq<Byte>>,
                         space: map<nat, Leaf>, bytes: map<nat, seq<Byte>>)
  {
    && Outline(segs, space0.Keys, space.Keys)
    && AllKept(space0, bytes0, space, bytes)
    && AllPlaced(elf, isa, segs, space, bytes)
  }

  predicate PhdrOk(elf: seq<Byte>, i: nat)
    requires |elf| >= 64
  {
    PhdrInBounds(elf, i) ==>
      var ph := PhdrAt(elf, PhdrOff(elf, i));
      ph.kind == PT_LOAD ==> SegmentOk(elf, ph)
  }

  /** Every program header lies in the file and every loadable segment is acceptable. */
  ghost predicate ImageOk(elf: seq<Byte>) {
    && |elf| >= 64
    && (forall i :: 0 <= i < Rd16(elf, 56) ==> PhdrInBounds(elf, i))
    && (forall i :: 0 <= i < Rd16(elf, 56) ==> PhdrOk(elf, i))
  }

  lemma {:induction false} PageContent(elf: seq<Byte>, ph: Phdr, page: nat, content: seq<Byte>)
    requires |elf| < TOP && page % PAGE == 0 && page < TOP
    requires 0 < ph.memsz && ph.vaddr + ph.memsz < TOP && ph.vaddr + ph.filesz < TOP
    requires FileReaches(elf, ph, page)
    requires var to, from := Min(Min(page + PAGE, TOP - 1), ph.vaddr + FileLen(ph)), Max(page, ph.vaddr);
             if from < to then
               && ph.offset + (to - ph.vaddr) <= |elf|
               && content == Zeros()[..from - page] + elf[ph.offset + (from - ph.vaddr)..ph.offset + (to - ph.vaddr)]
                             + Zeros()[to - page..]
             else content == Zeros()
    ensures PageHolds(elf, ph, page, content)
    ensures FileReaches(elf, ph, page + PAGE)
  {
    var to, from := Min(Min(page + PAGE, TOP - 1), ph.vaddr + FileLen(ph)), Max(page, ph.vaddr);
    forall i | 0 <= i < PAGE ensures content[i] == ByteAt(elf, ph, page + i) {
      if from < to && from <= page + i < to {
        assert content[i] == elf[ph.offset + (from - ph.vaddr)..ph.offset + (to - ph.vaddr)][i - (from - page)];
      }
    }
  }

  lemma {:induction false} FileMissing(elf: seq<Byte>, ph: Phdr, to: nat)
    requires 0 < ph.memsz && ph.vaddr < to <= ph.vaddr + FileLen(ph)
    requires ph.offset + (to - ph.vaddr) > |elf|
    ensures !SegmentOk(elf, ph)
  {}

  lemma {:induction false} BaseAligned(va: nat)
    ensures PageBase(va) % PAGE == 0 && PageBase(va) <= va
  {
    assert PageBase(va) == 4096 * (va / 4096);
  }

  lemma {:induction false} CoverHas(ph: Phdr, page: nat)
    requires ph.memsz > 0 && page % PAGE == 0 && PageBase(ph.vaddr) <= page < ph.vaddr + ph.memsz
    ensures InCover(ph, page)
  {}

  lemma {:induction false} PlacedNone(elf: seq<Byte>, isa: Isa, ph: Phdr, space: map<nat, Leaf>, bytes: map<nat, seq<Byte>>)
    requires forall va: nat :: va in space ==> space[va].frame in bytes
    ensures Placed(elf, isa, ph, PageBase(ph.vaddr), space, bytes, space, bytes)
    ensures FileReaches(elf, ph, PageBase(ph.vaddr))
  {}

  lemma {:induction false} EmptySegment(elf: seq<Byte>, isa: Isa, ph: Phdr, space: map<nat, Leaf>, bytes: map<nat, seq<Byte>>)
    requires ph.memsz == 0 && Placed(elf, isa, ph, PageBase(ph.vaddr), space, bytes, space, bytes)
    ensures SegmentOk(elf, ph) && Placed(elf, isa, ph, TOP, space, bytes, space, bytes)
  {}

  /** The page after a page-aligned address is the next aligned address. */
  lemma {:induction false} NextPage(page: nat, va: nat)
    requires page % PAGE == 0 && va % PAGE == 0 && page <= va < page + PAGE
    ensures va == page
  {}

  lemma {:induction false} PlacedNext(elf: seq<Byte>, isa: Isa, ph: Phdr, page: nat,
                     space0: map<nat, Leaf>, bytes0: map<nat, seq<Byte>>,
                     space1: map<nat, Leaf>, bytes1: map<nat, seq<Byte>>,
                     space: map<nat, Leaf>, bytes: map<nat, seq<Byte>>)
    requires Placed(elf, isa, ph, page, space0, bytes0, space1, bytes1)
    requires page !in space1 && page in space && InCover(ph, page)
    requires space == space1[page := space[page]]
    requires PagePlaced(elf, isa, ph, page, space, bytes)
    requires forall va: nat :: va in space1 ==> Kept(va, space1, bytes1, space, bytes)
    ensures Placed(elf, isa, ph, page + PAGE, space0, bytes0, space, bytes)
  {
    hide LeafFlags, PageHolds;
    forall va: nat ensures InCover(ph, va) && va < page + PAGE <==> (InCover(ph, va) && va < page) || va == page {
      if InCover(ph, va) && page <= va < page + PAGE { NextPage(page, va); }
    }
    forall va: nat | va in space0 ensures Kept(va, space0, bytes0, space, bytes) {
      assert Kept(va, space0, bytes0, space1, bytes1) && Kept(va, space1, bytes1, space, bytes);
    }
    forall va: nat | InCover(ph, va) && va < page + PAGE ensures PagePlaced(elf, isa, ph, va, space, bytes) {
      if va != page {
        assert PagePlaced(elf, isa, ph, va, space1, bytes1) && Kept(va, space1, bytes1, space, bytes);
      }
    }
  }

  lemma {:induction false} PlacedAll(elf: seq<Byte>, isa: Isa, ph: Phdr, page: nat,
                     space0: map<nat, Leaf>, bytes0: map<nat, seq<Byte>>,
                     space: map<nat, Leaf>, bytes: map<nat, seq<Byte>>)
    requires Placed(elf, isa, ph, page, space0, bytes0, space, bytes)
    requires page >= ph.vaddr + ph.memsz || page >= TOP
    requires 0 < ph.memsz && ph.vaddr + ph.memsz < TOP && ph.vaddr + ph.filesz < TOP
    requires FileReaches(elf, ph, page)
    ensures SegmentOk(elf, ph)
    ensures Placed(elf, isa, ph, TOP, space0, bytes0, space, bytes)
  {
    assert forall va: nat :: InCover(ph, va) ==> va < page && va < TOP;
  }

  lemma {:induction false} LoadedNone(elf: seq<Byte>, isa: Isa, space: map<nat, Leaf>, bytes: map<nat, seq<Byte>>)
    requires forall va :: va in space ==> space[va].frame in bytes
    ensures Loaded(elf, isa, [], space, bytes, space, bytes)
  {}

  lemma {:induction false} CoverBelowTop(elf: seq<Byte>, ph: Phdr)
    requires SegmentOk(elf, ph)
    ensures forall va: nat :: InCover(ph, va) ==> va < TOP
  {}

  lemma {:induction false} OutlineNext(segs: seq<Phdr>, ph: Phdr, k0: set<nat>, k1: set<nat>, k2: set<nat>)
    requires Outline(segs, k0, k1)
    requires forall va: nat :: InCover(ph, va) ==> va !in k1
    requires forall va: nat :: va in k2 <==> va in k1 || InCover(ph, va)
    ensures Outline(segs + [ph], k0, k2)
  {
    hide InCover;
    var all := segs + [ph];
    forall va: nat ensures Covers(all, va) <==> Covers(segs, va) || InCover(ph, va) {
      if Covers(segs, va) {
        var k: nat :| k < |segs| && InCover(segs[k], va);
        assert InCover(all[k], va);
      }
      assert all[|segs|] == ph;
    }
    forall j: nat, k: nat, va: nat | j < k < |all| ensures !(InCover(all[j], va) && InCover(all[k], va)) {
      if InCover(all[j], va) { assert Covers(segs, va); }
    }
  }

  lemma {:induction false} LoadedNext(elf: seq<Byte>, isa: Isa, segs: seq<Phdr>, ph: Phdr,
                     space0: map<nat, Leaf>, bytes0: map<nat, seq<Byte>>,
                     space1: map<nat, Leaf>, bytes1: map<nat, seq<Byte>>,
                     space: map<nat, Leaf>, bytes: map<nat, seq<Byte>>)
    requires Loaded(elf, isa, segs, space0, bytes0, space1, bytes1)
    requires SegmentOk(elf, ph) && Placed(elf, isa, ph, TOP, space1, bytes1, space, bytes)
    ensures Loaded(elf, isa, segs + [ph], space0, bytes0, space, bytes)
  {
    CoverBelowTop(elf, ph);
    hide LeafFlags, PageHolds, InCover, SegmentOk;
    OutlineNext(segs, ph, space0.Keys, space1.Keys, space.Keys);
    forall va: nat | va in space0 ensures Kept(va, space0, bytes0, space, bytes) {
      assert Kept(va, space0, bytes0, space1, bytes1) && Kept(va, space1, bytes1, space, bytes);
    }
    var all := segs + [ph];
    forall k: nat, va: nat | k < |all| && InCover(all[k], va) ensures PagePlaced(elf, isa, all[k], va, space, bytes) {
      if k < |segs| {
        assert PagePlaced(elf, isa, segs[k], va, space1, bytes1) && Kept(va, space1, bytes1, space, bytes);
      }
    }
  }

  /** A mapped address reads as the segment it belongs to says: its file byte below the file part,
      zero above it, with exactly the permissions the header asks for. */
  lemma {:induction false} LoadedMeans(elf: seq<Byte>, isa: Isa, segs: seq<Phdr>, k: nat, va: nat,
                                       space: map<nat, Leaf>, bytes: map<nat, seq<Byte>>)
    requires AllPlaced(elf, isa, segs, space, bytes)
    requires k < |segs| && SegmentOk(elf, segs[k]) && segs[k].vaddr <= va < segs[k].vaddr + segs[k].memsz
    ensures var ph, page := segs[k], PageBase(va);
            && page in space && space[page].frame in bytes && |bytes[space[page].frame]| == PAGE
            && (va - ph.vaddr < Min(ph.filesz, ph.memsz) ==> ph.offset + (va - ph.vaddr) < |elf|)
            && (bytes[space[page].frame][va - page] ==
                  if va - ph.vaddr < Min(ph.filesz, ph.memsz) then elf[ph.offset + (va - ph.vaddr)] else 0)
            && (Writable(isa, space[page].flags) <==> WantsWrite(ph.flags))
            && (Executable(isa, space[page].flags) <==> WantsExec(ph.flags))
  {
    var ph, page := segs[k], PageBase(va);
    BaseAligned(va);
    BaseMonotone(ph.vaddr, va);
    assert InCover(ph, page);
    assert PagePlaced(elf, isa, ph, page, space, bytes);
    FlagsMeanWhatTheHeaderSays(isa, ph.flags);
    assert bytes[space[page].frame][va - page] == ByteAt(elf, ph, page + (va - page));
  }

  lemma {:induction false} BaseMonotone(a: nat, b: nat)
    requires a <= b
    ensures PageBase(a) <= PageBase(b) <= b < PageBase(b) + PAGE
  {
    assert PageBase(a) == 4096 * (a / 4096) && PageBase(b) == 4096 * (b / 4096);
  }

  // ------------------------------------------------------------------- a whole process

  predicate InStack(stackTop: nat, n: nat, va: nat) {
    exists p: nat :: p < n && StackVa(stackTop, p, va)
  }

  predicate StackVa(stackTop: nat, p: nat, va: nat) {
    va == stackTop - (p + 1) * 4096
  }

  /** The address space is the image and the first `n` stack pages, and nothing else. */
  ghost predicate Built(elf: seq<Byte>, isa: Isa, segs: seq<Phdr>, stackTop: nat, n: nat,
                        space: map<nat, Leaf>, bytes: map<nat, seq<Byte>>)
  {
    && AllPlaced(elf, isa, segs, space, bytes)
    && (forall va: nat :: va in space <==> Covers(segs, va) || InStack(stackTop, n, va))
    && (forall va: nat :: InStack(stackTop, n, va) ==>
          && !Covers(segs, va) && space[va].flags == LeafFlags(isa, 2)
          && space[va].frame in bytes && bytes[space[va].frame] == Zeros())
  }

  lemma {:induction false} ImageBounds(elf: seq<Byte>)
    requires ImageOk(elf)
    ensures |elf| >= 64 && forall i :: 0 <= i < Rd16(elf, 56) ==> PhdrInBounds(elf, i)
  {}

  lemma {:induction false} BuiltImage(elf: seq<Byte>, isa: Isa, segs: seq<Phdr>, stackTop: nat,
                                      bytes0: map<nat, seq<Byte>>, space: map<nat, Leaf>, bytes: map<nat, seq<Byte>>)
    requires Loaded(elf, isa, segs, map[], bytes0, space, bytes)
    ensures Built(elf, isa, segs, stackTop, 0, space, bytes)
  {
    hide InCover, PagePlaced;
  }

  lemma {:induction false} BuiltNext(elf: seq<Byte>, isa: Isa, segs: seq<Phdr>, stackTop: nat, n: nat,
                                     space1: map<nat, Leaf>, bytes1: map<nat, seq<Byte>>,
                                     space: map<nat, Leaf>, bytes: map<nat, seq<Byte>>)
    requires Built(elf, isa, segs, stackTop, n, space1, bytes1) && (n + 1) * 4096 <= stackTop
    requires var va := stackTop - (n + 1) * 4096;
             && va !in space1 && va in space
             && space == space1[va := Leaf(space[va].frame, LeafFlags(isa, 2))]
             && space[va].frame in bytes && bytes[space[va].frame] == Zeros()
    requires forall a :: a in space1 ==> Kept(a, space1, bytes1, space, bytes)
    ensures Built(elf, isa, segs, stackTop, n + 1, space, bytes)
  {
    hide InCover, LeafFlags, PageHolds, Zeros;
    var added := stackTop - (n + 1) * 4096;
    assert StackVa(stackTop, n, added);
    forall va: nat ensures InStack(stackTop, n + 1, va) <==> InStack(stackTop, n, va) || va == added {
      if InStack(stackTop, n, va) {
        var p: nat :| p < n && StackVa(stackTop, p, va);
        assert p < n + 1 && StackVa(stackTop, p, va);
      }
    }
    forall k: nat, va: nat | k < |segs| && InCover(segs[k], va) ensures PagePlaced(elf, isa, segs[k], va, space, bytes) {
      assert PagePlaced(elf, isa, segs[k], va, space1, bytes1) && Kept(va, space1, bytes1, space, bytes);
    }
    forall va: nat | InStack(stackTop, n, va)
      ensures va in space && space[va].flags == LeafFlags(isa, 2)
      ensures space[va].frame in bytes && bytes[space[va].frame] == Zeros()
    {
      assert Kept(va, space1, bytes1, space, bytes);
    }
  }

  lemma {:induction false} PhdrMissing(elf: seq<Byte>, i: nat)
    requires |elf| >= 64 && i < Rd16(elf, 56) && !PhdrInBounds(elf, i)
    ensures !ImageOk(elf)
  {}

  lemma {:induction false} SegmentWraps(elf: seq<Byte>, ph: Phdr)
    requires ph.memsz > 0 && (ph.vaddr + ph.memsz >= TOP || ph.vaddr + ph.filesz >= TOP)
    ensures !SegmentOk(elf, ph)
  {}

  lemma {:induction false} SegmentsNext(elf: seq<Byte>, i: nat)
    requires |elf| >= 64 && (forall j :: 0 <= j < i ==> PhdrInBounds(elf, j)) && PhdrInBounds(elf, i)
    ensures forall j :: 0 <= j < i + 1 ==> PhdrInBounds(elf, j)
    ensures var ph := PhdrAt(elf, PhdrOff(elf, i));
            && (Segments(elf, i + 1) == if ph.kind == PT_LOAD then Segments(elf, i) + [ph] else Segments(elf, i))
            && (PhdrOk(elf, i) <==> (ph.kind == PT_LOAD ==> SegmentOk(elf, ph)))
  {
    assert Segments(elf, i) + [] == Segments(elf, i);
  }

  /** Loadable headers seen one at a time are the segments of the image. */
  lemma {:induction false} ImageDone(elf: seq<Byte>, n: nat)
    requires |elf| >= 64 && n == Rd16(elf, 56)
    requires forall j :: 0 <= j < n ==> PhdrInBounds(elf, j) && PhdrOk(elf, j)
    ensures ImageOk(elf)
  {}

  lemma {:induction false} SegmentBad(elf: seq<Byte>, i: nat)
    requires |elf| >= 64 && i < Rd16(elf, 56) && PhdrInBounds(elf, i)
    requires PhdrAt(elf, PhdrOff(elf, i)).kind == PT_LOAD && !SegmentOk(elf, PhdrAt(elf, PhdrOff(elf, i)))
    ensures !ImageOk(elf)
  {
    assert !PhdrOk(elf, i);
  }

  /** Page `va` of the segment of program header `i` was mapped before, or is another segment's too. */
  ghost predicate ClashAt(elf: seq<Byte>, i: nat, va: nat, before: set<nat>) {
    && |elf| >= 64 && i < Rd16(elf, 56) && (forall j :: 0 <= j <= i ==> PhdrInBounds(elf, j))
    && PhdrInBounds(elf, i)
    && var ph := PhdrAt(elf, PhdrOff(elf, i));
    && ph.kind == PT_LOAD && InCover(ph, va) && (va in before || Covers(Segments(elf, i), va))
  }

  lemma {:induction false} SegmentsClash(elf: seq<Byte>, isa: Isa, i: nat, va: nat,
                                         space0: map<nat, Leaf>, bytes0: map<nat, seq<Byte>>,
                                         space: map<nat, Leaf>, bytes: map<nat, seq<Byte>>)
    requires |elf| >= 64 && i < Rd16(elf, 56) && forall j :: 0 <= j <= i ==> PhdrInBounds(elf, j)
    requires Loaded(elf, isa, Segments(elf, i), space0, bytes0, space, bytes) && va in space
    requires PhdrInBounds(elf, i)
    requires PhdrAt(elf, PhdrOff(elf, i)).kind == PT_LOAD && InCover(PhdrAt(elf, PhdrOff(elf, i)), va)
    ensures ClashAt(elf, i, va, space0.Keys)
  {
    hide InCover, PagePlaced, Kept;
  }

  /** A page whose turn has not come is mapped only if it was to begin with. */
  lemma {:induction false} NotYetPlaced(elf: seq<Byte>, isa: Isa, ph: Phdr, page: nat,
                                        space0: map<nat, Leaf>, bytes0: map<nat, seq<Byte>>,
                                        space: map<nat, Leaf>, bytes: map<nat, seq<Byte>>)
    requires Placed(elf, isa, ph, page, space0, bytes0, space, bytes)
    ensures page in space <==> page in space0
  {
    hide InCover, PagePlaced, Kept;
  }

  /** A frame pool, the frames recorded for the process being built, frame contents, and the
      process's address space as a map from page address to leaf. */
  class Machine {
    var pool: set<nat>
    var taken: seq<nat>
    var bytes: map<nat, seq<Byte>>
    var space: map<nat, Leaf>

    /** Recorded frames are distinct and no longer free; every leaf has its own recorded frame. */
    ghost predicate Valid()
      reads this
    {
      && NoDup(taken) && |taken| <= MAX_PROC_FRAMES
      && (forall f :: f in taken ==> f !in pool)
      && (forall va: nat :: va in space ==> space[va].frame in taken && space[va].frame in bytes)
      && (forall a, b :: a in space && b in space && a != b ==> space[a].frame != space[b].frame)
    }

    /** Every frame is free, or recorded, or somebody else's. */
    ghost function Owned(): set<nat>
      reads this
    {
      pool + set f | f in taken
    }

    /** No frame is left, or no room to record one. */
    ghost predicate Exhausted()
      reads this
    {
      pool == {} || |taken| >= MAX_PROC_FRAMES
    }

    constructor (pool: set<nat>)
      ensures Valid() && this.pool == pool && taken == [] && space == map[]
    {
      this.pool := pool;
      taken, bytes, space := [], map[], map[];
    }

    /** Hand out a zeroed frame and record it; refuse once the record is full. */
    method AllocFrame() returns (f: Option<nat>)
      requires Valid()
      modifies this
      ensures Valid() && space == old(space) && Owned() == old(Owned())
      ensures f.None? ==> pool == old(pool) && taken == old(taken) && Exhausted()
      ensures f.Some? ==> taken == old(taken) + [f.value] && f.value !in old(taken)
      ensures f.Some? ==> f.value in bytes && bytes[f.value] == Zeros()
      ensures forall g :: g in old(taken) && g in old(bytes) ==> g in bytes && bytes[g] == old(bytes)[g]
    {
      if pool == {} {
        return None;
      }
      var p :| p in pool;
      pool := pool - {p};
      bytes := bytes[p := Zeros()];
      if |taken| >= MAX_PROC_FRAMES {
        pool := pool + {p};
        return None;
      }
      taken := taken + [p];
      return Some(p);
    }

    /** Install a leaf. A page that is already mapped is refused; up to three table frames may be
        needed on the way, and running out of them is a refusal too. */
    method MapPage(va: nat, frame: nat, flags: set<PageFlag>) returns (ok: bool)
      requires Valid()
      requires frame in taken && frame in bytes && forall a :: a in space ==> space[a].frame != frame
      modifies this
      ensures Valid() && Owned() == old(Owned())
      ensures old(taken) <= taken
      ensures space == if ok then old(space)[va := Leaf(frame, flags)] else old(space)
      ensures ok ==> va !in old(space)
      ensures !ok ==> va in old(space) || Exhausted()
      ensures forall g :: g in old(taken) && g in old(bytes) ==> g in bytes && bytes[g] == old(bytes)[g]
    {
      var tables: nat :| tables <= 3;
      var k := 0;
      while k < tables
        invariant k <= tables
        invariant Valid() && Owned() == old(Owned()) && old(taken) <= taken && space == old(space)
        invariant forall g :: g in old(taken) && g in old(bytes) ==> g in bytes && bytes[g] == old(bytes)[g]
      {
        ghost var before := taken;
        var t := AllocFrame();
        if t.None? {
          return false;
        }
        assert forall g :: g in old(taken) ==> g in before;
        k := k + 1;
      }
      if va in space {
        return false;
      }
      space := space[va := Leaf(frame, flags)];
      return true;
    }

    /** The contents of one page of a segment: zeros, with the file bytes that fall in it copied
        over. The copy is clamped to the file-backed window, even at the top of the address space. */
    method FillPage(elf: seq<Byte>, ph: Phdr, page: nat) returns (content: Option<seq<Byte>>)
      requires |elf| < TOP && page % PAGE == 0 && page < TOP
      requires 0 < ph.memsz && ph.vaddr + ph.memsz < TOP && ph.vaddr + ph.filesz < TOP
      requires FileReaches(elf, ph, page)
      ensures content.None? ==> !SegmentOk(elf, ph)
      ensures content.Some? ==> PageHolds(elf, ph, page, content.value) && FileReaches(elf, ph, page + PAGE)
    {
      hide SegmentOk, PageHolds, FileReaches, ByteAt;
      var copyEnd := ph.vaddr + Min(ph.filesz, ph.memsz);
      var pageEnd := Min(page + PAGE, TOP - 1);
      var from := Max(page, ph.vaddr);
      var to := Min(pageEnd, copyEnd);
      var bytes := Zeros();
      if from < to {
        var intra := from - page;
        var len := to - from;
        var fileStart := ph.offset + (from - ph.vaddr);
        if fileStart >= TOP || fileStart + len > |elf| {
          FileMissing(elf, ph, to);
          return None;
        }
        bytes := Zeros()[..intra] + elf[fileStart..fileStart + len] + Zeros()[intra + len..];
      }
      PageContent(elf, ph, page, bytes);
      return Some(bytes);
    }

    /** Fill one fresh frame with one page of a segment and map it. */
    method LoadPage(elf: seq<Byte>, ph: Phdr, page: nat, flags: set<PageFlag>) returns (err: Option<LoadError>)
      requires Valid() && |elf| < TOP
      requires page % PAGE == 0 && page < TOP
      requires 0 < ph.memsz && ph.vaddr + ph.memsz < TOP && ph.vaddr + ph.filesz < TOP
      requires FileReaches(elf, ph, page)
      modifies this
      ensures Valid() && Owned() == old(Owned())
      ensures err.Some? ==> err.value in {Truncated, OutOfFrames, MapFailed}
      ensures err == Some(Truncated) ==> !SegmentOk(elf, ph)
      ensures err == Some(OutOfFrames) ==> Exhausted()
      ensures err == Some(MapFailed) ==> page in old(space) || Exhausted()
      ensures err.None? ==>
                && page in space && page !in old(space)
                && space == old(space)[page := Leaf(space[page].frame, flags)]
                && space[page].frame in bytes && PageHolds(elf, ph, page, bytes[space[page].frame])
                && FileReaches(elf, ph, page + PAGE)
                && forall va :: va in old(space) ==>
                     space[va].frame in bytes && bytes[space[va].frame] == old(bytes)[space[va].frame]
    {
      hide SegmentOk, PageHolds, FileReaches, ByteAt;
      var f := AllocFrame();
      if f.None? {
        return Some(OutOfFrames);
      }
      var content := FillPage(elf, ph, page);
      if content.None? {
        return Some(Truncated);
      }
      bytes := bytes[f.value := content.value];
      var mapped := MapPage(page, f.value, flags);
      return if mapped then None else Some(MapFailed);
    }

    /** The same, extending what is already in place. */
    method PlacePage(elf: seq<Byte>, isa: Isa, ph: Phdr, page: nat,
                     ghost space0: map<nat, Leaf>, ghost bytes0: map<nat, seq<Byte>>)
      returns (err: Option<LoadError>)
      requires Valid() && |elf| < TOP
      requires page % PAGE == 0 && page < TOP && InCover(ph, page)
      requires ph.vaddr + ph.memsz < TOP && ph.vaddr + ph.filesz < TOP
      requires FileReaches(elf, ph, page)
      requires Placed(elf, isa, ph, page, space0, bytes0, space, bytes)
      modifies this
      ensures Valid() && Owned() == old(Owned())
      ensures err.Some? ==> err.value in {Truncated, OutOfFrames, MapFailed}
      ensures err == Some(Truncated) ==> !SegmentOk(elf, ph)
      ensures err == Some(OutOfFrames) ==> Exhausted()
      ensures err == Some(MapFailed) ==> page in space0 || Exhausted()
      ensures err.None? ==>
                && FileReaches(elf, ph, page + PAGE)
                && Placed(elf, isa, ph, page + PAGE, space0, bytes0, space, bytes)
    {
      hide Placed, PageHolds, LeafFlags, FileReaches, SegmentOk, Exhausted;
      NotYetPlaced(elf, isa, ph, page, space0, bytes0, space, bytes);
      err := LoadPage(elf, ph, page, LeafFlags(isa, ph.flags));
      if err.None? {
        assert PagePlaced(elf, isa, ph, page, space, bytes);
        PlacedNext(elf, isa, ph, page, space0, bytes0, old(space), old(bytes), space, bytes);
      }
    }

    /** Materialize one segment, page by page. */
    method LoadSegment(elf: seq<Byte>, isa: Isa, ph: Phdr) returns (err: Option<LoadError>)
      requires Valid() && |elf| < TOP
      modifies this
      ensures Valid() && Owned() == old(Owned())
      ensures err.None? ==> SegmentOk(elf, ph)
      ensures err.None? ==> Placed(elf, isa, ph, TOP, old(space), old(bytes), space, bytes)
      ensures err.Some? ==> err.value in {Truncated, OutOfFrames, MapFailed}
      ensures err == Some(Truncated) ==> !SegmentOk(elf, ph)
      ensures err == Some(OutOfFrames) ==> Exhausted()
      ensures err == Some(MapFailed) ==> Exhausted() || exists va: nat :: va in old(space) && InCover(ph, va)
    {
      hide Placed, FileReaches, SegmentOk, Valid, Owned, InCover, PageBase, PageHolds, ByteAt, FileLen, LeafFlags, Exhausted;
      StartPlaced(elf, isa, ph);
      if ph.memsz == 0 {
        EmptySegment(elf, isa, ph, space, bytes);
        return None;
      }
      var segEnd := ph.vaddr + ph.memsz;
      var fileEnd := ph.vaddr + ph.filesz;
      if segEnd >= TOP || fileEnd >= TOP {
        SegmentWraps(elf, ph);
        return Some(Truncated);
      }
      BaseAligned(ph.vaddr);
      var page := PageBase(ph.vaddr);
      while page < segEnd
        invariant Valid() && Owned() == old(Owned())
        invariant page % PAGE == 0 && PageBase(ph.vaddr) <= page < TOP
        invariant FileReaches(elf, ph, page)
        invariant Placed(elf, isa, ph, page, old(space), old(bytes), space, bytes)
        decreases TOP - page
      {
        CoverHas(ph, page);
        err := PlacePage(elf, isa, ph, page, old(space), old(bytes));
        if err.Some? {
          return;
        }
        if page + PAGE >= TOP {
          PlacedAll(elf, isa, ph, page + PAGE, old(space), old(bytes), space, bytes);
          return None;
        }
        page := page + PAGE;
      }
      PlacedAll(elf, isa, ph, page, old(space), old(bytes), space, bytes);
      return None;
    }

    /** The header checks, in order. */
    method CheckHeader(elf: seq<Byte>, isa: Isa) returns (bad: Option<LoadError>)
      ensures bad == HeaderVerdict(elf, isa)
    {
      if |elf| < 64 { return Some(Truncated); }
      if elf[0] != 0x7F || elf[1] != 0x45 || elf[2] != 0x4C || elf[3] != 0x46 { return Some(BadMagic); }
      assert elf[..4] == [0x7F, 0x45, 0x4C, 0x46];
      if elf[4] != ELFCLASS64 { return Some(Not64); }
      if Rd16(elf, 18) != Machine16(isa) { return Some(BadMachine); }
      if Rd16(elf, 16) != ET_EXEC { return Some(NotExec); }
      return None;
    }

    /** Where program header `i` starts, if it lies wholly inside the image. Every step is checked
        for overflow. */
    method FindPhdr(elf: seq<Byte>, i: nat) returns (off: Option<nat>)
      requires 64 <= |elf| < TOP
      ensures off == if PhdrInBounds(elf, i) then Some(PhdrOff(elf, i)) else None
      ensures off.Some? ==> off.value + 56 <= |elf|
    {
      var stride := Times(i, Rd16(elf, 54));
      if stride >= TOP { return None; }
      var at := Rd64(elf, 32) + stride;
      if at >= TOP || at + 56 >= TOP || at + 56 > |elf| { return None; }
      return Some(at);
    }

    /** Program header `i`: skip it, or load its segment on top of the segments before it. */
    method LoadPhdr(elf: seq<Byte>, isa: Isa, i: nat,
                    ghost space0: map<nat, Leaf>, ghost bytes0: map<nat, seq<Byte>>)
      returns (err: Option<LoadError>)
      requires Valid() && 64 <= |elf| < TOP && i < Rd16(elf, 56)
      requires forall j :: 0 <= j < i ==> PhdrInBounds(elf, j) && PhdrOk(elf, j)
      requires Loaded(elf, isa, Segments(elf, i), space0, bytes0, space, bytes)
      modifies this
      ensures Valid() && Owned() == old(Owned())
      ensures err.Some? ==> err.value in {Truncated, OutOfFrames, MapFailed}
      ensures err == Some(Truncated) ==> !ImageOk(elf)
      ensures err == Some(OutOfFrames) ==> Exhausted()
      ensures err == Some(MapFailed) ==> Exhausted() || exists va: nat :: ClashAt(elf, i, va, space0.Keys)
      ensures err.None? ==> PhdrInBounds(elf, i) && PhdrOk(elf, i)
      ensures err.None? ==> (forall j :: 0 <= j <= i ==> PhdrInBounds(elf, j))
      ensures err.None? ==> Loaded(elf, isa, Segments(elf, i + 1), space0, bytes0, space, bytes)
    {
      hide *;
      var phOff := FindPhdr(elf, i);
      if phOff.None? {
        PhdrMissing(elf, i);
        return Some(Truncated);
      }
      var ph := PhdrAt(elf, phOff.value);
      SegmentsNext(elf, i);
      if ph.kind == PT_LOAD {
        ghost var space1, bytes1 := space, bytes;
        err := LoadSegment(elf, isa, ph);
        if err.Some? {
          if err.value == Truncated { SegmentBad(elf, i); }
          if err.value == MapFailed && !Exhausted() {
            var va: nat :| va in space1 && InCover(ph, va);
            SegmentsClash(elf, isa, i, va, space0, bytes0, space1, bytes1);
          }
          return;
        }
        LoadedNext(elf, isa, Segments(elf, i), ph, space0, bytes0, space1, bytes1, space, bytes);
      } else {
        err := None;
      }
    }

    lemma {:induction false} StartLoaded(elf: seq<Byte>, isa: Isa)
      requires Valid() && HeaderVerdict(elf, isa).None?
      ensures |elf| >= 64 && Loaded(elf, isa, Segments(elf, 0), space, bytes, space, bytes)
    {
      LoadedNone(elf, isa, space, bytes);
    }

    lemma {:induction false} StartPlaced(elf: seq<Byte>, isa: Isa, ph: Phdr)
      requires Valid()
      ensures Placed(elf, isa, ph, PageBase(ph.vaddr), space, bytes, space, bytes)
      ensures FileReaches(elf, ph, PageBase(ph.vaddr))
    {
      PlacedNone(elf, isa, ph, space, bytes);
    }

    /** Parse the image and map every loadable segment. */
    method LoadElf(elf: seq<Byte>, isa: Isa) returns (r: Result<U64, LoadError>)
      requires Valid() && |elf| < TOP
      modifies this
      ensures Valid() && Owned() == old(Owned())
      ensures HeaderVerdict(elf, isa).Some? ==> r == Err(HeaderVerdict(elf, isa).value)
      ensures r.Ok? ==>
                && HeaderVerdict(elf, isa).None? && ImageOk(elf) && r.value == Rd64(elf, 24)
                && Loaded(elf, isa, Segments(elf, Rd16(elf, 56)), old(space), old(bytes), space, bytes)
      ensures HeaderVerdict(elf, isa).None? && r == Err(Truncated) ==> !ImageOk(elf)
      ensures HeaderVerdict(elf, isa).None? && r.Err? ==> r.error in {Truncated, OutOfFrames, MapFailed}
      ensures HeaderVerdict(elf, isa).None? && r == Err(OutOfFrames) ==> Exhausted()
      ensures HeaderVerdict(elf, isa).None? && r == Err(MapFailed) ==>
                Exhausted() || exists i: nat, va: nat :: ClashAt(elf, i, va, old(space).Keys)
    {
      hide *;
      var bad := CheckHeader(elf, isa);
      if bad.Some? { return Err(bad.value); }
      StartLoaded(elf, isa);
      var phnum := Rd16(elf, 56);
      for i := 0 to phnum
        invariant Valid() && Owned() == old(Owned())
        invariant forall j :: 0 <= j < i ==> PhdrInBounds(elf, j) && PhdrOk(elf, j)
        invariant Loaded(elf, isa, Segments(elf, i), old(space), old(bytes), space, bytes)
      {
        var err := LoadPhdr(elf, isa, i, old(space), old(bytes));
        if err.Some? { return Err(err.value); }
      }
      ImageDone(elf, phnum);
      return Ok(Rd64(elf, 24));
    }

    /** One zeroed, writable, non-executable stack page. */
    method StackPage(isa: Isa, va: nat) returns (ok: bool)
      requires Valid()
      modifies this
      ensures Valid() && Owned() == old(Owned())
      ensures ok ==>
                && va !in old(space) && va in space
                && space == old(space)[va := Leaf(space[va].frame, LeafFlags(isa, 2))]
                && space[va].frame in bytes && bytes[space[va].frame] == Zeros()
                && forall a :: a in old(space) ==> Kept(a, old(space), old(bytes), space, bytes)
    {
      hide LeafFlags, Zeros;
      var f := AllocFrame();
      if f.None? {
        return false;
      }
      ok := MapPage(va, f.value, LeafFlags(isa, 2));
    }

    /** Give every recorded frame back: a failed build leaves no trace in the pool. */
    method Rollback()
      requires Valid()
      modifies this
      ensures Valid() && pool == old(Owned()) && taken == [] && space == map[]
    {
      ghost var all := Owned();
      for i := 0 to |taken|
        invariant taken == old(taken) && pool == old(pool) + set f | f in taken[..i]
      {
        assert taken[..i + 1] == taken[..i] + [taken[i]];
        pool := pool + {taken[i]};
      }
      assert taken[..|taken|] == taken;
      taken, space := [], map[];
    }

    /** Build a process: root table, image, then stack pages, all through the recorder. Success
        leaves exactly the image and the stack mapped; failure leaves the pool as it was. */
    method BuildProcess(elf: seq<Byte>, isa: Isa, stackTop: nat, stackPages: nat) returns (entry: Option<U64>)
      requires Valid() && taken == [] && space == map[]
      requires |elf| < TOP && stackPages * 4096 <= stackTop
      modifies this
      ensures Valid()
      ensures entry.Some? ==> Owned() == old(pool)
      ensures entry.Some? ==> ImageOk(elf) && entry.value == Rd64(elf, 24)
      ensures entry.Some? ==> Built(elf, isa, Segments(elf, Rd16(elf, 56)), stackTop, stackPages, space, bytes)
      ensures entry.None? ==> pool == old(pool) && taken == [] && space == map[]
    {
      hide HeaderVerdict, ImageOk, Segments, Rd16, Rd64, Loaded, LeafFlags, Zeros;
      assert Owned() == old(pool);
      var root := AllocFrame();
      if root.None? {
        Rollback();
        return None;
      }
      ghost var space0, bytes0 := space, bytes;
      var loaded := LoadElf(elf, isa);
      if loaded.Err? {
        Rollback();
        return None;
      }
      ImageBounds(elf);
      ghost var segs := Segments(elf, Rd16(elf, 56));
      BuiltImage(elf, isa, segs, stackTop, bytes0, space, bytes);
      for p := 0 to stackPages
        invariant Valid() && Owned() == old(pool)
        invariant Built(elf, isa, segs, stackTop, p, space, bytes)
      {
        ghost var space1, bytes1 := space, bytes;
        var ok := StackPage(isa, stackTop - (p + 1) * 4096);
        if !ok {
          Rollback();
          return None;
        }
        BuiltNext(elf, isa, segs, stackTop, p, space1, bytes1, space, bytes);
      }
      return Some(loaded.value);
    }
  }
}
