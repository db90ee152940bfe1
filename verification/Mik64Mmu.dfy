// The Mik-64 memory system: flat little-endian RAM, the four-level table walk
// with its accessed and dirty write-back, and the 16-entry TLB in front of it.

module Mik64Mmu {
  import opened Bytes

  const RAM_SIZE := 0x800_0000
  const TLB_SIZE := 16
  const CSR_PTBR := 0
  const CSR_PMODE := 1
  const CSR_TIMER := 2
  const CSR_EPC := 3

  type Word = w: int | 0 <= w < 0x1_0000_0000_0000_0000
  type Ram8 = s: seq<u8> | |s| == RAM_SIZE witness seq(RAM_SIZE, _ => 0)
  type Regs16 = s: seq<Word> | |s| == 16 witness seq(16, _ => 0)
  type Csrs = s: seq<Word> | |s| == 256 witness seq(256, _ => 0)
  type Tlb = s: seq<TlbEntry> | |s| == TLB_SIZE witness seq(TLB_SIZE, _ => EMPTY_ENTRY)

  datatype TlbEntry = TlbEntry(
    valid: bool, vpn: nat, ppn: nat, pteAddr: nat, writable: bool, nx: bool, user: bool)
  const EMPTY_ENTRY := TlbEntry(false, 0, 0, 0, false, false, false)

  /** The privilege mode, the interrupt-enable flag and the saved pc. */
  datatype Mode = Mode(user: bool, prevUser: bool, intEnabled: bool, epc: Word)

  /** The interval timer. */
  datatype Timer = Timer(interval: Word, counter: Word, pending: bool)

  datatype Machine = Machine(
    regs: Regs16, pc: Word, csrs: Csrs, tlb: Tlb, mem: Ram8,
    halted: bool, mode: Mode, timer: Timer, out: seq<u8>)

  datatype Access = Load | Store | Fetch

  // ---- Little-endian words ------------------------------------------------------

  function Read64(mem: Ram8, a: nat): Word
    requires a + 8 <= RAM_SIZE
  {
    LeWordBound(mem[a..a + 8]);
    Pow256Eight();
    LeWord(mem[a..a + 8])
  }

  function Write64(mem: Ram8, a: nat, w: Word): Ram8
    requires a + 8 <= RAM_SIZE
  {
    mem[..a] + LeBytes(w, 8) + mem[a + 8..]
  }

  lemma ReadBack(mem: Ram8, a: nat, w: Word)
    requires a + 8 <= RAM_SIZE
    ensures Read64(Write64(mem, a, w), a) == w
  {
    Pow256Eight();
    LeRoundTrip(w, 8);
    assert Write64(mem, a, w)[a..a + 8] == LeBytes(w, 8);
  }

  lemma ReadApart(mem: Ram8, a: nat, w: Word, b: nat)
    requires a + 8 <= RAM_SIZE && b + 8 <= RAM_SIZE && (a + 8 <= b || b + 8 <= a)
    ensures Read64(Write64(mem, a, w), b) == Read64(mem, b)
  {
    assert Write64(mem, a, w)[b..b + 8] == mem[b..b + 8];
  }

  // ---- Page-table entries -------------------------------------------------------

  predicate PteP(w: Word) { w % 2 == 1 }
  predicate PteW(w: Word) { w / 2 % 2 == 1 }
  predicate PteU(w: Word) { w / 4 % 2 == 1 }
  predicate PteA(w: Word) { w / 8 % 2 == 1 }
  predicate PteD(w: Word) { w / 16 % 2 == 1 }
  predicate PteNx(w: Word) { w / 0x8000_0000_0000_0000 == 1 }
  /** Bits 12..47. */
  function Ppn(w: Word): nat { w / 4096 % 0x10_0000_0000 }

  function OrA(w: Word): Word { if PteA(w) then w else w + 8 }
  function OrD(w: Word): Word { if PteD(w) then w else w + 16 }
  /** The entry after an access: A set, and D as well for a store. */
  function Mark(w: Word, access: Access): Word { if access == Store then OrD(OrA(w)) else OrA(w) }

  /** Entries that differ at most in A and D. */
  predicate SameEntry(w: Word, v: Word) {
    PteP(w) == PteP(v) && PteW(w) == PteW(v) && PteU(w) == PteU(v) && PteNx(w) == PteNx(v) && Ppn(w) == Ppn(v)
  }

  /** The two low bits and what is above them. */
  lemma LowDigits(q: nat, b: nat, a: nat)
    requires a < 2 && b < 2
    ensures (4 * q + 2 * b + a) % 2 == a && (4 * q + 2 * b + a) / 2 % 2 == b && (4 * q + 2 * b + a) / 4 == q
  {
    var w := 4 * q + 2 * b + a;
    assert w == 2 * (2 * q + b) + a;
    assert w / 2 == 2 * q + b;
  }

  /** Adding a multiple of 8 leaves bits 0..2. */
  lemma LowKept(w: nat, d: nat)
    ensures (w + 8 * d) % 2 == w % 2 && (w + 8 * d) / 2 % 2 == w / 2 % 2 && (w + 8 * d) / 4 % 2 == w / 4 % 2
  {
    var q, b, a := w / 2 / 2, w / 2 % 2, w % 2;
    LowDigits(q, b, a);
    LowDigits(q + 2 * d, b, a);
  }

  lemma HalfOf(h: nat, l: nat)
    requires l < 16
    ensures (16 * h + l) / 32 == h / 2
  {
    assert 16 * h + l == 32 * (h / 2) + (16 * (h % 2) + l);
  }

  /** Setting a clear bit 3, or a clear bit 4, does not carry into bit 5. */
  lemma SetBit3(w: nat)
    requires w / 8 % 2 == 0
    ensures (w + 8) / 32 == w / 32
  {
    var k := w / 8 / 2;
    assert w == 16 * k + w % 8;
    HalfOf(k, w % 8);
    HalfOf(k, w % 8 + 8);
  }

  lemma SetBit4(w: nat)
    requires w / 16 % 2 == 0
    ensures (w + 16) / 32 == w / 32
  {
    var k := w / 16 / 2;
    assert w == 32 * k + w % 16;
  }

  lemma OrASame(w: Word)
    ensures SameEntry(w, OrA(w))
  {
    hide Ppn, PteNx;
    LowKept(w, 1);
    if !PteA(w) {
      SetBit3(w);
      HighSame(w, w + 8);
    }
  }

  lemma OrDSame(w: Word)
    ensures SameEntry(w, OrD(w))
  {
    hide Ppn, PteNx;
    LowKept(w, 2);
    if !PteD(w) {
      SetBit4(w);
      HighSame(w, w + 16);
    }
  }

  /** Equal above bit 5 means equal page number and NX. */
  lemma HighSame(w: Word, v: Word)
    requires w / 32 == v / 32
    ensures Ppn(w) == Ppn(v) && PteNx(w) == PteNx(v)
  {
    assert w / 4096 == w / 32 / 128 && v / 4096 == v / 32 / 128;
    assert w / 0x8000_0000_0000_0000 == w / 32 / 0x400_0000_0000_0000;
    assert v / 0x8000_0000_0000_0000 == v / 32 / 0x400_0000_0000_0000;
  }

  lemma MarkSame(w: Word, access: Access)
    ensures SameEntry(w, Mark(w, access))
  {
    OrASame(w);
    OrDSame(OrA(w));
  }

  // ---- The walk -------------------------------------------------------------------

  function Ix(va: nat, level: nat): (i: nat)
    requires level < 4
    ensures i < 512
  {
    match level
    case 3 => va / 0x80_0000_0000 % 512
    case 2 => va / 0x4000_0000 % 512
    case 1 => va / 0x20_0000 % 512
    case 0 => va / 0x1000 % 512
  }

  /** Where a walk ends: nowhere, or at a leaf entry and its address. */
  datatype Leaf = NoPage | Leaf(addr: nat, pte: Word)

  /** Descend from the table at `table`; each entry lies at table + 8 * index. */
  function Walk(mem: Ram8, table: nat, va: nat, level: nat): Leaf
    requires level < 4
    decreases level
  {
    var a := table + Ix(va, level) * 8;
    if a + 8 > RAM_SIZE then NoPage
    else
      var pte := Read64(mem, a);
      if !PteP(pte) then NoPage
      else if level == 0 then Leaf(a, pte)
      else Walk(mem, Ppn(pte) * 4096, va, level - 1)
  }

  /** `PTBR & !0xFFF`. */
  function Root(m: Machine): nat { m.csrs[CSR_PTBR] / 4096 * 4096 }

  function WalkOf(m: Machine, va: nat): Leaf { Walk(m.mem, Root(m), va, 3) }

  // ---- Translation ------------------------------------------------------------------

  datatype Reply = Pa(pa: nat) | Fault(code: nat)
  datatype Tr = Tr(reply: Reply, m: Machine)

  /** The permission checks, in the order both paths make them; 0 lets the access through. */
  function Denial(userMode: bool, user: bool, writable: bool, nx: bool, access: Access): nat {
    if userMode && !user then 5
    else if access == Store && !writable then 2
    else if access == Fetch && nx then 3
    else 0
  }

  /** Write A (and D) back into the leaf entry, if that changes it. */
  function Marked(mem: Ram8, a: nat, access: Access): Ram8 {
    if a + 8 > RAM_SIZE then mem
    else
      var pte := Read64(mem, a);
      if Mark(pte, access) == pte then mem else Write64(mem, a, Mark(pte, access))
  }

  function TlbIx(va: nat): (k: nat)
    ensures k < TLB_SIZE
  {
    va / 4096 % 16
  }

  function EntryFor(va: nat, a: nat, pte: Word): TlbEntry {
    TlbEntry(true, va / 4096, Ppn(pte), a, PteW(pte), PteNx(pte), PteU(pte))
  }

  /** A hit answers from the cached flags and marks the cached leaf. */
  function Hit(m: Machine, va: nat, access: Access): Tr {
    var e := m.tlb[TlbIx(va)];
    var code := Denial(m.mode.user, e.user, e.writable, e.nx, access);
    if code != 0 then Tr(Fault(code), m)
    else Tr(Pa(e.ppn * 4096 + va % 4096), m.(mem := Marked(m.mem, e.pteAddr, access)))
  }

  /** A miss walks, marks the leaf and, on the machine with a TLB, fills the slot. */
  function Miss(m: Machine, va: nat, access: Access, cached: bool): Tr {
    match WalkOf(m, va)
    case NoPage => Tr(Fault(1), m)
    case Leaf(a, pte) =>
      var code := Denial(m.mode.user, PteU(pte), PteW(pte), PteNx(pte), access);
      if code != 0 then Tr(Fault(code), m)
      else
        Tr(Pa(Ppn(pte) * 4096 + va % 4096),
           m.(mem := Marked(m.mem, a, access),
              tlb := if cached then m.tlb[TlbIx(va) := EntryFor(va, a, pte)] else m.tlb))
  }

  /** `translate`, on the machine with a TLB (cached) or on one that always walks. */
  function Translate(m: Machine, va: nat, access: Access, cached: bool): Tr {
    if m.csrs[CSR_PMODE] == 0 then Tr(Pa(va), m)
    else if va >= 0x1_0000_0000_0000 then Tr(Fault(4), m)
    else if cached && m.tlb[TlbIx(va)].valid && m.tlb[TlbIx(va)].vpn == va / 4096 then Hit(m, va, access)
    else Miss(m, va, access, cached)
  }
}
