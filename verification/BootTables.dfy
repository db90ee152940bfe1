// The boot code that builds the kernel's page tables and turns paging on,
// instruction by instruction.

module BootTables {
  import opened Mik64Mmu
  import opened Mik64Tlb
  import opened Mik64Cpu
  import opened FlatCode
  import opened IdentityMap
  import opened SupervisorCode
  import opened ProcessSpace
  import Fill = FillPt

  /** x4..x10 = PML4, PDPT, PD, PT0..PT3, seven pages from x2. */
  ghost predicate Moves(mem: Ram8, s: nat) {
    && At(mem, s, Ins(ADD, 4, 2, 0, 0))
    && At(mem, s + 8, Ins(ADDI, 5, 4, 0, 0x1000)) && At(mem, s + 16, Ins(ADDI, 6, 4, 0, 0x2000))
    && At(mem, s + 24, Ins(ADDI, 7, 4, 0, 0x3000)) && At(mem, s + 32, Ins(ADDI, 8, 4, 0, 0x4000))
    && At(mem, s + 40, Ins(ADDI, 9, 4, 0, 0x5000)) && At(mem, s + 48, Ins(ADDI, 10, 4, 0, 0x6000))
  }

  /** Call fill_pt at f for the table in register r and the pages from `start`. */
  ghost predicate FillCall(mem: Ram8, c: nat, start: nat, r: nat, f: nat) {
    && At(mem, c, Ins(LI, 11, 0, 0, start)) && At(mem, c + 8, Ins(ADD, 12, r, 0, 0))
    && At(mem, c + 16, Ins(LI, 15, 0, 0, c + 32)) && (f - (c + 24)) % 8 == 0
    && At(mem, c + 24, Ins(JMP, 0, 0, 0, (f - (c + 24)) / 8))
  }

  /** Store src | P | W at offset off of the table in register dst. */
  ghost predicate Link(mem: Ram8, c: nat, src: nat, dst: nat, off: nat) {
    && At(mem, c, Ins(ADD, 1, src, 0, 0)) && At(mem, c + 8, Ins(ADDI, 1, 1, 0, 3))
    && At(mem, c + 16, Ins(STORE64, 0, dst, 1, off))
  }

  /** PTBR = x4, PMODE = 1. */
  ghost predicate Enable(mem: Ram8, c: nat) {
    && At(mem, c, Ins(ADD, 1, 4, 0, 0)) && At(mem, c + 8, Ins(WRCSR, 0, 1, 0, CSR_PTBR))
    && At(mem, c + 16, Ins(LI, 1, 0, 0, 1)) && At(mem, c + 24, Ins(WRCSR, 0, 1, 0, CSR_PMODE))
  }

  ghost predicate BootCode(mem: Ram8, s: nat, f: nat) {
    && Moves(mem, s) && Fill.CodeAt(mem, f)
    && FillCall(mem, s + 56, 0, 7, f) && FillCall(mem, s + 88, 0x20_0000, 8, f)
    && FillCall(mem, s + 120, 0x40_0000, 9, f) && FillCall(mem, s + 152, 0x60_0000, 10, f)
    && Link(mem, s + 184, 5, 4, 0) && Link(mem, s + 208, 6, 5, 0)
    && Link(mem, s + 232, 7, 6, 0) && Link(mem, s + 256, 8, 6, 8)
    && Link(mem, s + 280, 9, 6, 16) && Link(mem, s + 304, 10, 6, 24)
    && Enable(mem, s + 328)
  }

  /** The seven pages lie in RAM, away from the code. */
  predicate PagesOk(s: nat, f: nat, b: nat) {
    && b % 4096 == 0 && b + 0x7000 <= RAM_SIZE
    && (s + 360 <= b || b + 0x7000 <= s) && (f + 72 <= b || b + 0x7000 <= f)
  }

  /** The register plan while the tables are built. */
  ghost predicate Plan(m: Machine, b: nat) {
    && m.regs[4] == b && m.regs[5] == b + 0x1000 && m.regs[6] == b + 0x2000 && m.regs[7] == b + 0x3000
    && m.regs[8] == b + 0x4000 && m.regs[9] == b + 0x5000 && m.regs[10] == b + 0x6000
  }

  /** Somewhere in the boot code, the seven pages the only memory changed so far. */
  ghost predicate Booting(m: Machine, s: nat, f: nat, b: nat, pc: nat) {
    Flat(m) && BootCode(m.mem, s, f) && PagesOk(s, f, b) && m.pc == pc
  }

  lemma CodeKept(mem: Ram8, mem': Ram8, s: nat, f: nat, b: nat)
    requires BootCode(mem, s, f) && PagesOk(s, f, b) && SameOutside(mem, mem', b, 0x7000)
    ensures BootCode(mem', s, f)
  {
    hide At, SameOutside;
    AllKept(mem, mem', b, 0x7000);
  }

  // ---- The blocks -----------------------------------------------------------------------

  lemma MovesRun(m: Machine, s: nat, f: nat, b: nat, cached: bool)
    requires Booting(m, s, f, b, s) && m.regs[2] == b
    ensures exists d: Machine ::
      Leads(m, 7, d, cached) && Booting(d, s, f, b, s + 56) && Plan(d, b) && d.mem == m.mem
  {
    hide Step, At, Plus, Run, BootCode;
    BootParts(m.mem, s, f);
    PlusSmall(b, 0);
    RegStep(m, Ins(ADD, 4, 2, 0, 0), cached);
    var m1 := Moved(m, s + 8, 4, b);
    PlusSmall(b, 0x1000);
    RegStep(m1, Ins(ADDI, 5, 4, 0, 0x1000), cached);
    var m2 := Moved(m1, s + 16, 5, b + 0x1000);
    PlusSmall(b, 0x2000);
    RegStep(m2, Ins(ADDI, 6, 4, 0, 0x2000), cached);
    var m3 := Moved(m2, s + 24, 6, b + 0x2000);
    PlusSmall(b, 0x3000);
    RegStep(m3, Ins(ADDI, 7, 4, 0, 0x3000), cached);
    var m4 := Moved(m3, s + 32, 7, b + 0x3000);
    PlusSmall(b, 0x4000);
    RegStep(m4, Ins(ADDI, 8, 4, 0, 0x4000), cached);
    var m5 := Moved(m4, s + 40, 8, b + 0x4000);
    PlusSmall(b, 0x5000);
    RegStep(m5, Ins(ADDI, 9, 4, 0, 0x5000), cached);
    var m6 := Moved(m5, s + 48, 9, b + 0x5000);
    PlusSmall(b, 0x6000);
    RegStep(m6, Ins(ADDI, 10, 4, 0, 0x6000), cached);
    var m7 := Moved(m6, s + 56, 10, b + 0x6000);
    LeadsRefl(m7, cached);
    LeadsStep(m6, m7, 0, m7, cached);
    LeadsStep(m5, m6, 1, m7, cached);
    LeadsStep(m4, m5, 2, m7, cached);
    LeadsStep(m3, m4, 3, m7, cached);
    LeadsStep(m2, m3, 4, m7, cached);
    LeadsStep(m1, m2, 5, m7, cached);
    LeadsStep(m, m1, 6, m7, cached);
    assert Booting(m7, s, f, b, s + 56) && Plan(m7, b);
  }

  lemma BootParts(mem: Ram8, s: nat, f: nat)
    requires BootCode(mem, s, f)
    ensures Moves(mem, s) && Fill.CodeAt(mem, f) && Enable(mem, s + 328) && s + 360 <= RAM_SIZE
  {}

  lemma FillCallWords(mem: Ram8, c: nat, start: nat, r: nat, f: nat)
    requires FillCall(mem, c, start, r, f)
    ensures At(mem, c, Ins(LI, 11, 0, 0, start)) && At(mem, c + 8, Ins(ADD, 12, r, 0, 0))
    ensures At(mem, c + 16, Ins(LI, 15, 0, 0, c + 32)) && (f - (c + 24)) % 8 == 0
    ensures At(mem, c + 24, Ins(JMP, 0, 0, 0, (f - (c + 24)) / 8)) && c + 32 <= RAM_SIZE
  {}

  /** The arguments loaded and the jump made. */
  function Calling(m: Machine, c: nat, start: nat, f: nat, pt: nat): Machine
    requires c + 32 <= RAM_SIZE && f < RAM_SIZE && pt < RAM_SIZE && start < RAM_SIZE
  {
    m.(pc := f, regs := m.regs[11 := start][12 := pt][15 := c + 32])
  }

  lemma CallRuns(m: Machine, c: nat, start: nat, r: nat, f: nat, pt: nat, cached: bool)
    requires Flat(m) && m.pc == c && FillCall(m.mem, c, start, r, f)
    requires 2 <= r < 11 && m.regs[r] == pt < RAM_SIZE && f < RAM_SIZE && start < 0x80_0000
    ensures c + 32 <= RAM_SIZE && Leads(m, 4, Calling(m, c, start, f, pt), cached) && Flat(Calling(m, c, start, f, pt))
  {
    hide Step, At, Plus, Run, FillCall;
    FillCallWords(m.mem, c, start, r, f);
    RegStep(m, Ins(LI, 11, 0, 0, start), cached);
    var m1 := Moved(m, c + 8, 11, start);
    PlusSmall(pt, 0);
    RegStep(m1, Ins(ADD, 12, r, 0, 0), cached);
    var m2 := Moved(m1, c + 16, 12, pt);
    RegStep(m2, Ins(LI, 15, 0, 0, c + 32), cached);
    var m3 := Moved(m2, c + 24, 15, c + 32);
    JumpStep(m3, Ins(JMP, 0, 0, 0, (f - (c + 24)) / 8), cached);
    PlusSmall(c + 24, f - (c + 24));
    var m4 := m3.(pc := f);
    LeadsRefl(m4, cached);
    LeadsStep(m3, m4, 0, m4, cached);
    LeadsStep(m2, m3, 1, m4, cached);
    LeadsStep(m1, m2, 2, m4, cached);
    LeadsStep(m, m1, 3, m4, cached);
  }

  /** One call of fill_pt: four instructions, the subroutine, and back behind the call. */
  lemma FillCallRuns(m: Machine, c: nat, start: nat, r: nat, f: nat, pt: nat, cached: bool)
    requires Flat(m) && m.pc == c && FillCall(m.mem, c, start, r, f) && Fill.CodeAt(m.mem, f)
    requires 2 <= r < 11 && m.regs[r] == pt && pt + 4096 <= RAM_SIZE && Apart(f, 72, pt, 4096) && start < 0x80_0000
    ensures exists d: Machine ::
      && Leads(m, 3079, d, cached) && Flat(d) && d.pc == c + 32 && d.mem == Fill.Filled(m.mem, pt, start, 512)
      && forall k | 0 <= k < 11 && k != 1 && k != 3 :: d.regs[k] == m.regs[k]
  {
    hide Run, Fill.Filled, Fill.CodeAt, FillCall, Flat;
    Fill.CodeInRam(m.mem, f);
    CallRuns(m, c, start, r, f, pt, cached);
    var m4 := Calling(m, c, start, f, pt);
    Fill.FillPtRuns(m4, f, cached);
    var d: Machine :|
      && Leads(m4, 3075, d, cached) && Flat(d) && d.pc == c + 32 && d.mem == Fill.Filled(m.mem, pt, start, 512)
      && (forall k | 0 <= k < 16 && k !in {1, 3, 11, 12, 13} :: d.regs[k] == m4.regs[k]);
    LeadsThen(m, 4, m4, 3075, d, cached);
  }

  /** One entry linked. */
  function Linked(m: Machine, c: nat, a: nat, w: Word): Machine
    requires a + 8 <= RAM_SIZE && c + 24 <= RAM_SIZE
  {
    m.(pc := c + 24, regs := m.regs[1 := w], mem := Write64(m.mem, a, w))
  }

  lemma LinkRuns(m: Machine, c: nat, src: nat, dst: nat, off: nat, cached: bool)
    requires Flat(m) && m.pc == c && Link(m.mem, c, src, dst, off) && 2 <= src < 16 && 2 <= dst < 16
    requires m.regs[src] < RAM_SIZE && m.regs[dst] + off + 8 <= RAM_SIZE
    ensures c + 24 <= RAM_SIZE
    ensures var d := Linked(m, c, m.regs[dst] + off, m.regs[src] + 3); Leads(m, 3, d, cached) && Flat(d)
  {
    hide Step, WordOf, Read64, Write64, Plus, Run;
    var w := m.regs[src];
    PlusSmall(w, 0);
    RegStep(m, Ins(ADD, 1, src, 0, 0), cached);
    var m1 := Moved(m, c + 8, 1, w);
    PlusSmall(w, 3);
    RegStep(m1, Ins(ADDI, 1, 1, 0, 3), cached);
    var m2 := Moved(m1, c + 16, 1, w + 3);
    PlusSmall(m.regs[dst], off);
    StoreStep(m2, Ins(STORE64, 0, dst, 1, off), m.regs[dst] + off, cached);
    var m3 := Stored(m2, m.regs[dst] + off, w + 3);
    assert m.regs[1 := w][1 := w + 3] == m.regs[1 := w + 3];
    assert m3 == Linked(m, c, m.regs[dst] + off, w + 3);
    LeadsRefl(m3, cached);
    LeadsStep(m2, m3, 0, m3, cached);
    LeadsStep(m1, m2, 1, m3, cached);
    LeadsStep(m, m1, 2, m3, cached);
  }

  // ---- What has been built so far -----------------------------------------------------------

  /** The table at pt maps 512 consecutive pages from `start`, present and writable. */
  ghost predicate Table(mem: Ram8, pt: nat, start: nat) {
    pt + 4096 <= RAM_SIZE && forall i: nat | i < 512 :: Read64(mem, pt + 8 * i) == start + 4096 * i + 3
  }

  ghost predicate TablesDone(mem: Ram8, b: nat, j: nat) {
    forall i: nat | i < j :: Table(mem, b + 0x3000 + 0x1000 * i, 0x20_0000 * i)
  }

  lemma FilledOutside(mem: Ram8, pt: nat, start: Word, k: nat)
    requires pt + 8 * k <= RAM_SIZE
    ensures SameOutside(mem, Fill.Filled(mem, pt, start, k), pt, 8 * k)
  {
    hide Fill.Filled, Read64;
    forall a: nat | a + 8 <= RAM_SIZE && Apart(a, 8, pt, 8 * k)
      ensures Read64(Fill.Filled(mem, pt, start, k), a) == Read64(mem, a)
    {
      Fill.FilledApart(mem, pt, start, k, a);
    }
  }

  lemma TableFilled(mem: Ram8, pt: nat, start: nat)
    requires pt + 4096 <= RAM_SIZE && start % 4096 == 0 && start < 0x80_0000
    ensures Table(Fill.Filled(mem, pt, start, 512), pt, start)
  {
    hide Fill.Filled, Read64, Fill.EntryOf, Plus;
    forall i: nat | i < 512 ensures Read64(Fill.Filled(mem, pt, start, 512), pt + 8 * i) == start + 4096 * i + 3 {
      Fill.FilledHolds(mem, pt, start, 512, i);
      PlusSmall(start, 4096 * i);
      Fill.EntryOfAligned(start + 4096 * i);
    }
  }

  lemma TableKept(mem: Ram8, mem': Ram8, pt: nat, start: nat, b: nat, n: nat)
    requires Table(mem, pt, start) && SameOutside(mem, mem', b, n) && Apart(pt, 4096, b, n)
    ensures Table(mem', pt, start)
  {
    hide Read64;
    forall i: nat | i < 512 ensures Read64(mem', pt + 8 * i) == start + 4096 * i + 3 {
      assert Apart(pt + 8 * i, 8, b, n);
    }
  }

  lemma Within(mem: Ram8, mem': Ram8, b: nat, n: nat, c: nat, k: nat)
    requires SameOutside(mem, mem', b, n) && c <= b && b + n <= c + k
    ensures SameOutside(mem, mem', c, k)
  {
    hide Read64;
  }

  /** A word that is none of the six entries above the leaf tables. */
  predicate OffLinks(a: nat, b: nat) { Apart(a, 8, b, 8) && Apart(a, 8, b + 0x1000, 8) && Apart(a, 8, b + 0x2000, 32) }

  /** The three upper pages are the same but for those entries. */
  ghost predicate UpperKept(mem: Ram8, mem': Ram8, b: nat) {
    forall a: nat | b <= a && a + 8 <= b + 0x3000 && a + 8 <= RAM_SIZE && OffLinks(a, b) :: Read64(mem', a) == Read64(mem, a)
  }

  lemma UpperTrans(mem: Ram8, mem1: Ram8, mem2: Ram8, b: nat)
    requires UpperKept(mem, mem1, b) && UpperKept(mem1, mem2, b)
    ensures UpperKept(mem, mem2, b)
  {
    hide Read64;
  }

  lemma UpperFilled(mem: Ram8, mem': Ram8, b: nat, c: nat, n: nat)
    requires SameOutside(mem, mem', c, n) && b + 0x3000 <= c
    ensures UpperKept(mem, mem', b)
  {
    hide Read64;
  }

  lemma FillCallAt(mem: Ram8, s: nat, f: nat, j: nat)
    requires BootCode(mem, s, f) && j < 4
    ensures FillCall(mem, s + 56 + 32 * j, 0x20_0000 * j, 7 + j, f) && Fill.CodeAt(mem, f)
  {
    hide At, Fill.CodeAt;
  }

  lemma FillPhase(m: Machine, s: nat, f: nat, b: nat, j: nat, cached: bool)
    requires j < 4 && Booting(m, s, f, b, s + 56 + 32 * j) && Plan(m, b) && TablesDone(m.mem, b, j)
    ensures exists d: Machine ::
      && Leads(m, 3079, d, cached) && Booting(d, s, f, b, s + 56 + 32 * (j + 1)) && Plan(d, b) && TablesDone(d.mem, b, j + 1)
      && UpperKept(m.mem, d.mem, b)
  {
    hide Run, BootCode, FillCall, Fill.CodeAt, Table, Fill.Filled, UpperKept;
    var pt, start := b + 0x3000 + 0x1000 * j, 0x20_0000 * j;
    FillCallAt(m.mem, s, f, j);
    FillCallRuns(m, s + 56 + 32 * j, start, 7 + j, f, pt, cached);
    var d: Machine :|
      && Leads(m, 3079, d, cached) && Flat(d) && d.pc == s + 56 + 32 * j + 32
      && d.mem == Fill.Filled(m.mem, pt, start, 512)
      && (forall k | 0 <= k < 11 && k != 1 && k != 3 :: d.regs[k] == m.regs[k]);
    FilledOutside(m.mem, pt, start, 512);
    TableFilled(m.mem, pt, start);
    Within(m.mem, d.mem, pt, 4096, b, 0x7000);
    UpperFilled(m.mem, d.mem, b, pt, 4096);
    CodeKept(m.mem, d.mem, s, f, b);
    forall i: nat | i < j + 1 ensures Table(d.mem, b + 0x3000 + 0x1000 * i, 0x20_0000 * i) {
      if i < j {
        TableKept(m.mem, d.mem, b + 0x3000 + 0x1000 * i, 0x20_0000 * i, pt, 4096);
      }
    }
    assert Booting(d, s, f, b, s + 56 + 32 * (j + 1)) && Plan(d, b) && TablesDone(d.mem, b, j + 1);
  }

  /** The six entries above the leaf tables: where they go and what they say. */
  function LinkSrc(l: nat): nat { l + 5 }
  function LinkDst(l: nat): nat { if l == 0 then 4 else if l == 1 then 5 else 6 }
  function LinkOff(l: nat): nat { if l < 2 then 0 else 8 * (l - 2) }
  function LinkAddr(b: nat, l: nat): nat { b + 0x1000 * (LinkDst(l) - 4) + LinkOff(l) }
  function LinkVal(b: nat, l: nat): nat { b + 0x1000 * (l + 1) + 3 }

  ghost predicate LinksDone(mem: Ram8, b: nat, l: nat) {
    b + 0x7000 <= RAM_SIZE && forall i: nat | i < l :: LinkedAt(mem, b, i)
  }

  ghost predicate LinkedAt(mem: Ram8, b: nat, i: nat) {
    LinkAddr(b, i) + 8 <= RAM_SIZE && Read64(mem, LinkAddr(b, i)) == LinkVal(b, i)
  }

  lemma LinkAt(mem: Ram8, s: nat, f: nat, l: nat)
    requires BootCode(mem, s, f) && l < 6
    ensures Link(mem, s + 184 + 24 * l, LinkSrc(l), LinkDst(l), LinkOff(l))
  {
    hide At, Fill.CodeAt;
  }

  lemma UpperLinked(mem: Ram8, b: nat, l: nat, w: Word)
    requires l < 6 && b + 0x7000 <= RAM_SIZE
    ensures UpperKept(mem, Write64(mem, LinkAddr(b, l), w), b)
  {
    hide Read64, Write64;
    forall a: nat | b <= a && a + 8 <= b + 0x3000 && a + 8 <= RAM_SIZE && OffLinks(a, b)
      ensures Read64(Write64(mem, LinkAddr(b, l), w), a) == Read64(mem, a)
    {
      ReadApart(mem, LinkAddr(b, l), w, a);
    }
  }

  lemma LinkPhase(m: Machine, s: nat, f: nat, b: nat, l: nat, cached: bool)
    requires l < 6 && Booting(m, s, f, b, s + 184 + 24 * l) && Plan(m, b)
    requires TablesDone(m.mem, b, 4) && LinksDone(m.mem, b, l)
    ensures exists d: Machine ::
      && Leads(m, 3, d, cached) && Booting(d, s, f, b, s + 184 + 24 * (l + 1)) && Plan(d, b)
      && TablesDone(d.mem, b, 4) && LinksDone(d.mem, b, l + 1) && UpperKept(m.mem, d.mem, b)
  {
    hide Run, BootCode, Link, Table, Read64, Write64;
    var c, a, w := s + 184 + 24 * l, LinkAddr(b, l), LinkVal(b, l);
    LinkAt(m.mem, s, f, l);
    LinkRuns(m, c, LinkSrc(l), LinkDst(l), LinkOff(l), cached);
    var d := Linked(m, c, a, w);
    UpperLinked(m.mem, b, l, w);
    hide UpperKept;
    StoreOutside(m.mem, a, w, b, 0x3000);
    Within(m.mem, d.mem, b, 0x3000, b, 0x7000);
    CodeKept(m.mem, d.mem, s, f, b);
    forall i: nat | i < 4 ensures Table(d.mem, b + 0x3000 + 0x1000 * i, 0x20_0000 * i) {
      TableKept(m.mem, d.mem, b + 0x3000 + 0x1000 * i, 0x20_0000 * i, b, 0x3000);
    }
    ReadBack(m.mem, a, w);
    forall i: nat | i < l + 1 ensures LinkedAt(d.mem, b, i) {
      if i < l {
        assert LinkedAt(m.mem, b, i);
        ReadApart(m.mem, a, w, LinkAddr(b, i));
      }
    }
    assert Booting(d, s, f, b, s + 184 + 24 * (l + 1)) && Plan(d, b) && TablesDone(d.mem, b, 4) && LinksDone(d.mem, b, l + 1);
  }

  /** The entries as written are the chain the walk needs. */
  lemma ChainBuilt(mem: Ram8, b: nat)
    requires b % 4096 == 0 && TablesDone(mem, b, 4) && LinksDone(mem, b, 6)
    ensures KernelChain(mem, b, b + 0x1000, b + 0x2000, b + 0x3000)
  {
    hide Read64, SameEntry, LinkedAt, Table, Holds, LeafTables;
    LeavesBuilt(mem, b);
    forall i: nat | i < 6 ensures Holds(mem, LinkAddr(b, i), LinkVal(b, i)) {
      LinkHolds(mem, b, i);
    }
    assert Holds(mem, LinkAddr(b, 0), LinkVal(b, 0)) && Holds(mem, LinkAddr(b, 1), LinkVal(b, 1));
    forall j: nat | j < 4 ensures Holds(mem, b + 0x2000 + 8 * j, b + 0x3000 + 0x1000 * j + 3) {
      assert Holds(mem, LinkAddr(b, j + 2), LinkVal(b, j + 2));
    }
  }

  lemma LinkHolds(mem: Ram8, b: nat, i: nat)
    requires LinksDone(mem, b, 6) && i < 6
    ensures Holds(mem, LinkAddr(b, i), LinkVal(b, i))
  {
    hide Read64, SameEntry;
    assert LinkedAt(mem, b, i);
    SameSelf(LinkVal(b, i));
  }

  lemma LeavesBuilt(mem: Ram8, b: nat)
    requires TablesDone(mem, b, 4) && b + 0x7000 <= RAM_SIZE
    ensures LeafTables(mem, b + 0x3000)
  {
    hide Holds, TablesDone;
    forall n: nat | n < 2048 ensures Holds(mem, b + 0x3000 + 8 * n, 4096 * n + 3) {
      var i, k := n / 512, n % 512;
      assert n == 512 * i + k;
      LeafBuilt(mem, b, i, k);
    }
  }

  lemma LeafBuilt(mem: Ram8, b: nat, i: nat, k: nat)
    requires TablesDone(mem, b, 4) && i < 4 && k < 512
    ensures var n := 512 * i + k; Holds(mem, b + 0x3000 + 8 * n, 4096 * n + 3)
  {
    hide Read64, SameEntry;
    assert Table(mem, b + 0x3000 + 0x1000 * i, 0x20_0000 * i);
    assert Read64(mem, b + 0x3000 + 0x1000 * i + 8 * k) == 0x20_0000 * i + 4096 * k + 3;
    SameSelf(4096 * (512 * i + k) + 3);
  }

  lemma SameSelf(w: Word)
    ensures SameEntry(w, w)
  {}

  // ---- Turning paging on -------------------------------------------------------------------------

  /** Paging on, through these tables. */
  ghost predicate PagingOn(d: Machine, b: nat) {
    d.csrs[CSR_PMODE] == 1 && d.csrs[CSR_PTBR] == b && !d.mode.user
    && KernelChain(d.mem, b, b + 0x1000, b + 0x2000, b + 0x3000)
  }

  lemma EnableRuns(m: Machine, c: nat, b: nat, cached: bool)
    requires Flat(m) && m.pc == c && Enable(m.mem, c) && m.regs[4] == b < RAM_SIZE
    ensures exists d: Machine ::
      && Leads(m, 4, d, cached) && d.pc == c + 32 && d.csrs[CSR_PMODE] == 1 && d.csrs[CSR_PTBR] == b
      && Calm(d) && d.mem == m.mem && d.tlb == FlushTlb(m).tlb && d.regs == m.regs[1 := 1]
  {
    hide Step, WordOf, Read64, Plus, Run, FlushTlb;
    PlusSmall(b, 0);
    RegStep(m, Ins(ADD, 1, 4, 0, 0), cached);
    var m1 := Moved(m, c + 8, 1, b);
    CsrStep(m1, Ins(WRCSR, 0, 1, 0, CSR_PTBR), cached);
    var n1 := m1.(pc := c + 16, csrs := m1.csrs[CSR_PTBR := b]);
    FlushKeeps(n1);
    var m2 := FlushTlb(n1);
    RegStep(m2, Ins(LI, 1, 0, 0, 1), cached);
    var m3 := Moved(m2, c + 24, 1, 1);
    CsrStep(m3, Ins(WRCSR, 0, 1, 0, CSR_PMODE), cached);
    var n2 := m3.(pc := c + 32, csrs := m3.csrs[CSR_PMODE := 1]);
    FlushKeeps(n2);
    var m4 := FlushTlb(n2);
    FlushSame(m, n2);
    LeadsRefl(m4, cached);
    LeadsStep(m3, m4, 0, m4, cached);
    LeadsStep(m2, m3, 1, m4, cached);
    LeadsStep(m1, m2, 2, m4, cached);
    LeadsStep(m, m1, 3, m4, cached);
    assert m4.regs == m.regs[1 := 1];
  }

  lemma FlushSame(m: Machine, n: Machine)
    ensures FlushTlb(m).tlb == FlushTlb(n).tlb
  {}

  /** From the point where x2 holds the first of seven pages, the boot code ends after 12345 steps
      with paging on and every supervisor address below 8 MiB mapped to itself. */
  lemma BootBuildsIdentity(m: Machine, s: nat, f: nat, b: nat, cached: bool)
    requires Booting(m, s, f, b, s) && m.regs[2] == b
    ensures exists d: Machine ::
      && Leads(m, 12345, d, cached) && d.pc == s + 360 && PagingOn(d, b) && d.tlb == FlushTlb(d).tlb && Calm(d)
      && d.regs[6] == b + 0x2000 && UpperKept(m.mem, d.mem, b)
  {
    hide Run, BootCode, KernelChain, Booting, Plan, Flat, UpperKept, FlushTlb, Enable;
    TablesRun(m, s, f, b, cached);
    var m1: Machine :|
      Leads(m, 12341, m1, cached) && Booting(m1, s, f, b, s + 328) && Plan(m1, b)
      && KernelChain(m1.mem, b, b + 0x1000, b + 0x2000, b + 0x3000) && UpperKept(m.mem, m1.mem, b);
    BootingFacts(m1, s, f, b);
    EnableRuns(m1, s + 328, b, cached);
    var d: Machine :|
      && Leads(m1, 4, d, cached) && d.pc == s + 360 && d.csrs[CSR_PMODE] == 1 && d.csrs[CSR_PTBR] == b
      && Calm(d) && d.mem == m1.mem && d.tlb == FlushTlb(m1).tlb && d.regs == m1.regs[1 := 1];
    FlushSame(m1, d);
    LeadsThen(m, 12341, m1, 4, d, cached);
  }

  /** The tables as built at boot; no PT4 yet. */
  function BootSpace(b: nat, pt4: nat): Tables { Tables(b, b + 0x1000, b + 0x2000, b + 0x3000, pt4) }

  /** Built in pages without present entries, they are all the kernel needs to go on with paging on:
      the kernel half maps to itself, nothing else is mapped, and the TLB is coherent. */
  lemma KernelStarts(m: Machine, s: nat, f: nat, b: nat, pt4: nat, cached: bool)
    requires Booting(m, s, f, b, s) && m.regs[2] == b && TablesOk(BootSpace(b, pt4))
    requires Only(m.mem, b, 0) && Only(m.mem, b + 0x1000, 0) && Only(m.mem, b + 0x2000, 0)
    ensures exists d: Machine ::
      && Leads(m, 12345, d, cached) && d.pc == s + 360 && d.csrs[CSR_PMODE] == 1 && d.regs[6] == b + 0x2000
      && Space(d.mem, BootSpace(b, pt4)) && Kern(d, EnvOf(BootSpace(b, pt4), cached))
  {
    hide Run, BootCode, KernelChain, Flat, UpperKept, Only, TablesOk, EnvOf, Paged;
    var t := BootSpace(b, pt4);
    BootBuildsIdentity(m, s, f, b, cached);
    var d: Machine :|
      && Leads(m, 12345, d, cached) && d.pc == s + 360 && PagingOn(d, b) && d.tlb == FlushTlb(d).tlb && Calm(d)
      && d.regs[6] == b + 0x2000 && UpperKept(m.mem, d.mem, b);
    OnlyLinked(m.mem, d.mem, b, b, 1);
    OnlyLinked(m.mem, d.mem, b, b + 0x1000, 1);
    OnlyLinked(m.mem, d.mem, b, b + 0x2000, 4);
    DirectoryOnly(d.mem, b + 0x2000);
    FlushedCoherent(d);
    RootAt(d, b);
    SpacePaged(d, t, cached);
    EnvTop(t, cached);
  }

  lemma EnvTop(t: Tables, cached: bool)
    ensures EnvOf(t, cached).top == KERNEL_TOP
  {}

  lemma RootAt(d: Machine, b: nat)
    requires d.csrs[CSR_PTBR] == b && b % 4096 == 0
    ensures Root(d) == b
  {}

  lemma FlushedCoherent(d: Machine)
    requires d.tlb == FlushTlb(d).tlb
    ensures Coherent(d)
  {}

  lemma OnlyLinked(mem: Ram8, mem': Ram8, b: nat, q: nat, n: nat)
    requires UpperKept(mem, mem', b) && Only(mem, q, 0) && b + 0x7000 <= RAM_SIZE
    requires (q == b && n == 1) || (q == b + 0x1000 && n == 1) || (q == b + 0x2000 && n == 4)
    ensures Only(mem', q, n)
  {
    hide Read64, PteP;
    forall i: nat | n <= i < 512 ensures Absent(mem', q + 8 * i) {
      OnlyAt(mem, q, 0, i);
      assert Read64(mem', q + 8 * i) == Read64(mem, q + 8 * i);
    }
  }

  lemma DirectoryOnly(mem: Ram8, pd: nat)
    requires Only(mem, pd, 4)
    ensures Only(mem, pd, 5) && Absent(mem, pd + 32)
  {
    hide Absent;
    OnlyAt(mem, pd, 4, 4);
    forall i: nat | 5 <= i < 512 ensures Absent(mem, pd + 8 * i) {
      OnlyAt(mem, pd, 4, i);
    }
  }

  /** Up to the point where paging is turned on. */
  lemma TablesRun(m: Machine, s: nat, f: nat, b: nat, cached: bool)
    requires Booting(m, s, f, b, s) && m.regs[2] == b
    ensures exists d: Machine ::
      Leads(m, 12341, d, cached) && Booting(d, s, f, b, s + 328) && Plan(d, b)
      && KernelChain(d.mem, b, b + 0x1000, b + 0x2000, b + 0x3000) && UpperKept(m.mem, d.mem, b)
  {
    hide Run, BootCode, TablesDone, KernelChain, Booting, Plan, UpperKept;
    MovesRun(m, s, f, b, cached);
    var m0: Machine :| Leads(m, 7, m0, cached) && Booting(m0, s, f, b, s + 56) && Plan(m0, b) && m0.mem == m.mem;
    FillsRun(m0, s, f, b, cached);
    var m1: Machine :| Leads(m0, 12316, m1, cached) && Booting(m1, s, f, b, s + 184) && Plan(m1, b) && TablesDone(m1.mem, b, 4)
      && UpperKept(m0.mem, m1.mem, b);
    LinksRun(m1, s, f, b, cached);
    var m2: Machine :|
      Leads(m1, 18, m2, cached) && Booting(m2, s, f, b, s + 328) && Plan(m2, b)
      && KernelChain(m2.mem, b, b + 0x1000, b + 0x2000, b + 0x3000) && UpperKept(m1.mem, m2.mem, b);
    UpperTrans(m.mem, m1.mem, m2.mem, b);
    LeadsThen(m, 7, m0, 12316, m1, cached);
    LeadsThen(m, 12323, m1, 18, m2, cached);
  }

  lemma BootingFacts(m: Machine, s: nat, f: nat, b: nat)
    requires Booting(m, s, f, b, s + 328) && Plan(m, b)
    ensures Flat(m) && m.pc == s + 328 && Enable(m.mem, s + 328) && m.regs[4] == b < RAM_SIZE && m.regs[6] == b + 0x2000
  {
    hide At;
  }

  lemma FillsRun(m: Machine, s: nat, f: nat, b: nat, cached: bool)
    requires Booting(m, s, f, b, s + 56) && Plan(m, b)
    ensures exists d: Machine ::
      && Leads(m, 12316, d, cached) && Booting(d, s, f, b, s + 184) && Plan(d, b) && TablesDone(d.mem, b, 4)
      && UpperKept(m.mem, d.mem, b)
  {
    hide Run, BootCode, Table, Booting, Plan, UpperKept;
    assert TablesDone(m.mem, b, 0);
    hide TablesDone;
    FillPhase(m, s, f, b, 0, cached);
    var m1: Machine :| Leads(m, 3079, m1, cached) && Booting(m1, s, f, b, s + 88) && Plan(m1, b) && TablesDone(m1.mem, b, 1)
      && UpperKept(m.mem, m1.mem, b);
    FillPhase(m1, s, f, b, 1, cached);
    var m2: Machine :| Leads(m1, 3079, m2, cached) && Booting(m2, s, f, b, s + 120) && Plan(m2, b) && TablesDone(m2.mem, b, 2)
      && UpperKept(m1.mem, m2.mem, b);
    FillPhase(m2, s, f, b, 2, cached);
    var m3: Machine :| Leads(m2, 3079, m3, cached) && Booting(m3, s, f, b, s + 152) && Plan(m3, b) && TablesDone(m3.mem, b, 3)
      && UpperKept(m2.mem, m3.mem, b);
    FillPhase(m3, s, f, b, 3, cached);
    var m4: Machine :| Leads(m3, 3079, m4, cached) && Booting(m4, s, f, b, s + 184) && Plan(m4, b) && TablesDone(m4.mem, b, 4)
      && UpperKept(m3.mem, m4.mem, b);
    UpperTrans(m.mem, m1.mem, m2.mem, b);
    UpperTrans(m.mem, m2.mem, m3.mem, b);
    UpperTrans(m.mem, m3.mem, m4.mem, b);
    LeadsThen(m, 3079, m1, 3079, m2, cached);
    LeadsThen(m, 6158, m2, 3079, m3, cached);
    LeadsThen(m, 9237, m3, 3079, m4, cached);
  }

  lemma {:induction false} LinksFrom(m: Machine, s: nat, f: nat, b: nat, l: nat, cached: bool)
    requires l <= 6 && Booting(m, s, f, b, s + 184 + 24 * l) && Plan(m, b)
    requires TablesDone(m.mem, b, 4) && LinksDone(m.mem, b, l)
    ensures exists d: Machine ::
      && Leads(m, 3 * (6 - l), d, cached) && Booting(d, s, f, b, s + 328) && Plan(d, b)
      && TablesDone(d.mem, b, 4) && LinksDone(d.mem, b, 6) && UpperKept(m.mem, d.mem, b)
    decreases 6 - l
  {
    hide Run, BootCode, Table, TablesDone, LinksDone, Booting, Plan, UpperKept;
    if l == 6 {
      LeadsRefl(m, cached);
      UpperRefl(m.mem, b);
    } else {
      LinkPhase(m, s, f, b, l, cached);
      var m1: Machine :|
        && Leads(m, 3, m1, cached) && Booting(m1, s, f, b, s + 184 + 24 * (l + 1)) && Plan(m1, b)
        && TablesDone(m1.mem, b, 4) && LinksDone(m1.mem, b, l + 1) && UpperKept(m.mem, m1.mem, b);
      LinksFrom(m1, s, f, b, l + 1, cached);
      var d: Machine :|
        && Leads(m1, 3 * (6 - (l + 1)), d, cached) && Booting(d, s, f, b, s + 328) && Plan(d, b)
        && TablesDone(d.mem, b, 4) && LinksDone(d.mem, b, 6) && UpperKept(m1.mem, d.mem, b);
      UpperTrans(m.mem, m1.mem, d.mem, b);
      LeadsThen(m, 3, m1, 3 * (6 - (l + 1)), d, cached);
    }
  }

  lemma UpperRefl(mem: Ram8, b: nat)
    ensures UpperKept(mem, mem, b)
  {}

  lemma LinksRun(m: Machine, s: nat, f: nat, b: nat, cached: bool)
    requires Booting(m, s, f, b, s + 184) && Plan(m, b) && TablesDone(m.mem, b, 4)
    ensures exists d: Machine ::
      Leads(m, 18, d, cached) && Booting(d, s, f, b, s + 328) && Plan(d, b)
      && KernelChain(d.mem, b, b + 0x1000, b + 0x2000, b + 0x3000) && UpperKept(m.mem, d.mem, b)
  {
    hide Run, BootCode, Table, TablesDone, UpperKept;
    assert LinksDone(m.mem, b, 0);
    hide LinksDone;
    LinksFrom(m, s, f, b, 0, cached);
    var d: Machine :|
      && Leads(m, 18, d, cached) && Booting(d, s, f, b, s + 328) && Plan(d, b)
      && TablesDone(d.mem, b, 4) && LinksDone(d.mem, b, 6) && UpperKept(m.mem, d.mem, b);
    ChainBuilt(d.mem, b);
  }
}
