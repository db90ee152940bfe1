// Kernel code with paging on: under an identity map of the kernel half, with or
// without a TLB, an instruction does what it does on a flat machine, but for
// A and D bits in the leaf tables.  Code is therefore run on the flat machine,
// and Carries takes what it does there to the machine as it is.

module SupervisorCode {
  import opened Mik64Mmu
  import opened Mik64Tlb
  import opened Mik64Cpu
  import opened Mik64Bisim
  import opened FlatCode
  import opened IdentityMap
  import Clock = Mik64Timer
  import Mik64Encoding

  /** Where kernel code runs: addresses below top, leaf entries of the kernel half in [lo, hi), all
      page tables in the pages `tables`, with a TLB or without. */
  datatype Env = Env(top: nat, lo: nat, hi: nat, tables: set<nat>, cached: bool)

  predicate EnvOk(v: Env) { v.top <= RAM_SIZE && v.lo <= v.hi <= RAM_SIZE }

  /** The walk of va ends at its own page's leaf, writable and executable, somewhere in [lo, hi). */
  ghost predicate MapsToSelf(mem: Ram8, root: nat, va: nat, lo: nat, hi: nat) {
    var l := Walk(mem, root, va, 3);
    l.Leaf? && lo <= l.addr && l.addr + 8 <= hi && Ppn(l.pte) == va / 4096 && PteW(l.pte) && !PteNx(l.pte)
  }

  /** The kernel half is mapped to itself through leaf entries in [lo, hi). */
  ghost predicate Ident(mem: Ram8, root: nat, lo: nat, hi: nat) {
    hi <= RAM_SIZE && root % 4096 == 0 && forall va: nat | va < KERNEL_TOP :: MapsToSelf(mem, root, va, lo, hi)
  }

  /** Built tables give an identity map. */
  lemma ChainIdent(mem: Ram8, pml4: nat, pdpt: nat, pd: nat, pt: nat)
    requires KernelChain(mem, pml4, pdpt, pd, pt) && pml4 % 4096 == 0
    ensures Ident(mem, pml4, pt, pt + 0x4000)
  {
    hide Walk, SameEntry, Ppn, PteW, PteNx, PteP, PteU, Read64, LeafTables;
    assert pt + 0x4000 <= RAM_SIZE by { ChainInRam(mem, pml4, pdpt, pd, pt); }
    var hi := pt + 0x4000;
    forall va: nat | va < KERNEL_TOP ensures MapsToSelf(mem, pml4, va, pt, hi) {
      KernelWalk(mem, pml4, pdpt, pd, pt, va);
      TableEntry(Read64(mem, pt + 8 * (va / 4096)), 4096 * (va / 4096));
    }
  }

  lemma ChainInRam(mem: Ram8, pml4: nat, pdpt: nat, pd: nat, pt: nat)
    requires KernelChain(mem, pml4, pdpt, pd, pt)
    ensures pt + 0x4000 <= RAM_SIZE
  {}

  /** Supervisor code that no tick interrupts: in a handler, or before the timer is set. */
  predicate Calm(m: Machine) {
    && !m.mode.user && !m.halted && m.regs[0] == 0
    && (!m.mode.intEnabled || (m.timer.interval == 0 && !m.timer.pending))
  }

  /** Paging as the kernel sets it up: the kernel half mapped to itself, the tables in their pages,
      the TLB (if there is one) coherent. */
  ghost predicate Paged(m: Machine, v: Env) {
    && Ident(m.mem, Root(m), v.lo, v.hi) && TablesIn(m.mem, Root(m), v.tables) && (v.cached ==> Coherent(m))
  }

  /** Calm, and paging off or as the kernel sets it up. */
  ghost predicate Kern(m: Machine, v: Env) {
    EnvOk(v) && Calm(m) && (m.csrs[CSR_PMODE] != 0 ==> v.top <= KERNEL_TOP && Paged(m, v))
  }

  /** Marking leaf entries keeps the identity map. */
  lemma IdentMarked(mem: Ram8, root: nat, lo: nat, hi: nat, va: nat, access: Access)
    requires lo <= hi && Ident(mem, root, lo, hi) && va < KERNEL_TOP
    ensures var l := Walk(mem, root, va, 3);
      l.Leaf? && Ident(Marked(mem, l.addr, access), root, lo, hi) && SameTables(mem, Marked(mem, l.addr, access))
      && DiffersWithin(mem, Marked(mem, l.addr, access), lo, hi - lo)
  {
    hide Walk, Mark, Read64, SameTables;
    assert MapsToSelf(mem, root, va, lo, hi);
    var l := Walk(mem, root, va, 3);
    SameTablesRefl(mem);
    WalkSameTables(mem, mem, root, va, 3);
    MarkedSameTables(mem, l.addr, access);
    var mem' := Marked(mem, l.addr, access);
    forall v: nat | v < KERNEL_TOP ensures MapsToSelf(mem', root, v, lo, hi) {
      assert MapsToSelf(mem, root, v, lo, hi);
      WalkSameTables(mem, mem', root, v, 3);
    }
  }

  /** The memories differ in A and D bits of leaf entries only. */
  ghost predicate Alike(mem: Ram8, mem': Ram8, v: Env) {
    v.lo <= v.hi && DiffersWithin(mem, mem', v.lo, v.hi - v.lo) && SameTables(mem, mem')
  }

  lemma AlikeRefl(mem: Ram8, v: Env)
    requires EnvOk(v)
    ensures Alike(mem, mem, v)
  {
    hide SameTables;
    SameTablesRefl(mem);
  }

  lemma AlikeTrans(mem: Ram8, mem1: Ram8, mem2: Ram8, v: Env)
    requires Alike(mem, mem1, v) && Alike(mem1, mem2, v)
    ensures Alike(mem, mem2, v)
  {
    hide SameTables;
    TablesTrans(mem, mem1, mem2);
  }

  /** Writing the same word into both leaves them alike. */
  lemma AlikeWrite(mem: Ram8, mem': Ram8, a: nat, w: Word, v: Env)
    requires Alike(mem, mem', v) && a % 8 == 0 && a + 8 <= RAM_SIZE
    ensures Alike(Write64(mem, a, w), Write64(mem', a, w), v)
  {
    BytesWritten(mem, mem', a, w, v);
    hide SameEntry, Read64, Write64, DiffersWithin;
    forall b: nat | b % 8 == 0 && b + 8 <= RAM_SIZE
      ensures SameEntry(Read64(Write64(mem, a, w), b), Read64(Write64(mem', a, w), b))
    {
      if b == a {
        ReadBack(mem, a, w);
        ReadBack(mem', a, w);
        Reflexive(w);
      } else {
        Apart8(a, b);
        ReadApart(mem, a, w, b);
        ReadApart(mem', a, w, b);
        assert SameEntry(Read64(mem, b), Read64(mem', b));
      }
    }
  }

  lemma BytesWritten(mem: Ram8, mem': Ram8, a: nat, w: Word, v: Env)
    requires Alike(mem, mem', v) && a + 8 <= RAM_SIZE
    ensures DiffersWithin(Write64(mem, a, w), Write64(mem', a, w), v.lo, v.hi - v.lo)
  {
    hide SameTables;
  }

  /** d is m but for leaf marks, TLB and timer, with that pc and those registers. */
  ghost predicate Goes(m: Machine, d: Machine, pc: nat, regs: Regs16, v: Env) {
    Kern(d, v) && d.pc == pc && d.regs == regs && d.csrs == m.csrs && d.mode == m.mode && d.out == m.out && Alike(m.mem, d.mem, v)
  }

  lemma TablesTrans(mem: Ram8, mem1: Ram8, mem2: Ram8)
    requires SameTables(mem, mem1) && SameTables(mem1, mem2)
    ensures SameTables(mem, mem2)
  {
    hide SameEntry, Read64;
    forall b: nat | b % 8 == 0 && b + 8 <= RAM_SIZE ensures SameEntry(Read64(mem, b), Read64(mem2, b)) {
      SameTrans(Read64(mem, b), Read64(mem1, b), Read64(mem2, b));
    }
  }

  /** Every kernel address translates to itself. */
  lemma KernTranslate(m: Machine, va: nat, access: Access, v: Env)
    requires Kern(m, v) && va < v.top
    ensures var t := Translate(m, va, access, v.cached);
      t.reply == Pa(va) && t.m.timer == m.timer && t.m.halted == m.halted && Goes(m, t.m, m.pc, m.regs, v)
  {
    hide Ident, Coherent, Walk, Read64, SameTables, TablesIn;
    if m.csrs[CSR_PMODE] == 0 {
      AlikeRefl(m.mem, v);
    } else {
      WalkTranslate(m, va, access, v.lo, v.hi);
      TablesInSame(m.mem, Translate(m, va, access, false).m.mem, Root(m), v.tables);
      if v.cached {
        TranslateAgrees(m, m, va, access);
        hide Translate;
      }
    }
  }

  lemma WalkTranslate(m: Machine, va: nat, access: Access, lo: nat, hi: nat)
    requires lo <= hi && Ident(m.mem, Root(m), lo, hi) && va < KERNEL_TOP && !m.mode.user && m.csrs[CSR_PMODE] != 0
    ensures var t := Translate(m, va, access, false);
      t.reply == Pa(va) && t.m == m.(mem := t.m.mem) && Ident(t.m.mem, Root(m), lo, hi) && SameTables(m.mem, t.m.mem)
      && DiffersWithin(m.mem, t.m.mem, lo, hi - lo)
  {
    hide Walk, Read64, Marked, DiffersWithin, SameTables;
    IdentMarked(m.mem, Root(m), lo, hi, va, access);
    assert MapsToSelf(m.mem, Root(m), va, lo, hi);
    hide Ident;
    assert va / 4096 * 4096 + va % 4096 == va;
  }

  // ---- Instructions -----------------------------------------------------------------------

  /** Instruction i at pc, within reach and away from the leaf tables. */
  ghost predicate Here(m: Machine, i: Ins, v: Env) {
    EnvOk(v) && At(m.mem, m.pc, i) && m.pc + 8 <= v.top && Apart(m.pc, 8, v.lo, v.hi - v.lo)
  }

  /** A kernel word away from the leaf tables. */
  predicate WordOk(a: nat, v: Env) { EnvOk(v) && a + 8 <= v.top && Apart(a, 8, v.lo, v.hi - v.lo) }

  lemma KernFetch(m: Machine, i: Ins, v: Env)
    requires Kern(m, v) && Here(m, i, v)
    ensures var t := Translate(m, m.pc, Fetch, v.cached).m;
      && Step(m, v.cached) == Finish(ExecOp(t.(pc := m.pc + 8), m.pc, i.opcode, i.rd, i.rs1, i.rs2, i.imm, v.cached))
      && t.halted == m.halted && Goes(m, t, m.pc, m.regs, v)
  {
    hide Translate, ExecOp, Encode, Opcode, Rd, Rs1, Rs2, Imm, Ident, Coherent, SameTables, TablesIn;
    KernTranslate(m, m.pc, Fetch, v);
    var t := Translate(m, m.pc, Fetch, v.cached).m;
    assert t.mem[m.pc..m.pc + 8] == m.mem[m.pc..m.pc + 8];
    DecodeOf(i);
  }

  lemma DecodeOf(i: Ins)
    requires InsOk(i)
    ensures var w := WordOf(i); Opcode(w) == i.opcode && Rd(w) == i.rd && Rs1(w) == i.rs1 && Rs2(w) == i.rs2 && Imm(w) == i.imm
  {
    hide Encode, Opcode, Rd, Rs1, Rs2, Imm;
    Mik64Encoding.DecodeEncode(i.opcode, i.rd, i.rs1, i.rs2, i.imm);
  }

  /** Retiring keeps supervisor code calm. */
  lemma CalmRetire(m: Machine)
    requires Calm(m)
    ensures var d := Retire(m);
      d.mem == m.mem && d.regs == m.regs && d.pc == m.pc && d.csrs == m.csrs && d.mode == m.mode && d.out == m.out
      && d.tlb == m.tlb && Calm(d)
  {
    assert m.regs[0 := 0] == m.regs;
  }

  /** Kern speaks of memory, CSRs, TLB and calm only. */
  lemma KernFrame(m: Machine, d: Machine, v: Env)
    requires Kern(m, v) && Calm(d) && d.mem == m.mem && d.csrs == m.csrs && d.tlb == m.tlb
    ensures Kern(d, v)
  {
    hide Ident, Coherent, TablesIn;
    if v.cached && m.csrs[CSR_PMODE] != 0 {
      CoherentFrame(m, d);
    }
  }

  /** Retiring an instruction that moved pc and registers only. */
  lemma KernRetire(m: Machine, t: Machine, pc: Word, regs: Regs16, v: Env)
    requires Goes(m, t, t.pc, t.regs, v) && regs[0] == 0
    ensures Goes(m, Retire(t.(pc := pc, regs := regs)), pc, regs, v)
  {
    hide Paged, Retire, Alike;
    var d := t.(pc := pc, regs := regs);
    CalmRetire(d);
    KernFrame(t, Retire(d), v);
  }

  lemma KernReg(m: Machine, i: Ins, v: Env)
    requires Kern(m, v) && Here(m, i, v) && i.rd != 0 && i.opcode in {LI, ADD, ADDI, AND, OR}
    ensures Step(m, v.cached).Ok? && Goes(m, Step(m, v.cached).m, m.pc + 8, m.regs[i.rd := Result(m, i)], v)
  {
    hide Translate, Step, WordOf, Read64, Paged, AndWord, OrWord, Wrap, Retire, Alike;
    KernFetch(m, i, v);
    KernRetire(m, Translate(m, m.pc, Fetch, v.cached).m, m.pc + 8, m.regs[i.rd := Result(m, i)], v);
  }

  lemma KernJump(m: Machine, i: Ins, v: Env)
    requires Kern(m, v) && Here(m, i, v) && i.opcode in {BEQ, BNE, JMP, JMPR}
    ensures Step(m, v.cached).Ok? && Goes(m, Step(m, v.cached).m, NextPc(m, i), m.regs, v)
  {
    hide Translate, Step, WordOf, Read64, Paged, Retire, Wrap, Alike;
    PlusSmall(m.pc, 8);
    KernFetch(m, i, v);
    KernRetire(m, Translate(m, m.pc, Fetch, v.cached).m, NextPc(m, i), m.regs, v);
  }

  lemma GoesTrans(m: Machine, t: Machine, d: Machine, pc: nat, regs: Regs16, v: Env)
    requires Goes(m, t, t.pc, t.regs, v) && Goes(t, d, pc, regs, v)
    ensures Goes(m, d, pc, regs, v)
  {
    hide Kern, Alike;
    AlikeTrans(m.mem, t.mem, d.mem, v);
  }

  lemma KernPc(m: Machine, t: Machine, pc: Word, v: Env)
    requires Goes(m, t, t.pc, t.regs, v)
    ensures Goes(m, t.(pc := pc), pc, t.regs, v)
  {
    hide Paged, Alike;
    KernFrame(t, t.(pc := pc), v);
  }

  lemma WordKept(mem: Ram8, mem': Ram8, a: nat, v: Env)
    requires Alike(mem, mem', v) && a + 8 <= RAM_SIZE && Apart(a, 8, v.lo, v.hi - v.lo)
    ensures Read64(mem', a) == Read64(mem, a)
  {
    hide SameTables;
    assert mem'[a..a + 8] == mem[a..a + 8];
  }

  /** The machine just before a load or store reaches memory: fetched and translated. */
  function Poised(m: Machine, va: nat, access: Access, cached: bool): Machine {
    Translate(Translate(m, m.pc, Fetch, cached).m.(pc := Wrap(m.pc + 8)), va, access, cached).m
  }

  lemma KernPoised(m: Machine, i: Ins, a: nat, access: Access, v: Env)
    requires Kern(m, v) && Here(m, i, v) && a < v.top
    ensures var t := Translate(m, m.pc, Fetch, v.cached).m.(pc := m.pc + 8);
      && Translate(t, a, access, v.cached) == Tr(Pa(a), Poised(m, a, access, v.cached))
      && Goes(m, Poised(m, a, access, v.cached), m.pc + 8, m.regs, v)
  {
    hide Translate, Paged, Alike, At;
    KernFetch(m, i, v);
    var t := Translate(m, m.pc, Fetch, v.cached).m.(pc := m.pc + 8);
    KernPc(m, Translate(m, m.pc, Fetch, v.cached).m, m.pc + 8, v);
    KernTranslate(t, a, access, v);
    GoesTrans(m, t, Poised(m, a, access, v.cached), m.pc + 8, m.regs, v);
  }

  /** A load of a kernel word away from the leaf tables. */
  lemma KernLoad(m: Machine, i: Ins, a: nat, v: Env)
    requires Kern(m, v) && Here(m, i, v) && i.rd != 0 && i.opcode == LOAD64
    requires a == Plus(m.regs[i.rs1], i.imm) && WordOk(a, v)
    ensures Step(m, v.cached).Ok? && Goes(m, Step(m, v.cached).m, m.pc + 8, m.regs[i.rd := Read64(m.mem, a)], v)
  {
    hide Translate, Step, WordOf, Read64, Paged, Retire, Wrap, Alike;
    KernFetch(m, i, v);
    KernPoised(m, i, a, Load, v);
    var u := Poised(m, a, Load, v.cached);
    WordKept(m.mem, u.mem, a, v);
    KernRetire(m, u, m.pc + 8, m.regs[i.rd := Read64(m.mem, a)], v);
  }

  /** What a harmless store leaves. */
  lemma KernStored(m: Machine, a: nat, w: Word, v: Env)
    requires Kern(m, v) && (m.csrs[CSR_PMODE] != 0 ==> Harmless(m.mem, Root(m), a, v.tables)) && a + 8 <= RAM_SIZE
    ensures Kern(m.(mem := Write64(m.mem, a, w)), v)
  {
    hide Walk, TablesIn, Harmless, Write64, Coherent;
    if m.csrs[CSR_PMODE] != 0 {
      var mem' := Write64(m.mem, a, w);
      HarmlessTables(m.mem, Root(m), v.tables, a, w);
      forall va: nat | va < KERNEL_TOP ensures MapsToSelf(mem', Root(m), va, v.lo, v.hi) {
        assert MapsToSelf(m.mem, Root(m), va, v.lo, v.hi);
        HarmlessWalk(m.mem, Root(m), v.tables, a, w, va);
      }
      if v.cached {
        HarmlessOffWalks(m, v.tables, a);
        WriteWithin(m.mem, a, w);
        StoreCoherent(m, mem', a, 8);
      }
    }
  }

  /** A store that takes no page away. */
  lemma KernStore(m: Machine, i: Ins, a: nat, v: Env)
    requires Kern(m, v) && Here(m, i, v) && i.opcode == STORE64 && a == Plus(m.regs[i.rs1], i.imm) && a % 8 == 0
    requires a + 8 <= v.top && (m.csrs[CSR_PMODE] != 0 ==> Harmless(m.mem, Root(m), a, v.tables))
    ensures Step(m, v.cached).Ok?
    ensures var d := Step(m, v.cached).m;
      && Kern(d, v) && d.pc == m.pc + 8 && d.regs == m.regs && d.csrs == m.csrs && d.mode == m.mode && d.out == m.out
      && Alike(Write64(m.mem, a, m.regs[i.rs2]), d.mem, v)
  {
    hide Translate, Step, WordOf, Read64, Paged, Retire, Wrap, Alike, Write64, Harmless;
    KernFetch(m, i, v);
    KernPoised(m, i, a, Store, v);
    var u, w := Poised(m, a, Store, v.cached), m.regs[i.rs2];
    if m.csrs[CSR_PMODE] != 0 {
      StillHarmless(m, u, a, v);
    }
    KernStored(u, a, w, v);
    AlikeWrite(m.mem, u.mem, a, w, v);
    var d := u.(mem := Write64(u.mem, a, w));
    CalmRetire(d);
    KernFrame(d, Retire(d), v);
  }

  lemma StillHarmless(m: Machine, u: Machine, a: nat, v: Env)
    requires Harmless(m.mem, Root(m), a, v.tables) && Alike(m.mem, u.mem, v) && u.csrs == m.csrs
    ensures Harmless(u.mem, Root(u), a, v.tables)
  {
    hide Harmless, SameTables, Root;
    RootAligned(m);
    assert Root(u) == Root(m) by { RootOf(m, u); }
    HarmlessSame(m.mem, u.mem, Root(m), a, v.tables);
  }

  lemma RootOf(m: Machine, u: Machine)
    requires u.csrs == m.csrs
    ensures Root(u) == Root(m)
  {}

  /** Code and data away from the leaf tables stay what they were. */
  lemma AtKept(mem: Ram8, mem': Ram8, a: nat, i: Ins, v: Env)
    requires Alike(mem, mem', v) && At(mem, a, i) && Apart(a, 8, v.lo, v.hi - v.lo)
    ensures At(mem', a, i)
  {
    hide WordOf, Read64, Alike;
    WordKept(mem, mem', a, v);
  }

  /** A fence empties the TLB. */
  lemma KernFence(m: Machine, i: Ins, v: Env)
    requires Kern(m, v) && Here(m, i, v) && i.opcode == SFENCE
    ensures Step(m, v.cached).Ok? && Goes(m, Step(m, v.cached).m, m.pc + 8, m.regs, v)
  {
    hide Translate, Step, WordOf, Read64, Ident, Coherent, Retire, Alike, TablesIn, FlushTlb, Wrap;
    KernFetch(m, i, v);
    var u := Translate(m, m.pc, Fetch, v.cached).m.(pc := m.pc + 8);
    FlushKeeps(u);
    FlushCoherent(u);
    KernRetire(m, FlushTlb(u), m.pc + 8, m.regs, v);
  }

  /** ERET leaves the handler: back to the saved pc in the saved mode, interrupts on. */
  lemma KernEret(m: Machine, i: Ins, v: Env)
    requires Kern(m, v) && Here(m, i, v) && i.opcode == ERET
    ensures Step(m, v.cached).Ok?
    ensures var d := Step(m, v.cached).m;
      && d.pc == m.mode.epc && d.mode == Mode(m.mode.prevUser, m.mode.prevUser, true, m.mode.epc) && d.regs == m.regs
      && d.csrs == m.csrs && d.out == m.out && Alike(m.mem, d.mem, v) && (m.csrs[CSR_PMODE] != 0 ==> Paged(d, v))
  {
    hide Translate, Step, WordOf, Read64, Ident, Coherent, Alike, Wrap, TablesIn;
    KernFetch(m, i, v);
    var t := Translate(m, m.pc, Fetch, v.cached).m;
    var d := Step(m, v.cached).m;
    assert m.regs[0 := 0] == m.regs;
    if v.cached && m.csrs[CSR_PMODE] != 0 {
      CoherentFrame(t, d);
    }
  }

  // ---- The flat machine and the machine as it is ------------------------------------------------

  /** m with paging and the timer off. */
  function Shadow(m: Machine): Machine {
    m.(csrs := m.csrs[CSR_PMODE := 0], timer := Timer(0, 0, false))
  }

  /** s is a flat machine in the state of m. */
  ghost predicate Sim(m: Machine, s: Machine, v: Env) {
    && Kern(m, v) && Flat(s) && s.pc == m.pc && s.regs == m.regs && s.mode == m.mode && s.out == m.out
    && s.csrs == m.csrs[CSR_PMODE := 0] && Alike(s.mem, m.mem, v)
  }

  lemma ShadowSims(m: Machine, v: Env)
    requires Kern(m, v)
    ensures Sim(m, Shadow(m), v)
  {
    hide Paged, Alike;
    AlikeRefl(m.mem, v);
  }

  /** On the flat machine, instruction i touches only what kernel code may touch. */
  ghost predicate Gentle(s: Machine, i: Ins, v: Env) {
    && Here(s, i, v)
    && var a := Plus(s.regs[i.rs1], i.imm);
       || (i.opcode in {LI, ADD, ADDI, AND, OR} && i.rd != 0)
       || i.opcode in {BEQ, BNE, JMP, JMPR}
       || (i.opcode == LOAD64 && i.rd != 0 && WordOk(a, v))
       || (i.opcode == STORE64 && a + 8 <= v.top && Harmless(s.mem, Root(s), a, v.tables))
       || i.opcode == SFENCE
  }

  /** CSRs, mode and output are the same. */
  predicate SameModes(m: Machine, d: Machine) { d.csrs == m.csrs && d.mode == m.mode && d.out == m.out }

  /** The machine as it is follows the flat machine through a gentle instruction. */
  lemma SimStep(m: Machine, s: Machine, i: Ins, v: Env)
    requires Sim(m, s, v) && Gentle(s, i, v)
    ensures !m.halted && !s.halted && Step(m, v.cached).Ok? && Step(s, false).Ok?
    ensures Sim(Step(m, v.cached).m, Step(s, false).m, v) && SameModes(m, Step(m, v.cached).m)
  {
    hide Step, WordOf, Read64, Paged, Alike, Write64, Harmless, Plus, AndWord, OrWord, Root;
    assert Here(m, i, v) by { AtKept(s.mem, m.mem, m.pc, i, v); }
    var a := Plus(s.regs[i.rs1], i.imm);
    if i.opcode in {LI, ADD, ADDI, AND, OR} {
      KernReg(m, i, v);
      RegStep(s, i, false);
      AlikeTrans(s.mem, m.mem, Step(m, v.cached).m.mem, v);
    } else if i.opcode in {BEQ, BNE, JMP, JMPR} {
      KernJump(m, i, v);
      JumpStep(s, i, false);
      AlikeTrans(s.mem, m.mem, Step(m, v.cached).m.mem, v);
    } else if i.opcode == LOAD64 {
      KernLoad(m, i, a, v);
      LoadStep(s, i, a, false);
      WordKept(s.mem, m.mem, a, v);
      AlikeTrans(s.mem, m.mem, Step(m, v.cached).m.mem, v);
    } else if i.opcode == STORE64 {
      SimStore(m, s, i, a, v);
    } else {
      KernFence(m, i, v);
      FenceStep(s, i, false);
      AlikeTrans(s.mem, m.mem, Step(m, v.cached).m.mem, v);
    }
  }

  lemma SimStore(m: Machine, s: Machine, i: Ins, a: nat, v: Env)
    requires Sim(m, s, v) && Here(s, i, v) && Here(m, i, v) && i.opcode == STORE64 && a == Plus(s.regs[i.rs1], i.imm)
    requires a + 8 <= v.top && Harmless(s.mem, Root(s), a, v.tables)
    ensures Step(m, v.cached).Ok? && Step(s, false).Ok?
    ensures Sim(Step(m, v.cached).m, Step(s, false).m, v) && SameModes(m, Step(m, v.cached).m)
  {
    hide Step, WordOf, Read64, Paged, Alike, Write64, Fillable, Plus, Root;
    assert Root(m) == Root(s) by { RootShadow(m, s); }
    RootAligned(m);
    assert SameTables(s.mem, m.mem) by { AlikeTables(s.mem, m.mem, v); }
    HarmlessSame(s.mem, m.mem, Root(m), a, v.tables);
    KernStore(m, i, a, v);
    StoreStep(s, i, a, false);
    var w := m.regs[i.rs2];
    AlikeWrite(s.mem, m.mem, a, w, v);
    AlikeTrans(Write64(s.mem, a, w), Write64(m.mem, a, w), Step(m, v.cached).m.mem, v);
  }

  lemma AlikeTables(mem: Ram8, mem': Ram8, v: Env)
    requires Alike(mem, mem', v)
    ensures SameTables(mem, mem')
  {}

  lemma RootShadow(m: Machine, s: Machine)
    requires s.csrs == m.csrs[CSR_PMODE := 0]
    ensures Root(m) == Root(s)
  {}

  /** n gentle steps lead the flat machine from s to e. */
  ghost predicate Glides(s: Machine, n: nat, e: Machine, v: Env)
    decreases n
  {
    if n == 0 then s == e
    else !s.halted && (exists i :: Gentle(s, i, v)) && Step(s, false).Ok? && Glides(Step(s, false).m, n - 1, e, v)
  }

  lemma GlidesRefl(s: Machine, v: Env)
    ensures Glides(s, 0, s, v)
  {}

  lemma GlidesStep(s: Machine, i: Ins, s1: Machine, n: nat, e: Machine, v: Env)
    requires !s.halted && Gentle(s, i, v) && Step(s, false) == Ok(s1) && Glides(s1, n, e, v)
    ensures Glides(s, n + 1, e, v)
  {
    hide Step, Gentle;
  }

  lemma {:induction false} GlidesThen(s: Machine, n: nat, e: Machine, k: nat, f: Machine, v: Env)
    requires Glides(s, n, e, v) && Glides(e, k, f, v)
    ensures Glides(s, n + k, f, v)
    decreases n
  {
    hide Step, Gentle;
    if n > 0 {
      GlidesThen(Step(s, false).m, n - 1, e, k, f, v);
    }
  }

  /** Gentle steps leave it flat. */
  lemma {:induction false} GlidesFlat(s: Machine, n: nat, e: Machine, v: Env)
    requires Flat(s) && Glides(s, n, e, v)
    ensures Flat(e)
    decreases n
  {
    hide Step, Flat, Gentle;
    if n > 0 {
      var i :| Gentle(s, i, v);
      GentleFlat(s, i, v);
      GlidesFlat(Step(s, false).m, n - 1, e, v);
    }
  }

  lemma GentleFlat(s: Machine, i: Ins, v: Env)
    requires Flat(s) && Gentle(s, i, v)
    ensures Step(s, false).Ok? && Flat(Step(s, false).m)
  {
    hide Step, WordOf, Read64, Write64, Harmless, Plus, Root, AndWord, OrWord;
    var a := Plus(s.regs[i.rs1], i.imm);
    if i.opcode in {LI, ADD, ADDI, AND, OR} {
      RegStep(s, i, false);
    } else if i.opcode in {BEQ, BNE, JMP, JMPR} {
      JumpStep(s, i, false);
    } else if i.opcode == LOAD64 {
      LoadStep(s, i, a, false);
    } else if i.opcode == STORE64 {
      StoreStep(s, i, a, false);
    } else {
      FenceStep(s, i, false);
    }
  }

  /** n steps of the machine as it is end as e does, up to leaf marks, TLB and timer. */
  ghost predicate Lands(m: Machine, n: nat, d: Machine, e: Machine, v: Env) {
    Leads(m, n, d, v.cached) && Sim(d, e, v) && SameModes(m, d)
  }

  /** What gentle code does on the flat machine it does with paging on, TLB or not. */
  lemma {:induction false} Carries(m: Machine, s: Machine, n: nat, e: Machine, v: Env)
    requires Sim(m, s, v) && Glides(s, n, e, v)
    ensures exists d: Machine :: Lands(m, n, d, e, v)
    decreases n
  {
    hide Step, Kern, Flat, Alike, Gentle;
    if n == 0 {
      LeadsRefl(m, v.cached);
      assert Lands(m, 0, m, e, v);
    } else {
      var i :| Gentle(s, i, v);
      SimStep(m, s, i, v);
      var m1, s1 := Step(m, v.cached).m, Step(s, false).m;
      Carries(m1, s1, n - 1, e, v);
      var d: Machine :| Lands(m1, n - 1, d, e, v);
      LeadsStep(m, m1, n - 1, d, v.cached);
      assert Lands(m, n, d, e, v);
    }
  }

  // ---- With the timer running ---------------------------------------------------------------------

  function Stopped(m: Machine): Machine { m.(timer := Timer(0, 0, false)) }

  /** The timer runs and has more than n steps to go. */
  predicate Running(m: Machine, n: nat) { m.timer.interval > 0 && !m.timer.pending && m.timer.counter > n }

  /** Kernel code that no tick interrupts within n steps: interrupts masked, the timer off, or the
      next tick more than n steps away. */
  ghost predicate KernFor(m: Machine, n: nat, v: Env) { Kern(m, v) || (Kern(Stopped(m), v) && Running(m, n)) }

  lemma ShadowFlat(m: Machine, n: nat, v: Env)
    requires KernFor(m, n, v)
    ensures Flat(Shadow(m))
  {
    hide Paged;
  }

  function Timed(d: Done, t: Timer): Done {
    match d
    case Next(m) => Next(m.(timer := t))
    case Faulted(m) => Faulted(m.(timer := t))
    case Crash => Crash
  }

  /** Translation and gentle instructions neither read nor set the timer. */
  lemma TranslateTimed(m: Machine, va: nat, access: Access, cached: bool, t: Timer)
    ensures var r, r' := Translate(m, va, access, cached), Translate(m.(timer := t), va, access, cached);
      r'.reply == r.reply && r'.m == r.m.(timer := t)
  {
    hide Walk, Marked, Denial, EntryFor, TlbIx;
  }

  predicate Untimed(opcode: nat) { opcode in {LI, ADD, ADDI, AND, OR, BEQ, BNE, JMP, JMPR, LOAD64, STORE64, SFENCE} }

  lemma ExecTimed(m: Machine, base: Word, w: Word, cached: bool, t: Timer)
    requires Untimed(Opcode(w))
    ensures Exec(m.(timer := t), base, w, cached) == Timed(Exec(m, base, w, cached), t)
  {
    hide Translate, AndWord, OrWord, Read64, Write64, Opcode, Rd, Rs1, Rs2, Imm;
    var va := Wrap(m.regs[Rs1(w)] + Imm(w));
    TranslateTimed(m, va, Load, cached, t);
    TranslateTimed(m, va, Store, cached, t);
  }

  lemma Fetches(m: Machine, i: Ins, v: Env)
    requires Kern(m, v) && Here(m, i, v)
    ensures !Interrupted(m) && Clock.FetchOk(m, v.cached) && Clock.Current(m, v.cached) == WordOf(i) && Opcode(WordOf(i)) == i.opcode
    ensures var t := Translate(m, m.pc, Fetch, v.cached).m;
      && t.timer == m.timer && !t.halted
      && Clock.Executed(m, v.cached) == ExecOp(t.(pc := m.pc + 8), m.pc, i.opcode, i.rd, i.rs1, i.rs2, i.imm, v.cached)
  {
    hide Translate, WordOf, Read64, Paged, Alike, ExecOp, Opcode, Rd, Rs1, Rs2, Imm;
    KernTranslate(m, m.pc, Fetch, v);
    WordKept(m.mem, Translate(m, m.pc, Fetch, v.cached).m.mem, m.pc, v);
    DecodeOf(i);
    assert Wrap(m.pc + 8) == m.pc + 8;
  }

  /** What a gentle instruction is, to the machine as it is: completed, the timer untouched. */
  lemma GentleCompletes(m: Machine, s: Machine, i: Ins, v: Env)
    requires Sim(m, s, v) && Gentle(s, i, v)
    ensures Clock.Completes(m, v.cached) && Untimed(Opcode(Clock.Current(m, v.cached)))
    ensures !Clock.Executed(m, v.cached).m.halted && Clock.Executed(m, v.cached).m.timer == m.timer
  {
    hide Translate, WordOf, Read64, Paged, Alike, Write64, Harmless, Root, AndWord, OrWord, Opcode, Clock.FetchOk, Clock.Executed, Clock.Current;
    assert Here(m, i, v) by { AtKept(s.mem, m.mem, m.pc, i, v); }
    Fetches(m, i, v);
    var a, t := Plus(s.regs[i.rs1], i.imm), Translate(m, m.pc, Fetch, v.cached).m.(pc := m.pc + 8);
    if i.opcode == LOAD64 {
      KernPoised(m, i, a, Load, v);
      Clock.TranslateKeeps(t, a, Load, v.cached);
    } else if i.opcode == STORE64 {
      KernPoised(m, i, a, Store, v);
      Clock.TranslateKeeps(t, a, Store, v.cached);
    }
  }

  /** A gentle step with the timer running and more than one step to go: the same step, a count less. */
  lemma StepTimed(m: Machine, s: Machine, i: Ins, v: Env)
    requires Sim(Stopped(m), s, v) && Gentle(s, i, v) && Running(m, 1)
    ensures Step(Stopped(m), v.cached).Ok?
    ensures Step(m, v.cached) == Ok(Step(Stopped(m), v.cached).m.(timer := m.timer.(counter := m.timer.counter - 1)))
  {
    hide Translate, Exec, Read64, Sim, Gentle, Opcode;
    var m0 := Stopped(m);
    GentleCompletes(m0, s, i, v);
    TranslateTimed(m0, m.pc, Fetch, v.cached, m.timer);
    var t := Translate(m0, m.pc, Fetch, v.cached).m;
    ExecTimed(t.(pc := Wrap(m.pc + 8)), m.pc, Clock.Current(m0, v.cached), v.cached, m.timer);
  }

  /** n steps of the machine as it is end as e does, k more steps before any tick. */
  ghost predicate LandsFor(m: Machine, n: nat, k: nat, d: Machine, e: Machine, v: Env) {
    && Leads(m, n, d, v.cached) && KernFor(d, k, v) && d.pc == e.pc && d.regs == e.regs && SameModes(m, d) && Alike(e.mem, d.mem, v)
  }

  lemma {:induction false} CarriesTimed(m: Machine, s: Machine, n: nat, k: nat, e: Machine, v: Env)
    requires Sim(Stopped(m), s, v) && Running(m, n + k) && Glides(s, n, e, v)
    ensures exists d: Machine :: LandsFor(m, n, k, d, e, v)
    decreases n
  {
    hide Step, Kern, Flat, Alike, Gentle;
    if n == 0 {
      LeadsRefl(m, v.cached);
      assert LandsFor(m, 0, k, m, e, v);
    } else {
      var i :| Gentle(s, i, v);
      StepTimed(m, s, i, v);
      SimStep(Stopped(m), s, i, v);
      var m1, s1 := Step(m, v.cached).m, Step(s, false).m;
      assert Stopped(m1) == Step(Stopped(m), v.cached).m by { StoppedStep(m, s, i, v); }
      CarriesTimed(m1, s1, n - 1, k, e, v);
      var d: Machine :| LandsFor(m1, n - 1, k, d, e, v);
      LeadsStep(m, m1, n - 1, d, v.cached);
      assert LandsFor(m, n, k, d, e, v);
    }
  }

  lemma StoppedStep(m: Machine, s: Machine, i: Ins, v: Env)
    requires Sim(Stopped(m), s, v) && Gentle(s, i, v)
    ensures Step(Stopped(m), v.cached).Ok? && Step(Stopped(m), v.cached).m.timer == Timer(0, 0, false)
  {
    hide Translate, Exec, Read64, Sim, Gentle, Opcode;
    GentleCompletes(Stopped(m), s, i, v);
  }

  /** What gentle code does on the flat machine it does in the kernel, no tick being due. */
  lemma CarriesFor(m: Machine, n: nat, k: nat, e: Machine, v: Env)
    requires KernFor(m, n + k, v) && Glides(Shadow(m), n, e, v)
    ensures exists d: Machine :: LandsFor(m, n, k, d, e, v)
  {
    hide Step, Kern, Flat, Alike, Glides;
    if Kern(m, v) {
      ShadowSims(m, v);
      Carries(m, Shadow(m), n, e, v);
      var d: Machine :| Lands(m, n, d, e, v);
      assert LandsFor(m, n, k, d, e, v);
    } else {
      ShadowSims(Stopped(m), v);
      CarriesTimed(m, Shadow(m), n, k, e, v);
    }
  }
}
