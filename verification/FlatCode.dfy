// Executing kernel code with paging off and the timer stopped: one lemma for
// every instruction the emitted subroutines use.

module FlatCode {
  import opened Mik64Mmu
  import opened Mik64Cpu
  import opened Mik64Encoding

  /** Paging off, timer stopped, nothing pending, running in supervisor mode. */
  predicate Flat(m: Machine) {
    && m.csrs[CSR_PMODE] == 0 && m.timer.interval == 0 && !m.timer.pending && !m.halted && !m.mode.user
    && m.regs[0] == 0
  }

  /** An instruction as `encode` takes it. */
  datatype Ins = Ins(opcode: nat, rd: nat, rs1: nat, rs2: nat, imm: int)

  predicate InsOk(i: Ins) {
    FieldsOk(i.opcode, i.rd, i.rs1, i.rs2) && -0x800_0000_0000 <= i.imm < 0x800_0000_0000
  }

  function WordOf(i: Ins): Word
    requires InsOk(i)
  {
    EncodeSum(i.opcode, i.rd, i.rs1, i.rs2, i.imm);
    Encode(i.opcode, i.rd, i.rs1, i.rs2, i.imm)
  }

  /** The instruction at a. */
  ghost predicate At(mem: Ram8, a: nat, i: Ins) { a + 8 <= RAM_SIZE && a % 8 == 0 && InsOk(i) && Read64(mem, a) == WordOf(i) }

  /** A flat machine fetches and executes what it has at pc. */
  lemma FlatStep(m: Machine, i: Ins, cached: bool)
    requires Flat(m) && At(m.mem, m.pc, i)
    ensures Step(m, cached) == Finish(ExecOp(m.(pc := m.pc + 8), m.pc, i.opcode, i.rd, i.rs1, i.rs2, i.imm, cached))
  {
    hide Encode, Opcode, Rd, Rs1, Rs2, Imm, Read64, ExecOp;
    DecodeEncode(i.opcode, i.rd, i.rs1, i.rs2, i.imm);
  }

  lemma TranslateFlat(m: Machine, va: nat, access: Access, cached: bool)
    requires m.csrs[CSR_PMODE] == 0
    ensures Translate(m, va, access, cached) == Tr(Pa(va), m)
  {}

  /** m with pc moved to `pc` and register r holding w. */
  function Moved(m: Machine, pc: Word, r: nat, w: Word): Machine
    requires r < 16
  {
    m.(pc := pc, regs := m.regs[r := w])
  }

  /** Retiring changes nothing of a flat machine. */
  lemma FlatRetire(m: Machine)
    requires Flat(m)
    ensures Retire(m) == m
  {
    assert m.regs[0 := 0] == m.regs;
  }

  /** Wrapping addition. */
  function Plus(w: Word, d: int): Word { Wrap(w + d) }

  lemma PlusPlus(w: Word, a: int, b: int)
    ensures Plus(Plus(w, a), b) == Plus(w, a + b)
  {}

  lemma PlusSmall(w: Word, d: int)
    requires 0 <= w + d < 0x1_0000_0000_0000_0000
    ensures Plus(w, d) == w + d
  {}

  /** What a register instruction leaves in rd. */
  function Result(m: Machine, i: Ins): Word
    requires InsOk(i)
  {
    var a, b := m.regs[i.rs1], m.regs[i.rs2];
    if i.opcode == LI then Wrap(i.imm)
    else if i.opcode == ADD then Plus(a, b)
    else if i.opcode == ADDI then Plus(a, i.imm)
    else if i.opcode == AND then AndWord(a, b)
    else OrWord(a, b)
  }

  lemma RegStep(m: Machine, i: Ins, cached: bool)
    requires Flat(m) && At(m.mem, m.pc, i) && i.rd != 0 && i.opcode in {LI, ADD, ADDI, AND, OR}
    ensures Step(m, cached) == Ok(Moved(m, m.pc + 8, i.rd, Result(m, i))) && Flat(Moved(m, m.pc + 8, i.rd, Result(m, i)))
  {
    hide WordOf, Read64, Step, AndWord, OrWord, Wrap;
    FlatStep(m, i, cached);
    FlatRetire(Moved(m, m.pc + 8, i.rd, Result(m, i)));
  }

  lemma LoadStep(m: Machine, i: Ins, a: nat, cached: bool)
    requires Flat(m) && At(m.mem, m.pc, i) && i.rd != 0 && i.opcode == LOAD64
    requires a == Plus(m.regs[i.rs1], i.imm) && a + 8 <= RAM_SIZE
    ensures var d := Moved(m, m.pc + 8, i.rd, Read64(m.mem, a)); Step(m, cached) == Ok(d) && Flat(d)
  {
    hide WordOf, Read64, Step, Wrap;
    FlatStep(m, i, cached);
    TranslateFlat(m.(pc := m.pc + 8), a, Load, cached);
    hide Translate;
    FlatRetire(Moved(m, m.pc + 8, i.rd, Read64(m.mem, a)));
  }

  function Stored(m: Machine, a: nat, w: Word): Machine
    requires a + 8 <= RAM_SIZE && m.pc + 8 < 0x1_0000_0000_0000_0000
  {
    m.(pc := m.pc + 8, mem := Write64(m.mem, a, w))
  }

  lemma StoreStep(m: Machine, i: Ins, a: nat, cached: bool)
    requires Flat(m) && At(m.mem, m.pc, i) && i.opcode == STORE64
    requires a == Plus(m.regs[i.rs1], i.imm) && a + 8 <= RAM_SIZE
    ensures Step(m, cached) == Ok(Stored(m, a, m.regs[i.rs2])) && Flat(Stored(m, a, m.regs[i.rs2]))
  {
    hide WordOf, Read64, Step, Wrap, Write64;
    FlatStep(m, i, cached);
    TranslateFlat(m.(pc := m.pc + 8), a, Store, cached);
    hide Translate;
    FlatRetire(Stored(m, a, m.regs[i.rs2]));
  }

  /** Where a jump or branch goes. */
  function NextPc(m: Machine, i: Ins): Word
    requires InsOk(i)
  {
    var a, b := m.regs[i.rs1], m.regs[i.rs2];
    if i.opcode == JMPR then a
    else if i.opcode == JMP || (i.opcode == BEQ && a == b) || (i.opcode == BNE && a != b) then Plus(m.pc, i.imm * 8)
    else Plus(m.pc, 8)
  }

  lemma JumpStep(m: Machine, i: Ins, cached: bool)
    requires Flat(m) && At(m.mem, m.pc, i) && i.opcode in {BEQ, BNE, JMP, JMPR}
    ensures var d := m.(pc := NextPc(m, i)); Step(m, cached) == Ok(d) && Flat(d)
  {
    hide WordOf, Read64, Step;
    FlatStep(m, i, cached);
    FlatRetire(m.(pc := NextPc(m, i)));
  }

  // ---- Runs -------------------------------------------------------------------------------

  /** n steps lead from m to d without a halt or an error on the way. */
  ghost predicate Leads(m: Machine, n: nat, d: Machine, cached: bool) { Run(m, n, cached) == Ok(d) }

  lemma LeadsRefl(m: Machine, cached: bool)
    ensures Leads(m, 0, m, cached)
  {}

  lemma LeadsStep(m: Machine, m1: Machine, n: nat, d: Machine, cached: bool)
    requires !m.halted && Step(m, cached) == Ok(m1) && Leads(m1, n, d, cached)
    ensures Leads(m, n + 1, d, cached)
  {
    hide Step;
  }

  lemma {:induction false} LeadsThen(m: Machine, n: nat, d: Machine, k: nat, e: Machine, cached: bool)
    requires Leads(m, n, d, cached) && Leads(d, k, e, cached)
    ensures Leads(m, n + k, e, cached)
    decreases n
  {
    hide Step;
    if m.halted {
      assert d == m;
    } else if n > 0 {
      LeadsThen(Step(m, cached).m, n - 1, d, k, e, cached);
    }
  }

  predicate Apart(a: nat, n: nat, b: nat, k: nat) { a + n <= b || b + k <= a }

  lemma PagesApart(p: nat, q: nat)
    requires p % 4096 == 0 && q % 4096 == 0 && p != q
    ensures p + 4096 <= q || q + 4096 <= p
  {}

  lemma OffPage(p: nat, a: nat)
    requires p % 4096 == 0 && p / 4096 != a / 4096 && a % 8 == 0
    ensures Apart(p, 4096, a, 8)
  {}

  /** Words that do not meet [b, b + n) are the same in both memories. */
  ghost predicate SameOutside(mem: Ram8, mem': Ram8, b: nat, n: nat) {
    forall a: nat | a + 8 <= RAM_SIZE && Apart(a, 8, b, n) :: Read64(mem', a) == Read64(mem, a)
  }

  lemma StoreOutside(mem: Ram8, a: nat, w: Word, b: nat, n: nat)
    requires a + 8 <= RAM_SIZE && b <= a && a + 8 <= b + n
    ensures SameOutside(mem, Write64(mem, a, w), b, n)
  {
    hide Read64, Write64;
    forall x: nat | x + 8 <= RAM_SIZE && Apart(x, 8, b, n) ensures Read64(Write64(mem, a, w), x) == Read64(mem, x) {
      ReadApart(mem, a, w, x);
    }
  }

  /** All code away from what changed is still there. */
  lemma AllKept(mem: Ram8, mem': Ram8, b: nat, n: nat)
    requires SameOutside(mem, mem', b, n)
    ensures forall a: nat, i: Ins | At(mem, a, i) && Apart(a, 8, b, n) :: At(mem', a, i)
  {
    hide Read64, WordOf;
  }

  lemma FlushKeeps(m: Machine)
    ensures var d := FlushTlb(m);
      d.regs == m.regs && d.timer == m.timer && d.halted == m.halted && d.mem == m.mem && d.csrs == m.csrs
      && d.mode == m.mode && d.pc == m.pc && d.out == m.out
  {}

  lemma FenceStep(m: Machine, i: Ins, cached: bool)
    requires Flat(m) && At(m.mem, m.pc, i) && i.opcode == SFENCE
    ensures var d := FlushTlb(m.(pc := m.pc + 8)); Step(m, cached) == Ok(d) && Flat(d)
  {
    hide WordOf, Read64, FlushTlb, Step;
    FlatStep(m, i, cached);
    var d := m.(pc := m.pc + 8);
    FlushKeeps(d);
    FlatRetire(FlushTlb(d));
  }

  lemma CsrStep(m: Machine, i: Ins, cached: bool)
    requires Flat(m) && At(m.mem, m.pc, i) && i.opcode == WRCSR && (i.imm == CSR_PTBR || i.imm == CSR_PMODE)
    ensures Step(m, cached) == Ok(WriteCsr(m.(pc := m.pc + 8), i.imm, m.regs[i.rs1]))
  {
    hide WordOf, Read64, FlushTlb, Step;
    FlatStep(m, i, cached);
    var d := WriteCsr(m.(pc := m.pc + 8), i.imm, m.regs[i.rs1]);
    FlushKeeps(m.(pc := m.pc + 8, csrs := m.csrs[i.imm := m.regs[i.rs1]]));
    assert d.regs[0 := 0] == d.regs;
  }
}
