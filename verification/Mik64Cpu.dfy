// The Mik-64 instruction set: encoding, decoding and one step of the machine.

module Mik64Cpu {
  import opened Bits
  import opened Bytes
  import opened Mik64Mmu

  const SERIAL_DATA := 0x1000
  const SERIAL_STATUS := 0x1001
  const TRAP_VECTOR := 0x2000
  const FAULT_VECTOR := 0x2010
  const INT_VECTOR := 0x2020

  // ---- Instruction words ---------------------------------------------------------

  /** The operations, by opcode. */
  const HALT := 0x00
  const LI := 0x01
  const ADD := 0x02
  const ADDI := 0x03
  const SUB := 0x04
  const AND := 0x05
  const OR := 0x06
  const LOAD8 := 0x07
  const LOAD64 := 0x08
  const STORE8 := 0x09
  const STORE64 := 0x0A
  const BEQ := 0x0B
  const BNE := 0x0C
  const JMP := 0x0D
  const TRAP := 0x0E
  const JMPR := 0x0F
  const ERET := 0x10
  const RDCSR := 0x11
  const WRCSR := 0x12
  const SFENCE := 0x13
  const SRET := 0x14
  const INT := 0x15
  const IRET := 0x16

  /** Two's complement at 64 and at 44 bits. */
  function Wrap(i: int): Word { i % 0x1_0000_0000_0000_0000 }
  function Imm44(i: int): nat { i % 0x1000_0000_0000 }

  /** `sext44`. */
  function Sext44(v: nat): int {
    if v % 0x1000_0000_0000 >= 0x800_0000_0000 then v % 0x1000_0000_0000 - 0x1000_0000_0000 else v % 0x1000_0000_0000
  }

  function Opcode(w: Word): nat { w / 0x100_0000_0000_0000 }
  function Rd(w: Word): (r: nat) ensures r < 16 { w / 0x10_0000_0000_0000 % 16 }
  function Rs1(w: Word): (r: nat) ensures r < 16 { w / 0x1_0000_0000_0000 % 16 }
  function Rs2(w: Word): (r: nat) ensures r < 16 { w / 0x1000_0000_0000 % 16 }
  function Imm(w: Word): int { Sext44(w) }

  /** `encode`: the fields shifted into place and or-ed together. */
  function Encode(opcode: nat, rd: nat, rs1: nat, rs2: nat, imm: int): nat {
    Or(Or(Or(Or(Shl(opcode, 56), Shl(rd, 52)), Shl(rs1, 48)), Shl(rs2, 44)), Imm44(imm))
  }

  /** Registers and opcodes as the instruction format holds them. */
  predicate FieldsOk(opcode: nat, rd: nat, rs1: nat, rs2: nat) { opcode < 256 && rd < 16 && rs1 < 16 && rs2 < 16 }

  // ---- Helpers of the interpreter ------------------------------------------------

  function AndWord(a: Word, b: Word): Word {
    AndBound(a, b);
    And(a, b)
  }

  function OrWord(a: Word, b: Word): Word {
    Ones64();
    OrBound(a, b, 64);
    Or(a, b)
  }

  lemma {:induction false} OnesBytes(k: nat)
    ensures Ones(8 * k) + 1 == Pow256(k)
  {
    if k > 0 {
      OnesBytes(k - 1);
      Ones8(8 * (k - 1));
    }
  }

  lemma Ones64()
    ensures Ones(64) == 0xFFFF_FFFF_FFFF_FFFF
  {
    var k := 8;
    OnesBytes(k);
    Pow256Eight();
  }

  lemma Ones8(n: nat)
    ensures Ones(n + 8) == 255 + 256 * Ones(n)
  {
    assert Ones(n + 8) == 1 + 2 * Ones(n + 7) == 3 + 4 * Ones(n + 6) == 7 + 8 * Ones(n + 5);
    assert Ones(n + 5) == 1 + 2 * Ones(n + 4) == 3 + 4 * Ones(n + 3) == 7 + 8 * Ones(n + 2);
    assert Ones(n + 2) == 1 + 2 * Ones(n + 1) == 3 + 4 * Ones(n);
  }

  function SetReg(m: Machine, r: nat, w: Word): Machine
    requires r < 16
  {
    m.(regs := m.regs[r := w])
  }

  /** x0 is hard-wired to zero. */
  function ZeroX0(m: Machine): Machine { SetReg(m, 0, 0) }

  /** Enter supervisor mode at the handler whose address is stored at `vector`. */
  function Enter(m: Machine, epc: Word, vector: nat): Machine
    requires vector + 8 <= RAM_SIZE
  {
    m.(mode := Mode(false, m.mode.user, false, epc), pc := Read64(m.mem, vector))
  }

  function DeliverFault(m: Machine, epc: Word, code: nat, va: Word): Machine
    requires code < 6
  {
    ZeroX0(Enter(SetReg(SetReg(m, 10, code), 11, va), epc, FAULT_VECTOR))
  }

  function FlushTlb(m: Machine): Machine { m.(tlb := seq(TLB_SIZE, _ => EMPTY_ENTRY)) }

  /** How executing an instruction ends: completed, faulted, or a Rust error. */
  datatype Done = Next(m: Machine) | Faulted(m: Machine) | Crash

  function CodeOf(r: Reply): nat
    requires r.Fault?
  {
    if r.code < 6 then r.code else 5
  }

  function ExecLoad(m: Machine, base: Word, rd: nat, va: Word, wide: bool, cached: bool): Done
    requires rd < 16
  {
    var t := Translate(m, va, Load, cached);
    if t.reply.Fault? then Faulted(DeliverFault(t.m, base, CodeOf(t.reply), va))
    else
      var pa := t.reply.pa;
      if wide then if pa + 8 > RAM_SIZE then Crash else Next(SetReg(t.m, rd, Read64(t.m.mem, pa)))
      else if pa == SERIAL_DATA then Next(SetReg(t.m, rd, 0))
      else if pa == SERIAL_STATUS then Next(SetReg(t.m, rd, 0xFF))
      else if pa < RAM_SIZE then Next(SetReg(t.m, rd, t.m.mem[pa]))
      else Crash
  }

  function ExecStore(m: Machine, base: Word, va: Word, w: Word, wide: bool, cached: bool): Done {
    var t := Translate(m, va, Store, cached);
    if t.reply.Fault? then Faulted(DeliverFault(t.m, base, CodeOf(t.reply), va))
    else
      var pa := t.reply.pa;
      if wide then if pa + 8 > RAM_SIZE then Crash else Next(t.m.(mem := Write64(t.m.mem, pa, w)))
      else if pa == SERIAL_DATA then Next(t.m.(out := t.m.out + [w % 256]))
      else if pa == SERIAL_STATUS then Next(t.m)
      else if pa < RAM_SIZE then Next(t.m.(mem := t.m.mem[pa := w % 256]))
      else Crash
  }

  function Branch(m: Machine, base: Word, imm: int): Machine { m.(pc := Wrap(base + imm * 8)) }

  function ReadCsr(m: Machine, csr: nat): Word
    requires csr < 256
  {
    if csr == CSR_TIMER then m.timer.counter else if csr == CSR_EPC then m.mode.epc else m.csrs[csr]
  }

  function WriteCsr(m: Machine, csr: nat, w: Word): Machine
    requires csr < 256
  {
    var m1 := m.(csrs := m.csrs[csr := w]);
    var m2 := if csr == CSR_TIMER then m1.(timer := m.timer.(interval := w, counter := w)) else m1;
    if csr == CSR_PTBR || csr == CSR_PMODE then FlushTlb(m2) else m2
  }

  /** ERET and IRET. */
  function Return(m: Machine): Machine {
    m.(pc := m.mode.epc, mode := m.mode.(intEnabled := true, user := m.mode.prevUser))
  }

  /** SRET: jump to a in user mode. */
  function EnterUser(m: Machine, a: Word): Machine {
    m.(pc := a, mode := Mode(true, m.mode.user, true, m.mode.epc))
  }

  /** Execute a fetched word; m already has pc = base + 8. */
  function Exec(m: Machine, base: Word, w: Word, cached: bool): Done {
    ExecOp(m, base, Opcode(w), Rd(w), Rs1(w), Rs2(w), Imm(w), cached)
  }

  /** The big match of `step`, over the decoded fields. */
  function ExecOp(m: Machine, base: Word, opcode: nat, rd: nat, rs1: nat, rs2: nat, imm: int, cached: bool): Done
    requires rd < 16 && rs1 < 16 && rs2 < 16
  {
    var a, b := m.regs[rs1], m.regs[rs2];
    var va := Wrap(a + imm);
    match opcode
    case 0x00 => Next(m.(halted := true))
    case 0x01 => Next(SetReg(m, rd, Wrap(imm)))
    case 0x02 => Next(SetReg(m, rd, Wrap(a + b)))
    case 0x03 => Next(SetReg(m, rd, va))
    case 0x04 => Next(SetReg(m, rd, Wrap(a - b)))
    case 0x05 => Next(SetReg(m, rd, AndWord(a, b)))
    case 0x06 => Next(SetReg(m, rd, OrWord(a, b)))
    case 0x07 => ExecLoad(m, base, rd, va, false, cached)
    case 0x08 => ExecLoad(m, base, rd, va, true, cached)
    case 0x09 => ExecStore(m, base, va, b, false, cached)
    case 0x0A => ExecStore(m, base, va, b, true, cached)
    case 0x0B => Next(if a == b then Branch(m, base, imm) else m)
    case 0x0C => Next(if a != b then Branch(m, base, imm) else m)
    case 0x0D => Next(Branch(m, base, imm))
    case 0x0E => Next(Enter(SetReg(m, 10, Wrap(imm)), m.pc, TRAP_VECTOR))
    case 0x0F => Next(m.(pc := a))
    case 0x10 => Next(Return(m))
    case 0x11 => Next(SetReg(m, rd, ReadCsr(m, Wrap(imm) % 256)))
    case 0x12 => Next(WriteCsr(m, Wrap(imm) % 256, a))
    case 0x13 => Next(FlushTlb(m))
    case 0x14 => Next(EnterUser(m, a))
    case 0x15 => Next(Enter(SetReg(m, 10, Wrap(imm)), m.pc, INT_VECTOR))
    case 0x16 => Next(Return(m))
    case _ => Crash
  }

  function Tick(t: Timer): Timer {
    if t.counter <= 1 then Timer(t.interval, t.interval, true) else t.(counter := t.counter - 1)
  }

  /** The end of a completed instruction: x0, then the interval timer. */
  function Retire(m0: Machine): Machine {
    var m := ZeroX0(m0);
    if m.halted || m.timer.interval == 0 then m
    else m.(timer := Tick(m.timer))
  }

  datatype Outcome = Ok(m: Machine) | Err

  /** The instruction word a machine is about to execute, after a successful fetch. */
  function Fetched(m: Machine, cached: bool): (t: Tr) { Translate(m, m.pc, Fetch, cached) }

  predicate Interrupted(m: Machine) { m.timer.pending && m.mode.intEnabled }

  function Finish(d: Done): Outcome {
    match d
    case Next(m) => Ok(Retire(m))
    case Faulted(m) => Ok(m)
    case Crash => Err
  }

  /** `step`. */
  function Step(m: Machine, cached: bool): Outcome {
    if Interrupted(m) then Ok(Enter(m.(timer := m.timer.(pending := false)), m.pc, INT_VECTOR))
    else
      var t := Fetched(m, cached);
      match t.reply
      case Fault(code) => Ok(DeliverFault(t.m, m.pc, CodeOf(t.reply), m.pc))
      case Pa(pa) =>
        if pa + 8 > RAM_SIZE || pa % 8 != 0 then Err
        else Finish(Exec(t.m.(pc := Wrap(m.pc + 8)), m.pc, Read64(t.m.mem, pa), cached))
  }

  /** n steps; errors and halting are absorbing. */
  function Run(m: Machine, n: nat, cached: bool): Outcome
    decreases n
  {
    if n == 0 || m.halted then Ok(m)
    else match Step(m, cached)
      case Ok(m') => Run(m', n - 1, cached)
      case Err => Err
  }
}
