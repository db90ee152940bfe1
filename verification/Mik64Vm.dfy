// The interpreter as it is written: one object whose fields every method
// updates in place, proved against the functions of Mik64Mmu and Mik64Cpu.

module Mik64Vm {
  import opened Bytes
  import opened Mik64Mmu
  import Cpu = Mik64Cpu
  import Bisim = Mik64Bisim

  /** How an instruction ended. */
  datatype Ending = Completed | FaultTaken | Error

  class Vm {
    const regs: array<Word>
    const csrs: array<Word>
    const tlb: array<TlbEntry>
    const mem: array<u8>
    var pc: Word
    var epc: Word
    var halted: bool
    var userMode: bool
    var prevUser: bool
    var interval: Word
    var counter: Word
    var pending: bool
    var intEnabled: bool
    var out: seq<u8>

    predicate Shape() {
      && regs.Length == 16 && csrs.Length == 256 && tlb.Length == TLB_SIZE && mem.Length == RAM_SIZE
      && regs != csrs && (mem as object) != regs && (mem as object) != csrs && (mem as object) != tlb
      && (tlb as object) != regs && (tlb as object) != csrs
    }

    /** Cached leaf addresses lie in RAM. */
    ghost predicate Valid()
      reads tlb
    {
      Shape() && forall k | 0 <= k < TLB_SIZE && tlb[k].valid :: tlb[k].pteAddr + 8 <= RAM_SIZE
    }

    ghost function Snapshot(): Machine
      requires Shape()
      reads this, regs, csrs, tlb, mem
    {
      Machine(regs[..], pc, csrs[..], tlb[..], mem[..], halted, Mode(userMode, prevUser, intEnabled, epc),
              Timer(interval, counter, pending), out)
    }

    constructor ()
      ensures Valid() && Bisim.Fresh(Snapshot()) && fresh(regs) && fresh(csrs) && fresh(tlb) && fresh(mem)
      ensures forall a | 0 <= a < RAM_SIZE :: mem[a] == 0
    {
      regs := new Word[16](i => if i == 15 then RAM_SIZE else 0);
      csrs := new Word[256](_ => 0);
      tlb := new TlbEntry[TLB_SIZE](_ => EMPTY_ENTRY);
      mem := new u8[RAM_SIZE](_ => 0);
      pc, epc := 0x40_0000, 0;
      halted, userMode, prevUser := false, false, false;
      interval, counter, pending, intEnabled := 0, 0, false, true;
      out := [];
    }

    method FlushTlb()
      requires Valid()
      modifies tlb
      ensures Valid() && Snapshot() == Cpu.FlushTlb(old(Snapshot()))
    {
      var k := 0;
      while k < TLB_SIZE
        invariant 0 <= k <= TLB_SIZE
        invariant forall j | 0 <= j < k :: tlb[j] == EMPTY_ENTRY
      {
        tlb[k] := EMPTY_ENTRY;
        k := k + 1;
      }
      assert tlb[..] == seq(TLB_SIZE, _ => EMPTY_ENTRY);
    }

    method ReadWord(a: nat) returns (w: Word)
      requires Shape() && a + 8 <= RAM_SIZE
      ensures w == Read64(mem[..], a)
    {
      ghost var m := mem[..];
      LeWordBound(m[a..a + 8]);
      Pow256Eight();
      w := LeWord(mem[a..a + 8]);
      assert m[a..a + 8] == mem[a..a + 8];
    }

    method WriteWord(a: nat, w: Word)
      requires Shape() && a + 8 <= RAM_SIZE
      modifies mem
      ensures mem[..] == Write64(old(mem[..]), a, w)
    {
      var b := LeBytes(w, 8);
      forall i | 0 <= i < 8 {
        mem[a + i] := b[i];
      }
    }

    /** Set A, and D for a store, in the leaf entry at a. */
    method MarkLeaf(a: nat, access: Access)
      requires Shape() && a + 8 <= RAM_SIZE
      modifies mem
      ensures mem[..] == Marked(old(mem[..]), a, access)
    {
      var pte := ReadWord(a);
      var marked := OrA(pte);
      if access == Store {
        marked := OrD(marked);
      }
      if marked != pte {
        WriteWord(a, marked);
      }
    }

    /** The walk of `translate`, one level at a time. */
    method WalkTables(va: Word) returns (l: Leaf)
      requires Valid()
      ensures l == WalkOf(Snapshot(), va)
      ensures l.Leaf? ==> l.addr + 8 <= RAM_SIZE
    {
      hide Ix, Ppn, PteP, Read64;
      var table: nat := csrs[CSR_PTBR] / 4096 * 4096;
      var level := 3;
      while true
        invariant 0 <= level < 4
        invariant Walk(mem[..], table, va, level) == WalkOf(Snapshot(), va)
        decreases level
      {
        var a := table + Ix(va, level) * 8;
        if a + 8 > RAM_SIZE {
          return NoPage;
        }
        var pte := ReadWord(a);
        if !PteP(pte) {
          return NoPage;
        }
        if level == 0 {
          return Leaf(a, pte);
        }
        table := Ppn(pte) * 4096;
        level := level - 1;
      }
    }

    /** `translate`: the TLB first, then the walk. */
    method Translate(va: Word, access: Access) returns (r: Reply)
      requires Valid()
      modifies tlb, mem
      ensures Valid() && Tr(r, Snapshot()) == Mik64Mmu.Translate(old(Snapshot()), va, access, true)
    {
      hide WalkOf, Ppn, PteW, PteU, PteNx, Marked, TlbIx;
      if csrs[CSR_PMODE] == 0 {
        return Pa(va);
      }
      if va / 0x1_0000_0000_0000 != 0 {
        return Fault(4);
      }
      var slot := TlbIx(va);
      var e := tlb[slot];
      if e.valid && e.vpn == va / 4096 {
        if userMode && !e.user {
          return Fault(5);
        }
        if access == Store && !e.writable {
          return Fault(2);
        }
        if access == Fetch && e.nx {
          return Fault(3);
        }
        MarkLeaf(e.pteAddr, access);
        return Pa(e.ppn * 4096 + va % 4096);
      }
      var l := WalkTables(va);
      if l.NoPage? {
        return Fault(1);
      }
      if userMode && !PteU(l.pte) {
        return Fault(5);
      }
      if access == Store && !PteW(l.pte) {
        return Fault(2);
      }
      if access == Fetch && PteNx(l.pte) {
        return Fault(3);
      }
      MarkLeaf(l.addr, access);
      tlb[slot] := EntryFor(va, l.addr, l.pte);
      return Pa(Ppn(l.pte) * 4096 + va % 4096);
    }

    // ---- Traps ------------------------------------------------------------------------

    method SetReg(r: nat, w: Word)
      requires Valid() && r < 16
      modifies regs
      ensures Valid() && Snapshot() == Cpu.SetReg(old(Snapshot()), r, w)
    {
      regs[r] := w;
    }

    /** Save the return pc, mask interrupts, enter supervisor mode and jump through `vector`. */
    method Enter(returnPc: Word, vector: nat)
      requires Valid() && vector + 8 <= RAM_SIZE
      modifies this
      ensures Valid() && Snapshot() == Cpu.Enter(old(Snapshot()), returnPc, vector)
    {
      epc := returnPc;
      intEnabled := false;
      prevUser := userMode;
      userMode := false;
      var handler := ReadWord(vector);
      pc := handler;
    }

    /** TRAP and INT: the number in x10, the return address after the instruction. */
    method Trap(number: int, vector: nat)
      requires Valid() && vector + 8 <= RAM_SIZE
      modifies this, regs
      ensures Valid()
      ensures Snapshot() == Cpu.Enter(Cpu.SetReg(old(Snapshot()), 10, Cpu.Wrap(number)), old(pc), vector)
    {
      hide Read64;
      SetReg(10, Cpu.Wrap(number));
      Enter(pc, vector);
    }

    /** ERET and IRET. */
    method Return()
      requires Valid()
      modifies this
      ensures Valid() && Snapshot() == Cpu.Return(old(Snapshot()))
    {
      pc := epc;
      intEnabled := true;
      userMode := prevUser;
    }

    /** SRET. */
    method EnterUser(target: Word)
      requires Valid()
      modifies this
      ensures Valid() && Snapshot() == Cpu.EnterUser(old(Snapshot()), target)
    {
      pc := target;
      intEnabled := true;
      prevUser := userMode;
      userMode := true;
    }

    method DeliverPageFault(faultingPc: Word, code: nat, va: Word)
      requires Valid() && code < 6
      modifies this, regs
      ensures Valid() && Snapshot() == Cpu.DeliverFault(old(Snapshot()), faultingPc, code, va)
    {
      hide Read64;
      SetReg(10, code);
      SetReg(11, va);
      Enter(faultingPc, Cpu.FAULT_VECTOR);
      SetReg(0, 0);
    }

    // ---- Instructions -------------------------------------------------------------------

    method ExecLoad(base: Word, rd: nat, va: Word, wide: bool) returns (e: Ending)
      requires Valid() && rd < 16
      modifies this, regs, tlb, mem
      ensures Valid() && Ends(e, Cpu.ExecLoad(old(Snapshot()), base, rd, va, wide, true))
    {
      hide Mik64Mmu.Translate, Read64, Cpu.DeliverFault, Cpu.SetReg;
      var r := Translate(va, Load);
      if r.Fault? {
        DeliverPageFault(base, Cpu.CodeOf(r), va);
        return FaultTaken;
      }
      if wide {
        if r.pa + 8 > RAM_SIZE {
          return Error;
        }
        var w := ReadWord(r.pa);
        SetReg(rd, w);
      } else if r.pa == Cpu.SERIAL_DATA {
        SetReg(rd, 0);
      } else if r.pa == Cpu.SERIAL_STATUS {
        SetReg(rd, 0xFF);
      } else if r.pa < RAM_SIZE {
        SetReg(rd, mem[r.pa]);
      } else {
        return Error;
      }
      return Completed;
    }

    method ExecStore(base: Word, va: Word, w: Word, wide: bool) returns (e: Ending)
      requires Valid()
      modifies this, regs, tlb, mem
      ensures Valid() && Ends(e, Cpu.ExecStore(old(Snapshot()), base, va, w, wide, true))
    {
      hide Mik64Mmu.Translate, Read64, Write64, Cpu.DeliverFault;
      var r := Translate(va, Store);
      if r.Fault? {
        DeliverPageFault(base, Cpu.CodeOf(r), va);
        return FaultTaken;
      }
      if wide {
        if r.pa + 8 > RAM_SIZE {
          return Error;
        }
        WriteWord(r.pa, w);
      } else if r.pa == Cpu.SERIAL_DATA {
        out := out + [w % 256];
      } else if r.pa == Cpu.SERIAL_STATUS {
      } else if r.pa < RAM_SIZE {
        mem[r.pa] := w % 256;
      } else {
        return Error;
      }
      return Completed;
    }

    /** The object ended up where the function says. */
    ghost predicate Ends(e: Ending, d: Cpu.Done)
      requires Shape()
      reads this, regs, csrs, tlb, mem
    {
      match e
      case Completed => d == Cpu.Next(Snapshot())
      case FaultTaken => d == Cpu.Faulted(Snapshot())
      case Error => d.Crash?
    }

    method ReadCsr(csr: nat) returns (w: Word)
      requires Valid() && csr < 256
      ensures w == Cpu.ReadCsr(Snapshot(), csr)
    {
      w := if csr == CSR_TIMER then counter else if csr == CSR_EPC then epc else csrs[csr];
    }

    method WriteCsr(csr: nat, value: Word)
      requires Valid() && csr < 256
      modifies this, csrs, tlb
      ensures Valid() && Snapshot() == Cpu.WriteCsr(old(Snapshot()), csr, value)
    {
      hide Cpu.FlushTlb;
      csrs[csr] := value;
      if csr == CSR_TIMER {
        interval := value;
        counter := value;
      }
      if csr == CSR_PTBR || csr == CSR_PMODE {
        FlushTlb();
      }
    }

    /** The opcodes from TRAP up: control transfers through registers and CSRs. */
    method ExecuteSystem(opcode: nat, rd: nat, rs1: nat, imm: int, ghost base: Word, ghost rs2: nat) returns (e: Ending)
      requires Valid() && opcode >= Cpu.TRAP && rd < 16 && rs1 < 16 && rs2 < 16
      modifies this, regs, csrs, tlb, mem
      ensures Valid() && Ends(e, Cpu.ExecOp(old(Snapshot()), base, opcode, rd, rs1, rs2, imm, true))
    {
      hide Cpu.WriteCsr, Read64, Cpu.FlushTlb, Cpu.Wrap, Cpu.SetReg, Cpu.Enter, Cpu.Return, Cpu.EnterUser, Cpu.ReadCsr;
      var a := regs[rs1];
      e := Completed;
      match opcode {
        case 0x0E => Trap(imm, Cpu.TRAP_VECTOR);
        case 0x0F => pc := a;
        case 0x10 => Return();
        case 0x11 =>
          var value := ReadCsr(Cpu.Wrap(imm) % 256);
          SetReg(rd, value);
        case 0x12 => WriteCsr(Cpu.Wrap(imm) % 256, a);
        case 0x13 => FlushTlb();
        case 0x14 => EnterUser(a);
        case 0x15 => Trap(imm, Cpu.INT_VECTOR);
        case 0x16 => Return();
        case _ => e := Error;
      }
    }

    /** The match over opcodes: pc has been advanced past the instruction at base. */
    method Execute(base: Word, word: Word) returns (e: Ending)
      requires Valid()
      modifies this, regs, csrs, tlb, mem
      ensures Valid() && Ends(e, Cpu.Exec(old(Snapshot()), base, word, true))
    {
      hide Cpu.ExecLoad, Cpu.ExecStore, Cpu.WriteCsr, Cpu.Opcode, Cpu.Rd, Cpu.Rs1, Cpu.Rs2, Cpu.Imm, Cpu.AndWord,
        Cpu.OrWord, Read64, Cpu.FlushTlb, Cpu.Wrap, Cpu.SetReg, Cpu.Enter, Cpu.Return, Cpu.ReadCsr;
      var rd, rs1, rs2, imm := Cpu.Rd(word), Cpu.Rs1(word), Cpu.Rs2(word), Cpu.Imm(word);
      var a, b := regs[rs1], regs[rs2];
      var va := Cpu.Wrap(a + imm);
      e := Completed;
      match Cpu.Opcode(word) {
        case 0x00 => halted := true;
        case 0x01 => SetReg(rd, Cpu.Wrap(imm));
        case 0x02 => SetReg(rd, Cpu.Wrap(a + b));
        case 0x03 => SetReg(rd, va);
        case 0x04 => SetReg(rd, Cpu.Wrap(a - b));
        case 0x05 => SetReg(rd, Cpu.AndWord(a, b));
        case 0x06 => SetReg(rd, Cpu.OrWord(a, b));
        case 0x07 => e := ExecLoad(base, rd, va, false);
        case 0x08 => e := ExecLoad(base, rd, va, true);
        case 0x09 => e := ExecStore(base, va, b, false);
        case 0x0A => e := ExecStore(base, va, b, true);
        case 0x0B => if a == b { pc := Cpu.Wrap(base + imm * 8); }
        case 0x0C => if a != b { pc := Cpu.Wrap(base + imm * 8); }
        case 0x0D => pc := Cpu.Wrap(base + imm * 8);
        case _ => e := ExecuteSystem(Cpu.Opcode(word), rd, rs1, imm, base, rs2);
      }
    }

    /** `step`: false is the error return, after which the machine is not used. */
    method Step() returns (ok: bool)
      requires Valid()
      modifies this, regs, csrs, tlb, mem
      ensures Valid() && Cpu.Step(old(Snapshot()), true) == if ok then Cpu.Ok(Snapshot()) else Cpu.Err
    {
      hide Mik64Mmu.Translate, Read64, Cpu.DeliverFault, Cpu.Exec, Cpu.Enter;
      if pending && intEnabled {
        pending := false;
        Enter(pc, Cpu.INT_VECTOR);
        return true;
      }
      var base := pc;
      var r := Translate(base, Fetch);
      if r.Fault? {
        DeliverPageFault(base, Cpu.CodeOf(r), base);
        return true;
      }
      if r.pa + 8 > RAM_SIZE || r.pa % 8 != 0 {
        return false;
      }
      var word := ReadWord(r.pa);
      pc := Cpu.Wrap(base as int + 8);
      var e := Execute(base, word);
      if e != Completed {
        return e == FaultTaken;
      }
      Retire();
      return true;
    }

    /** Clear x0 and advance the timer. */
    method Retire()
      requires Valid()
      modifies this, regs
      ensures Valid() && Snapshot() == Cpu.Retire(old(Snapshot()))
    {
      SetReg(0, 0);
      if !halted && interval > 0 {
        if counter <= 1 {
          pending := true;
          counter := interval;
        } else {
          counter := counter - 1;
        }
      }
    }

    /** At most n steps of the run loop. */
    method Run(n: nat) returns (ok: bool)
      requires Valid()
      modifies this, regs, csrs, tlb, mem
      ensures Valid() && Cpu.Run(old(Snapshot()), n, true) == if ok then Cpu.Ok(Snapshot()) else Cpu.Err
    {
      hide Cpu.Step;
      var k := n;
      while k > 0 && !halted
        invariant Valid() && Cpu.Run(Snapshot(), k, true) == Cpu.Run(old(Snapshot()), n, true)
        decreases k
      {
        ok := Step();
        if !ok {
          return;
        }
        k := k - 1;
      }
      return true;
    }
  }
}
