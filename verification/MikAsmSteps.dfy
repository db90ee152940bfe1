// What each mnemonic does: an item assembled, loaded, fetched and stepped, from
// the line as written to the state of the machine after it.

module MikAsmSteps {
  import opened Options
  import opened Bits
  import opened Bytes
  import opened Mik64Mmu
  import opened Mik64Cpu
  import opened Mik64Encoding
  import opened LoadedCode
  import opened MikAsm

  /** The machine is about to execute `op args`, item k of an assembled image, on a word boundary. */
  ghost predicate About(m: Machine, lines: seq<Line>, base: nat, image: seq<u8>, k: nat, cached: bool, op: string, args: seq<string>) {
    AtItem(m, lines, base, image, k, cached) && FirstPass(lines).items[k] == Ins(op, args) && m.pc % 8 == 0
  }

  /** What the fetch leaves: the machine with A marked on the code's page, and the TLB filled. */
  function Fetch(m: Machine, cached: bool): Machine { Fetched(m, cached).m }

  /** The register a token names; what it says when it names none does not matter. */
  function Reg(tok: string): (r: nat)
    ensures r < 16
  {
    if ParseRegister(tok).Some? then ParseRegister(tok).value else 0
  }

  /** The number a token stands for. */
  function Num(tok: string): int { if ParseNumber(tok).Some? then ParseNumber(tok).value else 0 }

  /** A 44-bit field read back as a signed number. */
  function Signed44(v: int): int { (v + 0x800_0000_0000) % 0x1000_0000_0000 - 0x800_0000_0000 }

  /** base + offset, on 64 bits. */
  function Sum(a: Word, b: int): Word { (a + b) % 0x1_0000_0000_0000_0000 }

  /** After an instruction completes: x0 cleared, and the interval timer, if set, one instruction on. */
  function Done1(m: Machine): Machine {
    var z := m.(regs := m.regs[0 := 0]);
    if m.halted || m.timer.interval == 0 then z
    else if m.timer.counter <= 1 then z.(timer := Timer(m.timer.interval, m.timer.interval, true))
    else z.(timer := m.timer.(counter := m.timer.counter - 1))
  }

  /** rd := v, and on to the next word. */
  function Put(m: Machine, cached: bool, rd: nat, v: Word): Machine
    requires rd < 16
  {
    Fetch(m, cached).(pc := Sum(m.pc, 8), regs := m.regs[rd := v])
  }

  /** The instruction completed: rd holds v, pc is at the next word. */
  ghost predicate Leaves(m: Machine, cached: bool, rd: nat, v: Word) {
    rd < 16 && Step(m, cached) == Ok(Done1(Put(m, cached, rd, v)))
  }

  // ---- From the line to the operation -----------------------------------------------------------

  /** What the step executes: the parsed operands of the item. */
  lemma ItemDoes(m: Machine, lines: seq<Line>, base: nat, image: seq<u8>, k: nat, cached: bool, op: string, args: seq<string>)
    requires About(m, lines, base, image, k, cached, op, args)
    ensures var o := Operands(op, args, LabelAddrs(FirstPass(lines), base), m.pc);
      && o.Some? && o.value.rd.Some? && o.value.rs1.Some? && o.value.rs2.Some? && o.value.imm.Some?
      && o.value.rd.value < 16 && o.value.rs1.value < 16 && o.value.rs2.value < 16 && Fetch(m, cached).regs == m.regs
      && Step(m, cached) == Finish(ExecOp(Fetch(m, cached).(pc := Sum(m.pc, 8)), m.pc, o.value.opcode, o.value.rd.value,
                                          o.value.rs1.value, o.value.rs2.value, Signed44(o.value.imm.value), cached))
  {
    hide Operands, InPlace, Fetched, Step, ExecOp, Finish, LabelAddrs, FirstPass, Size, Assembled, Opcode, Rd, Rs1, Rs2, Imm, Sext44,
      Imm44, LeBytes, Interrupted, Encode, Signed44;
    var labels := LabelAddrs(FirstPass(lines), base);
    ItemWord(lines, base, image, k);
    var w := EncodeInstruction(op, args, labels, m.pc).value;
    EncodedIsLegal(op, args, labels, m.pc);
    StepsWord(m, image, base, w, cached);
    SignedIs(Operands(op, args, labels, m.pc).value.imm.value);
  }

  lemma SignedIs(v: int)
    ensures Sext44(Imm44(v)) == Signed44(v)
  {}

  /** A completed operation ends in Done1. */
  lemma RetireIs(m: Machine)
    ensures Retire(m) == Done1(m)
  {}

  // ---- Arithmetic -----------------------------------------------------------------------------------

  /** `add rd, a, b`: the sum, on 64 bits. */
  lemma AddStep(m: Machine, lines: seq<Line>, base: nat, image: seq<u8>, k: nat, cached: bool, args: seq<string>)
    requires About(m, lines, base, image, k, cached, "add", args) && |args| == 3
    ensures Leaves(m, cached, Reg(args[0]), Sum(m.regs[Reg(args[1])], m.regs[Reg(args[2])]))
  {
    hide About, ParseRegister, ParseValue, ParseNumber, ParseJumpTarget, Fetched, Step, Retire, LabelAddrs, FirstPass, Signed44;
    ItemDoes(m, lines, base, image, k, cached, "add", args);
    RetireIs(Put(m, cached, Reg(args[0]), Sum(m.regs[Reg(args[1])], m.regs[Reg(args[2])])));
  }

  /** `sub rd, a, b`: a less b, on 64 bits. */
  lemma SubStep(m: Machine, lines: seq<Line>, base: nat, image: seq<u8>, k: nat, cached: bool, args: seq<string>)
    requires About(m, lines, base, image, k, cached, "sub", args) && |args| == 3
    ensures Leaves(m, cached, Reg(args[0]), Sum(m.regs[Reg(args[1])], -(m.regs[Reg(args[2])] as int)))
  {
    hide About, ParseRegister, ParseValue, ParseNumber, ParseJumpTarget, Fetched, Step, Retire, LabelAddrs, FirstPass, Signed44;
    ItemDoes(m, lines, base, image, k, cached, "sub", args);
    RetireIs(Put(m, cached, Reg(args[0]), Sum(m.regs[Reg(args[1])], -(m.regs[Reg(args[2])] as int))));
  }

  /** `addi rd, a, n`: the sum with a signed 44-bit number. */
  lemma AddiStep(m: Machine, lines: seq<Line>, base: nat, image: seq<u8>, k: nat, cached: bool, args: seq<string>)
    requires About(m, lines, base, image, k, cached, "addi", args) && |args| == 3
    ensures ParseValue(args[2], map[], 0).Some?
    ensures Leaves(m, cached, Reg(args[0]), Sum(m.regs[Reg(args[1])], Signed44(ParseValue(args[2], map[], 0).value)))
  {
    hide About, ParseRegister, ParseValue, ParseNumber, ParseJumpTarget, Fetched, Step, Retire, LabelAddrs, FirstPass, Signed44;
    ItemDoes(m, lines, base, image, k, cached, "addi", args);
    RetireIs(Put(m, cached, Reg(args[0]), Sum(m.regs[Reg(args[1])], Signed44(ParseValue(args[2], map[], 0).value))));
  }

  /** Bit i of a number. */
  predicate Bit(a: nat, i: nat) { if i == 0 then a % 2 == 1 else Bit(a / 2, i - 1) }

  lemma {:induction false} ZeroBit(i: nat)
    ensures !Bit(0, i)
  {
    if i > 0 {
      ZeroBit(i - 1);
    }
  }

  lemma {:induction false} AndBit(a: nat, b: nat, i: nat)
    ensures Bit(And(a, b), i) <==> Bit(a, i) && Bit(b, i)
    decreases i
  {
    if a == 0 || b == 0 {
      ZeroBit(i);
    } else {
      AndHalves(a, b);
      if i > 0 {
        AndBit(a / 2, b / 2, i - 1);
      }
    }
  }

  lemma AndHalves(a: nat, b: nat)
    requires a != 0 && b != 0
    ensures And(a, b) / 2 == And(a / 2, b / 2) && (And(a, b) % 2 == 1 <==> a % 2 == 1 && b % 2 == 1)
  {
    var h := And(a / 2, b / 2);
    assert And(a, b) == (if a % 2 == 1 && b % 2 == 1 then 1 else 0) + 2 * h;
  }

  /** v has exactly the bits both of a and b have, or the bits either has. */
  ghost predicate BitsOfBoth(v: nat, a: nat, b: nat) { forall i: nat :: Bit(v, i) <==> Bit(a, i) && Bit(b, i) }
  ghost predicate BitsOfEither(v: nat, a: nat, b: nat) { forall i: nat :: Bit(v, i) <==> Bit(a, i) || Bit(b, i) }

  lemma {:induction false} OrBit(a: nat, b: nat, i: nat)
    ensures Bit(Or(a, b), i) <==> Bit(a, i) || Bit(b, i)
    decreases i
  {
    if a == 0 || b == 0 {
      ZeroBit(i);
    } else {
      OrHalves(a, b);
      if i > 0 {
        OrBit(a / 2, b / 2, i - 1);
      }
    }
  }

  lemma OrHalves(a: nat, b: nat)
    requires a != 0 && b != 0
    ensures Or(a, b) / 2 == Or(a / 2, b / 2) && (Or(a, b) % 2 == 1 <==> a % 2 == 1 || b % 2 == 1)
  {
    var h := Or(a / 2, b / 2);
    assert Or(a, b) == (if a % 2 == 1 || b % 2 == 1 then 1 else 0) + 2 * h;
  }

  /** `and rd, a, b`: a word with exactly the bits both have. */
  lemma AndStep(m: Machine, lines: seq<Line>, base: nat, image: seq<u8>, k: nat, cached: bool, args: seq<string>)
    requires About(m, lines, base, image, k, cached, "and", args) && |args| == 3
    ensures exists v: Word :: Leaves(m, cached, Reg(args[0]), v) && BitsOfBoth(v, m.regs[Reg(args[1])], m.regs[Reg(args[2])])
  {
    hide About, ParseRegister, ParseValue, ParseNumber, ParseJumpTarget, Fetched, Step, Retire, LabelAddrs, FirstPass, Signed44, And, Bit;
    ItemDoes(m, lines, base, image, k, cached, "and", args);
    var a, b := m.regs[Reg(args[1])], m.regs[Reg(args[2])];
    var v := AndWord(a, b);
    RetireIs(Put(m, cached, Reg(args[0]), v));
    assert Leaves(m, cached, Reg(args[0]), v);
    forall i: nat ensures Bit(v, i) <==> Bit(a, i) && Bit(b, i) {
      AndBit(a, b, i);
    }
  }

  /** `or rd, a, b`: a word with exactly the bits either has. */
  lemma OrStep(m: Machine, lines: seq<Line>, base: nat, image: seq<u8>, k: nat, cached: bool, args: seq<string>)
    requires About(m, lines, base, image, k, cached, "or", args) && |args| == 3
    ensures exists v: Word :: Leaves(m, cached, Reg(args[0]), v) && BitsOfEither(v, m.regs[Reg(args[1])], m.regs[Reg(args[2])])
  {
    hide About, ParseRegister, ParseValue, ParseNumber, ParseJumpTarget, Fetched, Step, Retire, LabelAddrs, FirstPass, Signed44, Or, Bit;
    ItemDoes(m, lines, base, image, k, cached, "or", args);
    var a, b := m.regs[Reg(args[1])], m.regs[Reg(args[2])];
    var v := OrWord(a, b);
    RetireIs(Put(m, cached, Reg(args[0]), v));
    assert Leaves(m, cached, Reg(args[0]), v);
    forall i: nat ensures Bit(v, i) <==> Bit(a, i) || Bit(b, i) {
      OrBit(a, b, i);
    }
  }

  /** `li rd, n` of a number: the signed 44-bit number, on 64 bits. */
  lemma LiStep(m: Machine, lines: seq<Line>, base: nat, image: seq<u8>, k: nat, cached: bool, args: seq<string>)
    requires About(m, lines, base, image, k, cached, "li", args) && |args| == 2
    ensures args[1] !in FirstPass(lines).labels && ParseNumber(args[1]).Some? ==>
      Leaves(m, cached, Reg(args[0]), Sum(0, Signed44(Num(args[1]))))
  {
    hide About, ParseRegister, ParseValue, ParseNumber, ParseJumpTarget, Fetched, Step, Retire, LabelAddrs, FirstPass, Signed44;
    ItemDoes(m, lines, base, image, k, cached, "li", args);
    NoLabel(lines, base, args[1], m.pc);
    RetireIs(Put(m, cached, Reg(args[0]), Sum(0, Signed44(Num(args[1])))));
  }

  lemma NoLabel(lines: seq<Line>, base: nat, tok: string, pc: nat)
    ensures tok !in FirstPass(lines).labels && ParseNumber(tok).Some? ==>
      ParseValue(tok, LabelAddrs(FirstPass(lines), base), pc) == Some(Num(tok))
  {
    hide ParseNumber;
  }

  /** The bits of a number determine it. */
  lemma {:induction false} BitsDetermine(v: nat, w: nat)
    requires forall i: nat :: Bit(v, i) <==> Bit(w, i)
    ensures v == w
    decreases v + w
  {
    assert Bit(v, 0) <==> Bit(w, 0);
    if v != 0 || w != 0 {
      forall i: nat ensures Bit(v / 2, i) <==> Bit(w / 2, i) {
        assert Bit(v, i + 1) <==> Bit(w, i + 1);
      }
      BitsDetermine(v / 2, w / 2);
    }
  }

  // ---- Memory ------------------------------------------------------------------------------------------

  /** A fault is delivered: its code in x10 and its address in x11, and supervisor mode with interrupts
      off at the handler whose address is at 0x2010; epc is the instruction that faulted. */
  function Delivered(m: Machine, epc: Word, code: Word, va: Word): Machine {
    m.(regs := m.regs[10 := code][11 := va][0 := 0], pc := Read64(m.mem, 0x2010), mode := Mode(false, m.mode.user, false, epc))
  }

  /** The data access of an instruction, after its fetch. */
  function Data(m: Machine, va: Word, access: Access, cached: bool): Tr {
    Translate(Fetch(m, cached).(pc := Sum(m.pc, 8)), va, access, cached)
  }

  /** The registers r, but for v in rd. */
  function WithReg(m: Machine, r: Regs16, rd: nat, v: Word): Machine
    requires rd < 16
  {
    m.(regs := r[rd := v])
  }

  lemma Codes(m: Machine, va: nat, access: Access, cached: bool)
    ensures var r := Translate(m, va, access, cached).reply; r.Fault? ==> 1 <= r.code <= 5
  {
    hide Walk, Marked, PteP, PteU, PteW, PteNx, Ppn, TlbIx, Read64;
  }

  /** Translation touches memory and TLB alone. */
  lemma DataKeeps(m: Machine, va: nat, access: Access, cached: bool)
    ensures var t := Translate(m, va, access, cached).m; t == m.(mem := t.mem, tlb := t.tlb)
  {
    hide Walk, Marked, PteP, PteU, PteW, PteNx, Ppn, TlbIx, Read64;
  }

  /** The address a, offset by the third operand. */
  function Offset(a: Word, tok: string): Word {
    var v := ParseValue(tok, map[], 0);
    if v.Some? then Sum(a, Signed44(v.value)) else a
  }

  /** `load64 rd, a, n`: the eight bytes at the address a + n. */
  lemma Load64Step(m: Machine, lines: seq<Line>, base: nat, image: seq<u8>, k: nat, cached: bool, args: seq<string>)
    requires About(m, lines, base, image, k, cached, "load64", args) && |args| == 3
    ensures var va := Offset(m.regs[Reg(args[1])], args[2]);
      var t, d := Data(m, va, Load, cached), Step(m, cached);
      if t.reply.Fault? then t.reply.code <= 5 && d == Ok(Delivered(t.m, m.pc, t.reply.code, va))
      else if t.reply.pa + 8 > 0x800_0000 then d == Err
      else d == Ok(Done1(WithReg(t.m, m.regs, Reg(args[0]), Read64(t.m.mem, t.reply.pa))))
  {
    hide About, ParseRegister, ParseValue, ParseNumber, ParseJumpTarget, Fetched, Step, Retire, LabelAddrs, FirstPass, Signed44, Translate, Read64, Write64, Done1;
    ItemDoes(m, lines, base, image, k, cached, "load64", args);
    var va := Offset(m.regs[Reg(args[1])], args[2]);
    var f := Fetch(m, cached).(pc := Sum(m.pc, 8));
    Codes(f, va, Load, cached);
    DataKeeps(f, va, Load, cached);
    var t := Data(m, va, Load, cached);
    if t.reply.Pa? && t.reply.pa + 8 <= 0x800_0000 {
      RetireIs(WithReg(t.m, m.regs, Reg(args[0]), Read64(t.m.mem, t.reply.pa)));
    }
  }

  /** `load8 rd, a, n`: the byte at the address a + n; the serial port reads 0 and its status 0xFF. */
  lemma Load8Step(m: Machine, lines: seq<Line>, base: nat, image: seq<u8>, k: nat, cached: bool, args: seq<string>)
    requires About(m, lines, base, image, k, cached, "load8", args) && |args| == 3
    ensures var va := Offset(m.regs[Reg(args[1])], args[2]);
      var t, d := Data(m, va, Load, cached), Step(m, cached);
      if t.reply.Fault? then t.reply.code <= 5 && d == Ok(Delivered(t.m, m.pc, t.reply.code, va))
      else if t.reply.pa >= 0x800_0000 then d == Err
      else
        var v := if t.reply.pa == 0x1000 then 0 else if t.reply.pa == 0x1001 then 0xFF else t.m.mem[t.reply.pa] as int;
        d == Ok(Done1(WithReg(t.m, m.regs, Reg(args[0]), v)))
  {
    hide About, ParseRegister, ParseValue, ParseNumber, ParseJumpTarget, Fetched, Step, Retire, LabelAddrs, FirstPass, Signed44, Translate, Read64, Write64, Done1;
    ItemDoes(m, lines, base, image, k, cached, "load8", args);
    var va := Offset(m.regs[Reg(args[1])], args[2]);
    var f := Fetch(m, cached).(pc := Sum(m.pc, 8));
    Codes(f, va, Load, cached);
    DataKeeps(f, va, Load, cached);
    var t := Data(m, va, Load, cached);
    if t.reply.Pa? && t.reply.pa < 0x800_0000 {
      var v: Word := if t.reply.pa == 0x1000 then 0 else if t.reply.pa == 0x1001 then 0xFF else t.m.mem[t.reply.pa] as int;
      RetireIs(WithReg(t.m, m.regs, Reg(args[0]), v));
    }
  }

  /** The eight bytes at pa are w, every other byte is as it was. */
  ghost predicate WordStored(mem: Ram8, mem': Ram8, pa: nat, w: Word)
    requires pa + 8 <= RAM_SIZE
  {
    Read64(mem', pa) == w && forall b: nat | b < RAM_SIZE && !(pa <= b < pa + 8) :: mem'[b] == mem[b]
  }

  lemma Write64Stores(mem: Ram8, pa: nat, w: Word)
    requires pa + 8 <= RAM_SIZE
    ensures WordStored(mem, Write64(mem, pa, w), pa, w)
  {
    ReadBack(mem, pa, w);
    hide Read64;
  }

  /** `store64 a, rs, n`: the register's eight bytes at the address a + n. */
  lemma Store64Step(m: Machine, lines: seq<Line>, base: nat, image: seq<u8>, k: nat, cached: bool, args: seq<string>)
    requires About(m, lines, base, image, k, cached, "store64", args) && |args| == 3
    ensures var va := Offset(m.regs[Reg(args[0])], args[2]);
      var t, d := Data(m, va, Store, cached), Step(m, cached);
      if t.reply.Fault? then t.reply.code <= 5 && d == Ok(Delivered(t.m, m.pc, t.reply.code, va))
      else if t.reply.pa + 8 > 0x800_0000 then d == Err
      else d.Ok? && d.m == Done1(t.m.(mem := d.m.mem)) && WordStored(t.m.mem, d.m.mem, t.reply.pa, m.regs[Reg(args[1])])
  {
    hide About, ParseRegister, ParseValue, ParseNumber, ParseJumpTarget, Fetched, Step, Retire, LabelAddrs, FirstPass, Signed44, Translate, Read64, Write64, Done1, WordStored;
    ItemDoes(m, lines, base, image, k, cached, "store64", args);
    var va := Offset(m.regs[Reg(args[0])], args[2]);
    var f := Fetch(m, cached).(pc := Sum(m.pc, 8));
    Codes(f, va, Store, cached);
    DataKeeps(f, va, Store, cached);
    var t := Data(m, va, Store, cached);
    if t.reply.Pa? && t.reply.pa + 8 <= 0x800_0000 {
      var u := t.m.(mem := Write64(t.m.mem, t.reply.pa, m.regs[Reg(args[1])]));
      Write64Stores(t.m.mem, t.reply.pa, m.regs[Reg(args[1])]);
      RetireIs(u);
      DoneMem(u);
    }
  }

  /** `store8 a, rs, n`: the register's low byte at the address a + n, or out of the serial port. */
  lemma Store8Step(m: Machine, lines: seq<Line>, base: nat, image: seq<u8>, k: nat, cached: bool, args: seq<string>)
    requires About(m, lines, base, image, k, cached, "store8", args) && |args| == 3
    ensures var va := Offset(m.regs[Reg(args[0])], args[2]);
      var t, d := Data(m, va, Store, cached), Step(m, cached);
      if t.reply.Fault? then t.reply.code <= 5 && d == Ok(Delivered(t.m, m.pc, t.reply.code, va))
      else if t.reply.pa >= 0x800_0000 then d == Err
      else
        var b: u8 := m.regs[Reg(args[1])] % 256;
        d == Ok(Done1(if t.reply.pa == 0x1000 then t.m.(out := m.out + [b]) else if t.reply.pa == 0x1001 then t.m
                      else t.m.(mem := t.m.mem[t.reply.pa := b])))
  {
    hide About, ParseRegister, ParseValue, ParseNumber, ParseJumpTarget, Fetched, Step, Retire, LabelAddrs, FirstPass, Signed44, Translate, Read64, Write64, Done1;
    ItemDoes(m, lines, base, image, k, cached, "store8", args);
    var va := Offset(m.regs[Reg(args[0])], args[2]);
    var f := Fetch(m, cached).(pc := Sum(m.pc, 8));
    Codes(f, va, Store, cached);
    DataKeeps(f, va, Store, cached);
    var t := Data(m, va, Store, cached);
    if t.reply.Pa? && t.reply.pa < 0x800_0000 {
      var b: u8 := m.regs[Reg(args[1])] % 256;
      FetchKeeps(m, cached);
      RetireIs(if t.reply.pa == 0x1000 then t.m.(out := m.out + [b]) else if t.reply.pa == 0x1001 then t.m
               else t.m.(mem := t.m.mem[t.reply.pa := b]));
    }
  }

  lemma DoneMem(u: Machine)
    ensures Done1(u).mem == u.mem
  {}

  lemma FetchKeeps(m: Machine, cached: bool)
    ensures var f := Fetch(m, cached); f == m.(mem := f.mem, tlb := f.tlb)
  {
    hide Translate;
    DataKeeps(m, m.pc, Access.Fetch, cached);
  }

  // ---- Control --------------------------------------------------------------------------------------------

  /** `halt` stops the machine, behind the instruction. */
  lemma HaltStep(m: Machine, lines: seq<Line>, base: nat, image: seq<u8>, k: nat, cached: bool, args: seq<string>)
    requires About(m, lines, base, image, k, cached, "halt", args)
    ensures var f := Fetch(m, cached); Step(m, cached) == Ok(Done1(f.(pc := Sum(m.pc, 8), halted := true)))
  {
    hide About, ParseRegister, ParseValue, ParseNumber, ParseJumpTarget, Fetched, Step, Retire, LabelAddrs, FirstPass, Signed44, Translate, Read64, Done1, Fetch;
    ItemDoes(m, lines, base, image, k, cached, "halt", args);
    var f := Fetch(m, cached);
    FetchKeeps(m, cached);
    RetireIs(f.(pc := Sum(m.pc, 8), halted := true));
  }

  /** `trap n`: n in x10 and supervisor mode at the handler of 0x2000, to return behind the instruction. */
  lemma TrapStep(m: Machine, lines: seq<Line>, base: nat, image: seq<u8>, k: nat, cached: bool, args: seq<string>)
    requires About(m, lines, base, image, k, cached, "trap", args) && |args| == 1
    ensures var f := Fetch(m, cached); Step(m, cached) == Ok(Done1(f.(regs := m.regs[10 := Sum(0, Signed44(Num(args[0])))], pc := Read64(f.mem, 0x2000), mode := Mode(false, m.mode.user, false, Sum(m.pc, 8)))))
  {
    hide About, ParseRegister, ParseValue, ParseNumber, ParseJumpTarget, Fetched, Step, Retire, LabelAddrs, FirstPass, Signed44, Translate, Read64, Done1, Fetch;
    ItemDoes(m, lines, base, image, k, cached, "trap", args);
    var f := Fetch(m, cached);
    FetchKeeps(m, cached);
    RetireIs(f.(regs := m.regs[10 := Sum(0, Signed44(Num(args[0])))], pc := Read64(f.mem, 0x2000), mode := Mode(false, m.mode.user, false, Sum(m.pc, 8))));
  }

  /** `int n`: the same at the handler of 0x2020. */
  lemma IntStep(m: Machine, lines: seq<Line>, base: nat, image: seq<u8>, k: nat, cached: bool, args: seq<string>)
    requires About(m, lines, base, image, k, cached, "int", args) && |args| == 1
    ensures var f := Fetch(m, cached); Step(m, cached) == Ok(Done1(f.(regs := m.regs[10 := Sum(0, Signed44(Num(args[0])))], pc := Read64(f.mem, 0x2020), mode := Mode(false, m.mode.user, false, Sum(m.pc, 8)))))
  {
    hide About, ParseRegister, ParseValue, ParseNumber, ParseJumpTarget, Fetched, Step, Retire, LabelAddrs, FirstPass, Signed44, Translate, Read64, Done1, Fetch;
    ItemDoes(m, lines, base, image, k, cached, "int", args);
    var f := Fetch(m, cached);
    FetchKeeps(m, cached);
    RetireIs(f.(regs := m.regs[10 := Sum(0, Signed44(Num(args[0])))], pc := Read64(f.mem, 0x2020), mode := Mode(false, m.mode.user, false, Sum(m.pc, 8))));
  }

  /** `jmpr a` jumps to the address in a. */
  lemma JmprStep(m: Machine, lines: seq<Line>, base: nat, image: seq<u8>, k: nat, cached: bool, args: seq<string>)
    requires About(m, lines, base, image, k, cached, "jmpr", args) && |args| == 1
    ensures var f := Fetch(m, cached); Step(m, cached) == Ok(Done1(f.(pc := m.regs[Reg(args[0])])))
  {
    hide About, ParseRegister, ParseValue, ParseNumber, ParseJumpTarget, Fetched, Step, Retire, LabelAddrs, FirstPass, Signed44, Translate, Read64, Done1, Fetch;
    ItemDoes(m, lines, base, image, k, cached, "jmpr", args);
    var f := Fetch(m, cached);
    FetchKeeps(m, cached);
    RetireIs(f.(pc := m.regs[Reg(args[0])]));
  }

  /** `eret` returns to epc, in the mode before, with interrupts on. */
  lemma EretStep(m: Machine, lines: seq<Line>, base: nat, image: seq<u8>, k: nat, cached: bool, args: seq<string>)
    requires About(m, lines, base, image, k, cached, "eret", args)
    ensures var f := Fetch(m, cached); Step(m, cached) == Ok(Done1(f.(pc := m.mode.epc, mode := Mode(m.mode.prevUser, m.mode.prevUser, true, m.mode.epc))))
  {
    hide About, ParseRegister, ParseValue, ParseNumber, ParseJumpTarget, Fetched, Step, Retire, LabelAddrs, FirstPass, Signed44, Translate, Read64, Done1, Fetch;
    ItemDoes(m, lines, base, image, k, cached, "eret", args);
    var f := Fetch(m, cached);
    FetchKeeps(m, cached);
    RetireIs(f.(pc := m.mode.epc, mode := Mode(m.mode.prevUser, m.mode.prevUser, true, m.mode.epc)));
  }

  /** `iret` does the same. */
  lemma IretStep(m: Machine, lines: seq<Line>, base: nat, image: seq<u8>, k: nat, cached: bool, args: seq<string>)
    requires About(m, lines, base, image, k, cached, "iret", args)
    ensures var f := Fetch(m, cached); Step(m, cached) == Ok(Done1(f.(pc := m.mode.epc, mode := Mode(m.mode.prevUser, m.mode.prevUser, true, m.mode.epc))))
  {
    hide About, ParseRegister, ParseValue, ParseNumber, ParseJumpTarget, Fetched, Step, Retire, LabelAddrs, FirstPass, Signed44, Translate, Read64, Done1, Fetch;
    ItemDoes(m, lines, base, image, k, cached, "iret", args);
    var f := Fetch(m, cached);
    FetchKeeps(m, cached);
    RetireIs(f.(pc := m.mode.epc, mode := Mode(m.mode.prevUser, m.mode.prevUser, true, m.mode.epc)));
  }

  /** `sret a` jumps to the address in a in user mode, with interrupts on. */
  lemma SretStep(m: Machine, lines: seq<Line>, base: nat, image: seq<u8>, k: nat, cached: bool, args: seq<string>)
    requires About(m, lines, base, image, k, cached, "sret", args) && |args| == 1
    ensures var f := Fetch(m, cached); Step(m, cached) == Ok(Done1(f.(pc := m.regs[Reg(args[0])], mode := Mode(true, m.mode.user, true, m.mode.epc))))
  {
    hide About, ParseRegister, ParseValue, ParseNumber, ParseJumpTarget, Fetched, Step, Retire, LabelAddrs, FirstPass, Signed44, Translate, Read64, Done1, Fetch;
    ItemDoes(m, lines, base, image, k, cached, "sret", args);
    var f := Fetch(m, cached);
    FetchKeeps(m, cached);
    RetireIs(f.(pc := m.regs[Reg(args[0])], mode := Mode(true, m.mode.user, true, m.mode.epc)));
  }

  function NoEntries(): Tlb { seq(16, _ => TlbEntry(false, 0, 0, 0, false, false, false)) }

  /** `sfence` empties the TLB. */
  lemma SfenceStep(m: Machine, lines: seq<Line>, base: nat, image: seq<u8>, k: nat, cached: bool, args: seq<string>)
    requires About(m, lines, base, image, k, cached, "sfence", args)
    ensures var f := Fetch(m, cached); Step(m, cached) == Ok(Done1(f.(pc := Sum(m.pc, 8), tlb := NoEntries())))
  {
    hide About, ParseRegister, ParseValue, ParseNumber, ParseJumpTarget, Fetched, Step, Retire, LabelAddrs, FirstPass, Signed44, Translate, Read64, Done1, Fetch;
    ItemDoes(m, lines, base, image, k, cached, "sfence", args);
    var f := Fetch(m, cached);
    FetchKeeps(m, cached);
    RetireIs(f.(pc := Sum(m.pc, 8), tlb := NoEntries()));
  }

  /** `rdcsr rd, n`: CSR 2 reads the timer's counter, 3 epc, any other what was written. */
  lemma RdcsrStep(m: Machine, lines: seq<Line>, base: nat, image: seq<u8>, k: nat, cached: bool, args: seq<string>)
    requires About(m, lines, base, image, k, cached, "rdcsr", args) && |args| == 2
    ensures var c := Num(args[1]) % 256;
      Leaves(m, cached, Reg(args[0]), if c == 2 then m.timer.counter else if c == 3 then m.mode.epc else m.csrs[c])
  {
    hide About, ParseRegister, ParseValue, ParseNumber, ParseJumpTarget, Fetched, Step, Retire, LabelAddrs, FirstPass, Signed44, Translate, Read64, Done1, Fetch;
    ItemDoes(m, lines, base, image, k, cached, "rdcsr", args);
    var c := Num(args[1]) % 256;
    LowByte(Num(args[1]));
    FetchKeeps(m, cached);
    RetireIs(Put(m, cached, Reg(args[0]), if c == 2 then m.timer.counter else if c == 3 then m.mode.epc else m.csrs[c]));
  }

  /** `wrcsr a, n`: the CSR holds a; CSR 2 starts the timer at a, and CSR 0 or 1 empties the TLB. */
  lemma WrcsrStep(m: Machine, lines: seq<Line>, base: nat, image: seq<u8>, k: nat, cached: bool, args: seq<string>)
    requires About(m, lines, base, image, k, cached, "wrcsr", args) && |args| == 2
    ensures var c, a, f := Num(args[1]) % 256, m.regs[Reg(args[0])], Fetch(m, cached);
      Step(m, cached) == Ok(Done1(f.(pc := Sum(m.pc, 8), csrs := m.csrs[c := a], tlb := if c <= 1 then NoEntries() else f.tlb,
        timer := if c == 2 then Timer(a, a, m.timer.pending) else m.timer)))
  {
    hide About, ParseRegister, ParseValue, ParseNumber, ParseJumpTarget, Fetched, Step, Retire, LabelAddrs, FirstPass, Signed44, Translate, Read64, Done1, Fetch;
    ItemDoes(m, lines, base, image, k, cached, "wrcsr", args);
    var c, a, f := Num(args[1]) % 256, m.regs[Reg(args[0])], Fetch(m, cached);
    LowByte(Num(args[1]));
    FetchKeeps(m, cached);
    RetireIs(f.(pc := Sum(m.pc, 8), csrs := m.csrs[c := a], tlb := if c <= 1 then NoEntries() else f.tlb,
      timer := if c == 2 then Timer(a, a, m.timer.pending) else m.timer));
  }

  /** A CSR number is the low byte of the operand. */
  lemma LowByte(v: int)
    ensures Wrap(Signed44(v)) % 256 == v % 256
  {}

  // ---- When nothing is executed ---------------------------------------------------------------------------

  /** A pending interrupt with interrupts on goes to the handler of 0x2020 and is no longer pending; epc
      is the instruction not executed. */
  lemma InterruptStep(m: Machine, cached: bool)
    requires m.timer.pending && m.mode.intEnabled
    ensures Step(m, cached) == Ok(m.(timer := m.timer.(pending := false), mode := Mode(false, m.mode.user, false, m.pc),
                                     pc := Read64(m.mem, 0x2020)))
  {
    hide Fetched, Exec, Read64;
  }

  /** An instruction that cannot be fetched faults, as any other access does. */
  lemma FetchFaults(m: Machine, cached: bool)
    requires !(m.timer.pending && m.mode.intEnabled) && Fetched(m, cached).reply.Fault?
    ensures var code := Fetched(m, cached).reply.code;
      1 <= code <= 5 && Step(m, cached) == Ok(Delivered(Fetch(m, cached), m.pc, code, m.pc))
  {
    hide Exec, Read64, Translate;
    Codes(m, m.pc, Access.Fetch, cached);
    FetchKeeps(m, cached);
  }

  /** A fetch from beyond RAM or not on a word is an error of the emulator. */
  lemma FetchFails(m: Machine, cached: bool)
    requires !(m.timer.pending && m.mode.intEnabled) && Fetched(m, cached).reply.Pa?
    requires Fetched(m, cached).reply.pa + 8 > 0x800_0000 || Fetched(m, cached).reply.pa % 8 != 0
    ensures Step(m, cached) == Err
  {
    hide Exec, Read64, Translate;
  }

  /** So is a word with no operation's number in its top byte. */
  lemma IllegalFails(m: Machine, cached: bool)
    requires !(m.timer.pending && m.mode.intEnabled) && Fetched(m, cached).reply.Pa?
    requires var t := Fetched(m, cached); t.reply.pa + 8 <= 0x800_0000 && Read64(t.m.mem, t.reply.pa) >= 0x1700_0000_0000_0000
    ensures Step(m, cached) == Err
  {
    hide Read64, Translate, ExecLoad, ExecStore, Wrap, Sext44, AndWord, OrWord;
  }

  // ---- Branches ------------------------------------------------------------------------------------------

  /** The address a branch names: a label's, or a number. */
  function Target(lines: seq<Line>, base: nat, tok: string): Option<int> {
    var p := FirstPass(lines);
    if tok in p.labels then Some(LabelAddrs(p, base)[tok]) else ParseNumber(tok)
  }

  /** The distance to the target in words, as the instruction holds it. */
  function Hop(pc: nat, target: int): Word { Sum(0, pc + 8 * Signed44(TruncDiv8(target - pc))) }

  /** `jmp target`. */
  lemma JmpStep(m: Machine, lines: seq<Line>, base: nat, image: seq<u8>, k: nat, cached: bool, args: seq<string>)
    requires About(m, lines, base, image, k, cached, "jmp", args) && |args| == 1
    ensures Target(lines, base, args[0]).Some?
    ensures var f, target := Fetch(m, cached), Target(lines, base, args[0]).value;
      Step(m, cached) == Ok(Done1(f.(pc := Hop(m.pc, target))))
  {
    hide About, ParseRegister, ParseValue, ParseNumber, Fetched, Step, Retire, LabelAddrs, FirstPass, Signed44, Addr, Translate, Read64, Done1, Fetch;
    ItemDoes(m, lines, base, image, k, cached, "jmp", args);
    TargetIs(lines, base, args[0], m.pc);
    var f, target := Fetch(m, cached), Target(lines, base, args[0]).value;
    FetchKeeps(m, cached);
    HopIs(m.pc, target);
    RetireIs(f.(pc := Hop(m.pc, target)));
  }

  /** `beq a, b, target` goes there if a and b hold the same, and on if not. */
  lemma BeqStep(m: Machine, lines: seq<Line>, base: nat, image: seq<u8>, k: nat, cached: bool, args: seq<string>)
    requires About(m, lines, base, image, k, cached, "beq", args) && |args| == 3
    ensures Target(lines, base, args[2]).Some?
    ensures var f, target := Fetch(m, cached), Target(lines, base, args[2]).value;
      Step(m, cached) == Ok(Done1(f.(pc := if m.regs[Reg(args[0])] == m.regs[Reg(args[1])] then Hop(m.pc, target) else Sum(m.pc, 8))))
  {
    hide About, ParseRegister, ParseValue, ParseNumber, Fetched, Step, Retire, LabelAddrs, FirstPass, Signed44, Addr, Translate, Read64, Done1, Fetch;
    ItemDoes(m, lines, base, image, k, cached, "beq", args);
    TargetIs(lines, base, args[2], m.pc);
    var f, target := Fetch(m, cached), Target(lines, base, args[2]).value;
    FetchKeeps(m, cached);
    HopIs(m.pc, target);
    RetireIs(f.(pc := if m.regs[Reg(args[0])] == m.regs[Reg(args[1])] then Hop(m.pc, target) else Sum(m.pc, 8)));
  }

  /** `bne a, b, target` the other way round. */
  lemma BneStep(m: Machine, lines: seq<Line>, base: nat, image: seq<u8>, k: nat, cached: bool, args: seq<string>)
    requires About(m, lines, base, image, k, cached, "bne", args) && |args| == 3
    ensures Target(lines, base, args[2]).Some?
    ensures var f, target := Fetch(m, cached), Target(lines, base, args[2]).value;
      Step(m, cached) == Ok(Done1(f.(pc := if m.regs[Reg(args[0])] != m.regs[Reg(args[1])] then Hop(m.pc, target) else Sum(m.pc, 8))))
  {
    hide About, ParseRegister, ParseValue, ParseNumber, Fetched, Step, Retire, LabelAddrs, FirstPass, Signed44, Addr, Translate, Read64, Done1, Fetch;
    ItemDoes(m, lines, base, image, k, cached, "bne", args);
    TargetIs(lines, base, args[2], m.pc);
    var f, target := Fetch(m, cached), Target(lines, base, args[2]).value;
    FetchKeeps(m, cached);
    HopIs(m.pc, target);
    RetireIs(f.(pc := if m.regs[Reg(args[0])] != m.regs[Reg(args[1])] then Hop(m.pc, target) else Sum(m.pc, 8)));
  }

  lemma TargetIs(lines: seq<Line>, base: nat, tok: string, pc: nat)
    ensures var j, t := ParseJumpTarget(tok, LabelAddrs(FirstPass(lines), base), pc), Target(lines, base, tok);
      (j.Some? <==> t.Some?) && (j.Some? ==> j.value == TruncDiv8(t.value - pc))
  {
    hide ParseNumber, TruncDiv8;
  }

  lemma HopIs(pc: Word, target: int)
    ensures Wrap(pc + Signed44(TruncDiv8(target - pc)) * 8) == Hop(pc, target)
  {
    hide TruncDiv8, Signed44;
  }

  /** The hop lands on the target exactly when that is a whole number of words away, within 44 signed bits. */
  lemma HopLands(pc: nat, target: nat)
    requires pc < 0x4000_0000_0000_0000 && target < 0x4000_0000_0000_0000
    ensures Hop(pc, target) == target <==> (target - pc) % 8 == 0 && -0x4000_0000_0000 <= target - pc < 0x4000_0000_0000
  {
    BranchReaches(pc, target, TruncDiv8(target - pc));
    SignedIs(TruncDiv8(target - pc));
    HopIs(pc, target);
    if (target - pc) % 8 == 0 {
      WholeWords(target - pc);
    }
    hide Signed44, Hop, TruncDiv8;
  }

  lemma WholeWords(d: int)
    requires d % 8 == 0
    ensures 8 * TruncDiv8(d) == d
  {}

  // ---- The instruction word -----------------------------------------------------------------------------------

  /** The number of each operation. */
  function Number(op: string): nat {
    if op == "halt" then 0x00 else if op == "li" then 0x01 else if op == "add" then 0x02 else if op == "addi" then 0x03
    else if op == "sub" then 0x04 else if op == "and" then 0x05 else if op == "or" then 0x06
    else if op == "load8" then 0x07 else if op == "load64" then 0x08 else if op == "store8" then 0x09
    else if op == "store64" then 0x0A else if op == "beq" then 0x0B else if op == "bne" then 0x0C
    else if op == "jmp" then 0x0D else if op == "trap" then 0x0E else if op == "jmpr" then 0x0F
    else if op == "eret" then 0x10 else if op == "rdcsr" then 0x11 else if op == "wrcsr" then 0x12
    else if op == "sfence" then 0x13 else if op == "sret" then 0x14 else if op == "int" then 0x15
    else if op == "iret" then 0x16 else 0xFF
  }

  /** The operation is in the top byte, the registers in the three nibbles below it, and what was parsed
      for the immediate in the 44 bits below them; an unknown operation is not encoded. */
  lemma WordFields(op: string, args: seq<string>, labels: Labels, pc: nat)
    requires EncodeInstruction(op, args, labels, pc).Some?
    ensures var w, o := EncodeInstruction(op, args, labels, pc).value, Operands(op, args, labels, pc).value;
      && Number(op) <= 0x16 && o.rd.Some? && o.rs1.Some? && o.rs2.Some? && o.imm.Some?
      && w == 0x100_0000_0000_0000 * Number(op) + 0x10_0000_0000_0000 * o.rd.value + 0x1_0000_0000_0000 * o.rs1.value
              + 0x1000_0000_0000 * o.rs2.value + o.imm.value % 0x1000_0000_0000
  {
    hide Operands, Encode, ParseRegister, ParseValue, ParseNumber, ParseJumpTarget, Number;
    OperandsOk(op, args, labels, pc);
    NumberIs(op, args, labels, pc);
    var o := Operands(op, args, labels, pc).value;
    EncodeSum(o.opcode, o.rd.value, o.rs1.value, o.rs2.value, o.imm.value);
  }

  lemma NumberIs(op: string, args: seq<string>, labels: Labels, pc: nat)
    requires Operands(op, args, labels, pc).Some?
    ensures Operands(op, args, labels, pc).value.opcode == Number(op) <= 0x16
  {
    hide ParseRegister, ParseValue, ParseNumber, ParseJumpTarget;
  }

  /** The operands each operation takes: registers, numbers, or a target that is a label or a number. */
  predicate Takes(op: string, args: seq<string>, labels: Labels) {
    if op in ["halt", "eret", "sfence", "iret"] then true
    else if op in ["add", "sub", "and", "or"] then |args| == 3 && IsReg(args[0]) && IsReg(args[1]) && IsReg(args[2])
    else if op in ["addi", "load8", "load64", "store8", "store64"] then
      |args| == 3 && IsReg(args[0]) && IsReg(args[1]) && IsNum(args[2])
    else if op in ["beq", "bne"] then |args| == 3 && IsReg(args[0]) && IsReg(args[1]) && (args[2] in labels || IsNum(args[2]))
    else if op == "li" then |args| == 2 && IsReg(args[0]) && (args[1] in labels || IsNum(args[1]))
    else if op in ["rdcsr", "wrcsr"] then |args| == 2 && IsReg(args[0]) && IsNum(args[1])
    else if op == "jmp" then |args| == 1 && (args[0] in labels || IsNum(args[0]))
    else if op in ["jmpr", "sret"] then |args| == 1 && IsReg(args[0])
    else if op in ["trap", "int"] then |args| == 1 && IsNum(args[0])
    else false
  }

  predicate IsReg(tok: string) { ParseRegister(tok).Some? }
  predicate IsNum(tok: string) { ParseNumber(tok).Some? }

  /** An instruction is encoded exactly with the operands its operation takes. */
  lemma EncodesExactly(op: string, args: seq<string>, labels: Labels, pc: nat)
    ensures EncodeInstruction(op, args, labels, pc).Some? <==> Takes(op, args, labels)
  {
    hide Operands, Takes, Encode;
    if |args| == 3 {
      TakesThree(op, args, labels, pc);
    } else {
      TakesFew(op, args, labels, pc);
    }
  }

  /** All operands were parsed. */
  predicate Parsed(o: Option<Op>) { o.Some? && o.value.rd.Some? && o.value.rs1.Some? && o.value.rs2.Some? && o.value.imm.Some? }

  lemma TakesThree(op: string, args: seq<string>, labels: Labels, pc: nat)
    requires |args| == 3
    ensures Parsed(Operands(op, args, labels, pc)) <==> Takes(op, args, labels)
  {
    hide ParseRegister, ParseNumber, ParseValue, ParseJumpTarget;
    ValueKinds(args[2], labels, pc);
  }

  lemma TakesFew(op: string, args: seq<string>, labels: Labels, pc: nat)
    requires |args| != 3
    ensures Parsed(Operands(op, args, labels, pc)) <==> Takes(op, args, labels)
  {
    hide ParseRegister, ParseNumber, ParseValue, ParseJumpTarget, AluOps, ImmOps, StoreOps, BranchOps;
    if args != [] {
      ValueKinds(args[|args| - 1], labels, pc);
    }
  }

  lemma ValueKinds(tok: string, labels: Labels, pc: nat)
    ensures ParseValue(tok, labels, pc).Some? <==> tok in labels || IsNum(tok)
    ensures ParseJumpTarget(tok, labels, pc).Some? <==> tok in labels || IsNum(tok)
    ensures ParseValue(tok, map[], 0).Some? <==> IsNum(tok)
  {
    hide ParseNumber, TruncDiv8;
  }

  // ---- Tokens and lines ------------------------------------------------------------------------------------

  /** `x` and a decimal number names that register, up to 15; `sp` is x15. */
  lemma RegisterNames(n: nat)
    ensures ParseRegister("x" + Written(n, 10)) == if n < 16 then Some(n) else None
    ensures ParseRegister("sp") == Some(15)
  {
    hide Digits, Written, DigitOf;
    DigitsRoundTrip(n, 10);
    var tok := "x" + Written(n, 10);
    assert tok[1..] == Written(n, 10) && tok[1] == Written(n, 10)[0];
  }

  /** A number is written in decimal, after `0x` in hexadecimal or after `0b` in binary. */
  lemma NumberNames(n: nat)
    requires n < 0x8000_0000_0000_0000
    ensures ParseNumber(Written(n, 10)) == ParseNumber("0x" + Written(n, 16)) == ParseNumber("0b" + Written(n, 2)) == Some(n)
  {
    hide ParseNumber, Written;
    Decimal(n);
    Prefixed(n, "0x", 16);
    Prefixed(n, "0b", 2);
  }

  lemma Decimal(n: nat)
    requires n < 0x8000_0000_0000_0000
    ensures ParseNumber(Written(n, 10)) == Some(n)
  {
    hide Written, ParseRadix;
    NumberRoundTrip(n, 10);
    DecimalStart(n);
  }

  lemma Prefixed(n: nat, prefix: string, radix: nat)
    requires n < 0x8000_0000_0000_0000 && ((prefix == "0x" && radix == 16) || (prefix == "0b" && radix == 2))
    ensures ParseNumber(prefix + Written(n, radix)) == Some(n)
  {
    hide Written, ParseRadix;
    NumberRoundTrip(n, radix);
    assert (prefix + Written(n, radix))[2..] == Written(n, radix);
  }

  /** No decimal looks like `0x`, `0b` or a character. */
  lemma {:induction false} DecimalStart(n: nat)
    ensures var s := Written(n, 10); '0' <= s[0] <= '9' && (|s| > 1 ==> '0' <= s[1] <= '9')
    decreases n
  {
    if n >= 10 {
      DecimalStart(n / 10);
    }
  }

  /** The items among lines, in order. */
  function ItemsOf(lines: seq<Line>): seq<Item> { if lines == [] then [] else ItemOn(lines[0]) + ItemsOf(lines[1..]) }

  function ItemOn(line: Line): seq<Item> { if line.item.Some? then [line.item.value] else [] }

  lemma {:induction false} ItemsMore(lines: seq<Line>, line: Line)
    ensures ItemsOf(lines + [line]) == ItemsOf(lines) + ItemOn(line)
    decreases |lines|
  {
    hide ItemOn;
    var all := lines + [line];
    if lines == [] {
      assert all[1..] == [];
    } else {
      assert all[0] == lines[0] && all[1..] == lines[1..] + [line];
      ItemsMore(lines[1..], line);
      Rejoin(ItemOn(lines[0]), ItemsOf(lines[1..]), ItemOn(line));
    }
  }

  lemma Rejoin<T>(a: seq<T>, b: seq<T>, c: seq<T>)
    ensures a + (b + c) == a + b + c
  {  }

  /** Line i is the last one with this label. */
  predicate LastWith(lines: seq<Line>, i: nat, name: string) {
    i < |lines| && lines[i].name == Some(name) && forall j | i < j < |lines| :: lines[j].name != Some(name)
  }

  /** The first pass keeps the items in order. */
  lemma {:induction false} PassItems(lines: seq<Line>)
    ensures FirstPass(lines).items == ItemsOf(lines)
    decreases |lines|
  {
    hide ItemsOf;
    if lines == [] {
      NoItems();
    } else {
      var front, line := lines[..|lines| - 1], lines[|lines| - 1];
      PassItems(front);
      ItemsMore(front, line);
      assert front + [line] == lines;
    }
  }

  lemma NoItems()
    ensures ItemsOf([]) == []
  {}

  /** A label stands for the number of items before the last line it is on. */
  lemma {:induction false} PassLabels(lines: seq<Line>)
    ensures forall name | name in FirstPass(lines).labels :: exists i :: LastWith(lines, i, name)
    ensures forall name, i: nat | LastWith(lines, i, name) ::
      name in FirstPass(lines).labels && FirstPass(lines).labels[name] == |ItemsOf(lines[..i])|
    decreases |lines|
  {
    hide ItemsOf;
    if lines != [] {
      var n := |lines| - 1;
      var front, line := lines[..n], lines[n];
      PassLabels(front);
      PassItems(front);
      forall name | name in FirstPass(lines).labels ensures exists i :: LastWith(lines, i, name) {
        if line.name == Some(name) {
          assert LastWith(lines, n, name);
        } else {
          var i :| LastWith(front, i, name);
          assert LastWith(lines, i, name);
        }
      }
      forall name, i: nat | LastWith(lines, i, name)
        ensures name in FirstPass(lines).labels && FirstPass(lines).labels[name] == |ItemsOf(lines[..i])|
      {
        if i < n {
          assert LastWith(front, i, name) && front[..i] == lines[..i];
        }
      }
    }
  }
}
