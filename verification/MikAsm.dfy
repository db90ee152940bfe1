// The text assembler from tokenised lines on: two-pass layout, encoding, and
// where its branches and label loads take the machine.

module MikAsm {
  import opened Options
  import opened Bytes
  import opened Mik64Mmu
  import opened Mik64Cpu
  import opened Mik64Encoding
  import opened LoadedCode

  datatype Item = Ins(op: string, args: seq<string>) | Data(bytes: seq<u8>)

  /** One line after tokenising: an optional leading label, an optional item. */
  datatype Line = Line(name: Option<string>, item: Option<Item>)

  // ---- Tokens ------------------------------------------------------------------------

  function DigitOf(c: char): (d: nat) {
    if '0' <= c <= '9' then (c - '0') as nat
    else if 'a' <= c <= 'z' then (c - 'a') as nat + 10
    else if 'A' <= c <= 'Z' then (c - 'A') as nat + 10
    else 99
  }

  /** The value of a non-empty string of digits. */
  function Digits(s: string, radix: nat): Option<nat> {
    if s == [] then None
    else
      var d := DigitOf(s[|s| - 1]);
      if d >= radix then None
      else if |s| == 1 then Some(d)
      else match Digits(s[..|s| - 1], radix)
        case Some(v) => Some(radix * v + d)
        case None => None
  }

  /** `i64::from_str_radix`: an optional sign, digits, and a value that fits. */
  function ParseRadix(s: string, radix: nat): Option<int> {
    if s == [] then None
    else
      var signed := s[0] == '-' || s[0] == '+';
      match Digits(if signed then s[1..] else s, radix)
      case None => None
      case Some(v) =>
        var x: int := if s[0] == '-' then 0 - v else v;
        if -0x8000_0000_0000_0000 <= x < 0x8000_0000_0000_0000 then Some(x) else None
  }

  function ParseNumber(tok: string): Option<int> {
    if |tok| >= 2 && tok[0] == '0' && (tok[1] == 'x' || tok[1] == 'X') then ParseRadix(tok[2..], 16)
    else if |tok| >= 2 && tok[0] == '0' && (tok[1] == 'b' || tok[1] == 'B') then ParseRadix(tok[2..], 2)
    else if |tok| == 3 && tok[0] == '\'' && tok[2] == '\'' then Some(tok[1] as int)
    else if |tok| == 4 && tok[0] == '\'' && tok[3] == '\'' && tok[1] == '\\' then
      match tok[2]
      case 'n' => Some(10)
      case 'r' => Some(13)
      case 't' => Some(9)
      case '\\' => Some(92)
      case '0' => Some(0)
      case _ => None
    else ParseRadix(tok, 10)
  }

  /** `sp`, or `x` and a number up to 15. */
  function ParseRegister(tok: string): (r: Option<nat>)
    ensures r.Some? ==> r.value < 16
  {
    if |tok| == 2 && (tok[0] == 's' || tok[0] == 'S') && (tok[1] == 'p' || tok[1] == 'P') then Some(15)
    else if tok == [] || (tok[0] != 'x' && tok[0] != 'X') then None
    else
      match Digits(if |tok| > 1 && tok[1] == '+' then tok[2..] else tok[1..], 10)
      case Some(n) => if n < 16 then Some(n) else None
      case None => None
  }

  type Labels = map<string, nat>

  /** Word offset from pc to a label or absolute address. */
  function ParseJumpTarget(tok: string, labels: Labels, pc: nat): Option<int> {
    if tok in labels then Some(TruncDiv8(labels[tok] - pc))
    else match ParseNumber(tok)
      case Some(v) => Some(TruncDiv8(v - pc))
      case None => None
  }

  function ParseValue(tok: string, labels: Labels, pc: nat): Option<int> {
    if tok in labels then Some(labels[tok])
    else match ParseNumber(tok)
      case Some(v) => Some(v)
      case None => ParseJumpTarget(tok, labels, pc)
  }

  // ---- Encoding ------------------------------------------------------------------------

  /** An instruction with its operands parsed. */
  datatype Op = Op(opcode: nat, rd: Option<nat>, rs1: Option<nat>, rs2: Option<nat>, imm: Option<int>)

  const R0: Option<nat> := Some(0)
  const NO_IMM: Option<int> := Some(0)

  /** The match of `encode_instruction`: None for an unknown opcode or a wrong argument count. */
  function Operands(op: string, args: seq<string>, labels: Labels, pc: nat): Option<Op> {
    var n := |args|;
    var none: Labels := map[];
    if op == "halt" then Some(Op(HALT, R0, R0, R0, NO_IMM))
    else if op == "li" && n == 2 then Some(Op(LI, ParseRegister(args[0]), R0, R0, ParseValue(args[1], labels, pc)))
    else if op in AluOps() && n == 3 then
      Some(Op(AluOps()[op], ParseRegister(args[0]), ParseRegister(args[1]), ParseRegister(args[2]), NO_IMM))
    else if op in ImmOps() && n == 3 then
      Some(Op(ImmOps()[op], ParseRegister(args[0]), ParseRegister(args[1]), R0, ParseValue(args[2], none, 0)))
    else if op in StoreOps() && n == 3 then
      Some(Op(StoreOps()[op], R0, ParseRegister(args[0]), ParseRegister(args[1]), ParseValue(args[2], none, 0)))
    else if op in BranchOps() && n == 3 then
      Some(Op(BranchOps()[op], R0, ParseRegister(args[0]), ParseRegister(args[1]), ParseJumpTarget(args[2], labels, pc)))
    else if op == "jmp" && n == 1 then Some(Op(JMP, R0, R0, R0, ParseJumpTarget(args[0], labels, pc)))
    else if op == "trap" && n == 1 then Some(Op(TRAP, R0, R0, R0, ParseNumber(args[0])))
    else if op == "jmpr" && n == 1 then Some(Op(JMPR, R0, ParseRegister(args[0]), R0, NO_IMM))
    else if op == "eret" then Some(Op(ERET, R0, R0, R0, NO_IMM))
    else if op == "rdcsr" && n == 2 then Some(Op(RDCSR, ParseRegister(args[0]), R0, R0, ParseNumber(args[1])))
    else if op == "wrcsr" && n == 2 then Some(Op(WRCSR, R0, ParseRegister(args[0]), R0, ParseNumber(args[1])))
    else if op == "sfence" then Some(Op(SFENCE, R0, R0, R0, NO_IMM))
    else if op == "sret" && n == 1 then Some(Op(SRET, R0, ParseRegister(args[0]), R0, NO_IMM))
    else if op == "int" && n == 1 then Some(Op(INT, R0, R0, R0, ParseNumber(args[0])))
    else if op == "iret" then Some(Op(IRET, R0, R0, R0, NO_IMM))
    else None
  }

  function AluOps(): map<string, nat> { map["add" := ADD, "sub" := SUB, "and" := AND, "or" := OR] }
  function ImmOps(): map<string, nat> { map["addi" := ADDI, "load8" := LOAD8, "load64" := LOAD64] }
  function StoreOps(): map<string, nat> { map["store8" := STORE8, "store64" := STORE64] }
  function BranchOps(): map<string, nat> { map["beq" := BEQ, "bne" := BNE] }

  /** The encoded word, or None for the error return. */
  function EncodeInstruction(op: string, args: seq<string>, labels: Labels, pc: nat): Option<nat> {
    match Operands(op, args, labels, pc)
    case Some(Op(opcode, Some(rd), Some(rs1), Some(rs2), Some(imm))) => Some(Encode(opcode, rd, rs1, rs2, imm))
    case _ => None
  }

  lemma OperandsOk(op: string, args: seq<string>, labels: Labels, pc: nat)
    ensures var o := Operands(op, args, labels, pc);
      && (o.Some? ==> o.value.opcode <= IRET)
      && (o.Some? && o.value.rd.Some? ==> o.value.rd.value < 16)
      && (o.Some? && o.value.rs1.Some? ==> o.value.rs1.value < 16)
      && (o.Some? && o.value.rs2.Some? ==> o.value.rs2.value < 16)
  {
    hide ParseRegister, ParseValue, ParseNumber, ParseJumpTarget;
  }

  /** Whatever the assembler emits is a 64-bit word with a legal opcode and exactly the registers
      that were parsed. */
  lemma EncodedIsLegal(op: string, args: seq<string>, labels: Labels, pc: nat)
    requires EncodeInstruction(op, args, labels, pc).Some?
    ensures var w, o := EncodeInstruction(op, args, labels, pc).value, Operands(op, args, labels, pc).value;
      && w < 0x1_0000_0000_0000_0000 && Opcode(w) == o.opcode <= IRET
      && o.rd == Some(Rd(w)) && o.rs1 == Some(Rs1(w)) && o.rs2 == Some(Rs2(w))
      && Imm(w) == Sext44(Imm44(o.imm.value))
  {
    hide Operands, Encode, Opcode, Rd, Rs1, Rs2, Imm, Sext44, Imm44;
    OperandsOk(op, args, labels, pc);
    var o := Operands(op, args, labels, pc).value;
    DecodeEncode(o.opcode, o.rd.value, o.rs1.value, o.rs2.value, o.imm.value);
    EncodedImm(o.opcode, o.rd.value, o.rs1.value, o.rs2.value, o.imm.value);
  }

  // ---- Layout ---------------------------------------------------------------------------

  /** What the first pass collects; a label maps to the index of the next item. */
  datatype Pass1 = Pass1(items: seq<Item>, labels: Labels)

  function FirstPass(lines: seq<Line>): Pass1 {
    if lines == [] then Pass1([], map[])
    else AddLine(FirstPass(lines[..|lines| - 1]), lines[|lines| - 1])
  }

  function AddLine(p: Pass1, line: Line): Pass1 {
    var labels := if line.name.Some? then p.labels[line.name.value := |p.items|] else p.labels;
    Pass1(if line.item.Some? then p.items + [line.item.value] else p.items, labels)
  }

  function SizeOf(item: Item): nat { if item.Ins? then 8 else |item.bytes| }

  function Size(items: seq<Item>): nat {
    if items == [] then 0 else Size(items[..|items| - 1]) + SizeOf(items[|items| - 1])
  }

  /** The address of item k. */
  function Addr(items: seq<Item>, base: nat, k: nat): nat
    requires k <= |items|
  {
    base + Size(items[..k])
  }

  /** Some label has no item after it. */
  ghost predicate Dangling(p: Pass1) { exists name | name in p.labels :: p.labels[name] >= |p.items| }

  /** Every label at the address of its item. */
  function LabelAddrs(p: Pass1, base: nat): Labels
  {
    map name | name in p.labels :: if p.labels[name] <= |p.items| then Addr(p.items, base, p.labels[name]) else 0
  }

  /** The bytes of one item placed at pc. */
  function ItemBytes(item: Item, labels: Labels, pc: nat): Option<seq<u8>> {
    match item
    case Data(b) => Some(b)
    case Ins(op, args) =>
      match EncodeInstruction(op, args, labels, pc)
      case Some(w) => Some(LeBytes(w, 8))
      case None => None
  }

  /** item k sits at its address, encoded for that address. */
  ghost predicate Placed(bytes: seq<u8>, items: seq<Item>, labels: Labels, base: nat, k: nat)
    requires k < |items|
  {
    var at := Size(items[..k]);
    at + SizeOf(items[k]) <= |bytes|
    && ItemBytes(items[k], labels, base + at) == Some(bytes[at..at + SizeOf(items[k])])
  }

  datatype Assembly = Binary(bytes: seq<u8>) | Rejected | DanglingLabel

  lemma {:induction false} SizeSteps(items: seq<Item>, k: nat)
    requires k < |items|
    ensures Size(items[..k + 1]) == Size(items[..k]) + SizeOf(items[k])
    ensures Size(items[..k]) <= Size(items)
    decreases |items|
  {
    assert items[..k + 1][..k] == items[..k];
    if k + 1 < |items| {
      SizeSteps(items[..|items| - 1], k);
      assert items[..|items| - 1][..k] == items[..k];
    } else {
      assert items[..k + 1] == items;
    }
  }

  /** An image with every item of these lines at its address, encoded for that address. */
  ghost predicate Assembled(lines: seq<Line>, base: nat, image: seq<u8>) {
    var p := FirstPass(lines);
    && !Dangling(p) && |image| == Size(p.items)
    && forall k | 0 <= k < |p.items| :: Placed(image, p.items, LabelAddrs(p, base), base, k)
  }

  /** `assemble`, from tokenised lines. */
  method Assemble(lines: seq<Line>, base: nat) returns (r: Assembly)
    ensures r.DanglingLabel? <==> Dangling(FirstPass(lines))
    ensures var p := FirstPass(lines);
      r.Rejected? <==>
        !Dangling(p) && exists k :: 0 <= k < |p.items| && ItemBytes(p.items[k], LabelAddrs(p, base), Addr(p.items, base, k)).None?
    ensures r.Binary? ==> Assembled(lines, base, r.bytes)
  {
    var items, labels := CollectItems(lines);
    ghost var p := FirstPass(lines);
    var addrs := Addresses(items, base);
    var resolved: Labels := map[];
    var names := labels.Keys;
    while names != {}
      invariant names <= labels.Keys
      invariant forall name | name in labels && name !in names :: labels[name] < |items|
      invariant resolved.Keys == labels.Keys - names
      invariant forall name | name in resolved :: resolved[name] == LabelAddrs(p, base)[name]
      decreases |names|
    {
      var name :| name in names;
      if labels[name] >= |items| {
        return DanglingLabel;
      }
      resolved := resolved[name := addrs[labels[name]]];
      names := names - {name};
    }
    assert resolved == LabelAddrs(p, base);
    r := Encode2(items, resolved, addrs, base);
  }

  method CollectItems(lines: seq<Line>) returns (items: seq<Item>, labels: Labels)
    ensures Pass1(items, labels) == FirstPass(lines)
  {
    items, labels := [], map[];
    var i := 0;
    while i < |lines|
      invariant 0 <= i <= |lines| && Pass1(items, labels) == FirstPass(lines[..i])
    {
      assert lines[..i + 1][..i] == lines[..i];
      if lines[i].name.Some? {
        labels := labels[lines[i].name.value := |items|];
      }
      if lines[i].item.Some? {
        items := items + [lines[i].item.value];
      }
      i := i + 1;
    }
    assert lines[..i] == lines;
  }

  method Addresses(items: seq<Item>, base: nat) returns (addrs: seq<nat>)
    ensures |addrs| == |items| && forall k | 0 <= k < |items| :: addrs[k] == Addr(items, base, k)
  {
    addrs := [];
    var addr := base;
    var k := 0;
    while k < |items|
      invariant 0 <= k <= |items| && |addrs| == k && addr == Addr(items, base, k)
      invariant forall j | 0 <= j < k :: addrs[j] == Addr(items, base, j)
    {
      SizeSteps(items, k);
      addrs := addrs + [addr];
      addr := addr + SizeOf(items[k]);
      k := k + 1;
    }
  }

  /** The second pass. */
  method Encode2(items: seq<Item>, labels: Labels, addrs: seq<nat>, base: nat) returns (r: Assembly)
    requires |addrs| == |items| && forall k | 0 <= k < |items| :: addrs[k] == Addr(items, base, k)
    ensures !r.DanglingLabel?
    ensures r.Rejected? <==> exists k :: 0 <= k < |items| && ItemBytes(items[k], labels, Addr(items, base, k)).None?
    ensures r.Binary? ==> |r.bytes| == Size(items) && forall k | 0 <= k < |items| :: Placed(r.bytes, items, labels, base, k)
  {
    hide EncodeInstruction;
    var binary: seq<u8> := [];
    var k := 0;
    while k < |items|
      invariant 0 <= k <= |items| && |binary| == Size(items[..k])
      invariant forall j | 0 <= j < k :: Placed(binary, items, labels, base, j)
    {
      SizeSteps(items, k);
      var bytes: seq<u8>;
      match items[k] {
        case Ins(op, args) =>
          var word := EncodeInstruction(op, args, labels, addrs[k]);
          if word.None? {
            assert ItemBytes(items[k], labels, Addr(items, base, k)).None?;
            return Rejected;
          }
          bytes := LeBytes(word.value, 8);
        case Data(b) => bytes := b;
      }
      ghost var before := binary;
      binary := binary + bytes;
      forall j | 0 <= j < k + 1 ensures Placed(binary, items, labels, base, j) {
        if j < k {
          StillPlaced(before, bytes, items, labels, base, j);
        } else {
          LastPlaced(before, bytes, items, labels, base, k);
        }
      }
      k := k + 1;
    }
    assert items[..k] == items;
    forall j | 0 <= j < |items| ensures ItemBytes(items[j], labels, Addr(items, base, j)).Some? {
      assert Placed(binary, items, labels, base, j);
    }
    return Binary(binary);
  }

  lemma LastPlaced(before: seq<u8>, bytes: seq<u8>, items: seq<Item>, labels: Labels, base: nat, k: nat)
    requires k < |items| && |before| == Size(items[..k]) && |bytes| == SizeOf(items[k])
    requires ItemBytes(items[k], labels, Addr(items, base, k)) == Some(bytes)
    ensures Placed(before + bytes, items, labels, base, k)
  {
    hide EncodeInstruction, ItemBytes;
    assert (before + bytes)[|before|..|before| + |bytes|] == bytes;
  }

  lemma StillPlaced(before: seq<u8>, more: seq<u8>, items: seq<Item>, labels: Labels, base: nat, j: nat)
    requires j < |items| && Placed(before, items, labels, base, j)
    ensures Placed(before + more, items, labels, base, j)
  {
    var at := Size(items[..j]);
    assert (before + more)[at..at + SizeOf(items[j])] == before[at..at + SizeOf(items[j])];
  }

  // ---- Executing what was assembled ----------------------------------------------------------

  predicate IsBranch(op: string, args: seq<string>) { (op == "jmp" && |args| == 1) || (op in BranchOps() && |args| == 3) }

  function TargetOf(args: seq<string>): string
    requires args != []
  {
    args[|args| - 1]
  }

  /** A jmp, or a taken beq or bne, to a label lands on the label's address exactly when that is a
      whole number of words away and the offset fits 44 signed bits. */
  lemma BranchToLabel(m: Machine, op: string, args: seq<string>, labels: Labels, pc: nat, cached: bool)
    requires IsBranch(op, args) && TargetOf(args) in labels && EncodeInstruction(op, args, labels, pc).Some?
    requires pc < 0x4000_0000_0000_0000 && labels[TargetOf(args)] < 0x4000_0000_0000_0000
    ensures EncodeInstruction(op, args, labels, pc).value < 0x1_0000_0000_0000_0000
    ensures var w, target := EncodeInstruction(op, args, labels, pc).value, labels[TargetOf(args)];
      && Opcode(w) == (if op == "jmp" then JMP else if op == "beq" then BEQ else BNE)
      && (TakesBranch(m, w) ==>
            Exec(m, pc, w, cached).Next?
            && (Exec(m, pc, w, cached).m.pc == target <==> InReach(pc, target)))
  {
    hide EncodeInstruction, Exec, Opcode, Imm, Imm44, Sext44, TruncDiv8, Wrap, TakesBranch, InReach, BranchOps, Rs1, Rs2;
    BranchFields(op, args, labels, pc);
    var w := EncodeInstruction(op, args, labels, pc).value;
    if TakesBranch(m, w) {
      TakenBranch(m, w, pc, labels[TargetOf(args)], cached);
    }
  }

  lemma BranchFields(op: string, args: seq<string>, labels: Labels, pc: nat)
    requires IsBranch(op, args) && TargetOf(args) in labels && EncodeInstruction(op, args, labels, pc).Some?
    ensures EncodeInstruction(op, args, labels, pc).value < 0x1_0000_0000_0000_0000
    ensures var w := EncodeInstruction(op, args, labels, pc).value;
      && Opcode(w) == (if op == "jmp" then JMP else if op == "beq" then BEQ else BNE)
      && Imm(w) == Sext44(Imm44(TruncDiv8(labels[TargetOf(args)] - pc)))
  {
    EncodedIsLegal(op, args, labels, pc);
    BranchOperands(op, args, labels, pc);
    hide *;
  }

  lemma BranchOperands(op: string, args: seq<string>, labels: Labels, pc: nat)
    requires IsBranch(op, args) && TargetOf(args) in labels
    ensures var o := Operands(op, args, labels, pc);
      && o.Some? && o.value.imm == Some(TruncDiv8(labels[TargetOf(args)] - pc))
      && o.value.opcode == if op == "jmp" then JMP else if op == "beq" then BEQ else BNE
  {
    hide ParseRegister, ParseValue, ParseNumber, TruncDiv8;
  }

  /** li of a label loads the label's address exactly when the address is below 2^43. */
  lemma LoadOfLabel(m: Machine, args: seq<string>, labels: Labels, pc: Word, cached: bool)
    requires |args| == 2 && args[1] in labels && EncodeInstruction("li", args, labels, pc).Some?
    requires labels[args[1]] < 0x4000_0000_0000_0000
    ensures EncodeInstruction("li", args, labels, pc).value < 0x1_0000_0000_0000_0000
    ensures var w, target := EncodeInstruction("li", args, labels, pc).value, labels[args[1]];
      Exec(m, pc, w, cached).Next?
      && (Exec(m, pc, w, cached).m.regs[Rd(w)] == target <==> target < 0x800_0000_0000)
  {
    EncodedIsLegal("li", args, labels, pc);
    hide EncodeInstruction, Encode, Opcode, Rd, Rs1, Rs2, Imm, Sext44, Imm44, Wrap, ExecLoad, ExecStore, ParseRegister;
    AddressLoads(labels[args[1]]);
  }

  // ---- The loaded image, fetched and stepped ---------------------------------------------------

  /** Item k of an assembled image is its encoded instruction, at its address. */
  lemma ItemWord(lines: seq<Line>, base: nat, image: seq<u8>, k: nat)
    requires Assembled(lines, base, image) && k < |FirstPass(lines).items| && FirstPass(lines).items[k].Ins?
    ensures var p := FirstPass(lines);
      var w, at := EncodeInstruction(p.items[k].op, p.items[k].args, LabelAddrs(p, base), Addr(p.items, base, k)), Size(p.items[..k]);
      w.Some? && at + 8 <= |image| && image[at..at + 8] == LeBytes(w.value, 8)
  {
    hide EncodeInstruction;
    var p := FirstPass(lines);
    assert Placed(image, p.items, LabelAddrs(p, base), base, k);
  }

  /** Labels of an assembled program stand for addresses within the image. */
  lemma LabelInImage(lines: seq<Line>, base: nat, image: seq<u8>, name: string)
    requires Assembled(lines, base, image) && name in FirstPass(lines).labels
    ensures var p := FirstPass(lines);
      p.labels[name] < |p.items| && LabelAddrs(p, base)[name] == Addr(p.items, base, p.labels[name]) <= base + |image|
  {
    hide EncodeInstruction;
    var p := FirstPass(lines);
    SizeSteps(p.items, p.labels[name]);
  }

  /** The machine is about to fetch item k of the image. */
  ghost predicate AtItem(m: Machine, lines: seq<Line>, base: nat, image: seq<u8>, k: nat, cached: bool) {
    && Assembled(lines, base, image) && base + |image| < 0x4000_0000_0000_0000
    && k < |FirstPass(lines).items| && m.pc == Addr(FirstPass(lines).items, base, k)
    && InPlace(m, image, base, cached) && !Interrupted(m)
  }

  /** With paging off it is enough that the image lies in memory at its base. */
  lemma FlatItem(m: Machine, lines: seq<Line>, base: nat, image: seq<u8>, k: nat, cached: bool)
    requires Assembled(lines, base, image) && base + |image| <= RAM_SIZE && m.mem[base..base + |image|] == image
    requires k < |FirstPass(lines).items| && FirstPass(lines).items[k].Ins? && m.pc == Addr(FirstPass(lines).items, base, k)
    requires m.csrs[CSR_PMODE] == 0 && !Interrupted(m)
    ensures AtItem(m, lines, base, image, k, cached)
  {
    hide EncodeInstruction, LabelAddrs, FirstPass, Size, Assembled, InPlace;
    ItemWord(lines, base, image, k);
    FlatInPlace(m, image, base, cached);
  }

  /** The branch at item k is taken, by the registers as written. */
  predicate TakenAs(m: Machine, op: string, args: seq<string>)
    requires IsBranch(op, args)
  {
    || op == "jmp"
    || (ParseRegister(args[0]).Some? && ParseRegister(args[1]).Some?
        && (op == "beq" <==> m.regs[ParseRegister(args[0]).value] == m.regs[ParseRegister(args[1]).value]))
  }

  lemma BranchRegs(op: string, args: seq<string>, labels: Labels, pc: nat)
    requires op in BranchOps() && |args| == 3 && EncodeInstruction(op, args, labels, pc).Some?
    ensures EncodeInstruction(op, args, labels, pc).value < 0x1_0000_0000_0000_0000
    ensures var w := EncodeInstruction(op, args, labels, pc).value;
      ParseRegister(args[0]) == Some(Rs1(w)) && ParseRegister(args[1]) == Some(Rs2(w))
  {
    EncodedIsLegal(op, args, labels, pc);
    BranchRegOperands(op, args, labels, pc);
    hide EncodeInstruction, Operands, Rs1, Rs2, Opcode, Imm, Imm44, Sext44;
  }

  lemma BranchRegOperands(op: string, args: seq<string>, labels: Labels, pc: nat)
    requires op in BranchOps() && |args| == 3
    ensures var o := Operands(op, args, labels, pc);
      o.Some? && o.value.rs1 == ParseRegister(args[0]) && o.value.rs2 == ParseRegister(args[1])
  {
    hide ParseRegister, ParseValue, ParseNumber, ParseJumpTarget;
  }

  /** Which of the encoded branches are taken. */
  lemma TakenMeans(m: Machine, op: string, args: seq<string>, labels: Labels, pc: nat)
    requires IsBranch(op, args) && TargetOf(args) in labels && EncodeInstruction(op, args, labels, pc).Some?
    ensures EncodeInstruction(op, args, labels, pc).value < 0x1_0000_0000_0000_0000
    ensures TakesBranch(m, EncodeInstruction(op, args, labels, pc).value) <==> TakenAs(m, op, args)
  {
    BranchFields(op, args, labels, pc);
    if op in BranchOps() {
      BranchRegs(op, args, labels, pc);
    }
    hide EncodeInstruction, ParseRegister, Opcode, Rs1, Rs2, Imm, Imm44, Sext44, TruncDiv8;
  }

  /** The encoded branch, taken or not. */
  lemma BranchOutcome(m: Machine, op: string, args: seq<string>, labels: Labels, pc: nat, cached: bool)
    requires IsBranch(op, args) && TargetOf(args) in labels && EncodeInstruction(op, args, labels, pc).Some?
    requires pc < 0x4000_0000_0000_0000 && labels[TargetOf(args)] < 0x4000_0000_0000_0000
    ensures EncodeInstruction(op, args, labels, pc).value < 0x1_0000_0000_0000_0000
    ensures var d := Exec(m, pc, EncodeInstruction(op, args, labels, pc).value, cached);
      d.Next? && if TakenAs(m, op, args) then d.m.pc == labels[TargetOf(args)] <==> InReach(pc, labels[TargetOf(args)]) else d.m == m
  {
    hide EncodeInstruction, Exec, Opcode, InReach, TakenAs, TakesBranch, BranchOps;
    BranchToLabel(m, op, args, labels, pc, cached);
    TakenMeans(m, op, args, labels, pc);
    var w := EncodeInstruction(op, args, labels, pc).value;
    if !TakesBranch(m, w) {
      NotTaken(m, pc, w, cached);
    }
  }

  lemma TakenSame(m: Machine, a: Machine, op: string, args: seq<string>)
    requires IsBranch(op, args)
    ensures a.regs == m.regs ==> (TakenAs(a, op, args) <==> TakenAs(m, op, args))
  {
    hide ParseRegister;
  }

  /** Assembled, loaded, fetched, stepped: a branch to a label, if taken, goes to the label's address
      exactly when that is a whole number of words away and in range; if not taken, to the next
      item.  An item that does not start on a word (a string before it) is an error instead. */
  lemma StepBranch(m: Machine, lines: seq<Line>, base: nat, image: seq<u8>, k: nat, cached: bool)
    requires AtItem(m, lines, base, image, k, cached)
    requires var p := FirstPass(lines);
      p.items[k].Ins? && IsBranch(p.items[k].op, p.items[k].args) && TargetOf(p.items[k].args) in p.labels
    ensures m.pc % 8 != 0 ==> Step(m, cached) == Err
    ensures m.pc % 8 == 0 ==>
      var p, d := FirstPass(lines), Step(m, cached);
      var target := Addr(p.items, base, p.labels[TargetOf(p.items[k].args)]);
      && d.Ok?
      && if TakenAs(m, p.items[k].op, p.items[k].args) then d.m.pc == target <==> InReach(m.pc, target)
         else d.m.pc == m.pc + 8
  {
    hide EncodeInstruction, InPlace, Fetched, Step, Exec, LabelAddrs, InReach, TakenAs, Retire, Wrap, Assembled, FirstPass, Size,
      BranchOps, Interrupted, LeBytes;
    var p := FirstPass(lines);
    var op, args, labels := p.items[k].op, p.items[k].args, LabelAddrs(p, base);
    ItemWord(lines, base, image, k);
    var name := TargetOf(args);
    LabelInImage(lines, base, image, name);
    assert name in labels && m.pc < 0x4000_0000_0000_0000 by { LabelKept(p, base, name); SizeSteps(p.items, k); }
    var a := Advanced(m, cached);
    BranchOutcome(a, op, args, labels, m.pc, cached);
    TakenSame(m, a, op, args);
    var w := EncodeInstruction(op, args, labels, m.pc).value;
    StepsWord(m, image, base, w, cached);
    Next8(m);
    if m.pc % 8 == 0 {
      RetireKeeps(Exec(a, m.pc, w, cached).m);
    }
  }

  lemma LabelKept(p: Pass1, base: nat, name: string)
    requires name in p.labels
    ensures name in LabelAddrs(p, base)
  {}

  lemma NotTaken(m: Machine, pc: Word, w: Word, cached: bool)
    requires !TakesBranch(m, w) && Opcode(w) in {JMP, BEQ, BNE}
    ensures Exec(m, pc, w, cached) == Next(m)
  {
    hide Opcode, Rd, Rs1, Rs2, Imm, Wrap, ExecLoad, ExecStore;
  }

  lemma Next8(m: Machine)
    requires m.pc < 0x4000_0000_0000_0000
    ensures Wrap(m.pc + 8) == m.pc + 8
  {}

  /** The same for li: it loads the label's address exactly when that is below 2^43. */
  lemma StepLi(m: Machine, lines: seq<Line>, base: nat, image: seq<u8>, k: nat, cached: bool)
    requires AtItem(m, lines, base, image, k, cached)
    requires var p := FirstPass(lines);
      p.items[k].Ins? && p.items[k].op == "li" && |p.items[k].args| == 2 && p.items[k].args[1] in p.labels
    ensures ParseRegister(FirstPass(lines).items[k].args[0]).Some?
    ensures m.pc % 8 != 0 ==> Step(m, cached) == Err
    ensures m.pc % 8 == 0 ==>
      var p, d := FirstPass(lines), Step(m, cached);
      var target, rd := Addr(p.items, base, p.labels[p.items[k].args[1]]), ParseRegister(p.items[k].args[0]).value;
      d.Ok? && (rd != 0 ==> (d.m.regs[rd] == target <==> target < 0x800_0000_0000))
  {
    hide EncodeInstruction, InPlace, Fetched, Step, Exec, LabelAddrs, ParseRegister, Retire, Opcode, Imm, Wrap, Rd;
    var p := FirstPass(lines);
    var args, labels := p.items[k].args, LabelAddrs(p, base);
    ItemWord(lines, base, image, k);
    LabelInImage(lines, base, image, args[1]);
    assert args[1] in labels && m.pc < 0x4000_0000_0000_0000 by { LabelKept(p, base, args[1]); SizeSteps(p.items, k); }
    var w := EncodeInstruction("li", args, labels, m.pc).value;
    LoadOfLabel(Advanced(m, cached), args, labels, m.pc, cached);
    LiRegister(args, labels, m.pc);
    StepsWord(m, image, base, w, cached);
    if m.pc % 8 == 0 {
      RetireKeeps(Exec(Advanced(m, cached), m.pc, w, cached).m);
    }
  }

  lemma LiRegister(args: seq<string>, labels: Labels, pc: nat)
    requires |args| == 2 && EncodeInstruction("li", args, labels, pc).Some?
    ensures EncodeInstruction("li", args, labels, pc).value < 0x1_0000_0000_0000_0000
    ensures ParseRegister(args[0]) == Some(Rd(EncodeInstruction("li", args, labels, pc).value))
  {
    EncodedIsLegal("li", args, labels, pc);
    hide EncodeInstruction, Rd, ParseRegister, ParseValue, Opcode, Imm, Imm44, Sext44, Rs1, Rs2;
  }

  /** What an arithmetic opcode computes. */
  function AluOf(opcode: nat, a: Word, b: Word): Word {
    var x: int, y: int := a, b;
    if opcode == ADD then Wrap(x + y) else if opcode == SUB then Wrap(x - y)
    else if opcode == AND then AndWord(a, b) else OrWord(a, b)
  }

  /** `add rd, rs1, rs2` and its like do to the machine what their operands say, in that order. */
  lemma AluMeans(m: Machine, op: string, args: seq<string>, labels: Labels, pc: Word, cached: bool)
    requires op in AluOps() && |args| == 3 && EncodeInstruction(op, args, labels, pc).Some?
    ensures EncodeInstruction(op, args, labels, pc).value < 0x1_0000_0000_0000_0000
    ensures ParseRegister(args[0]).Some? && ParseRegister(args[1]).Some? && ParseRegister(args[2]).Some?
    ensures var rd, rs1, rs2 := ParseRegister(args[0]).value, ParseRegister(args[1]).value, ParseRegister(args[2]).value;
      Exec(m, pc, EncodeInstruction(op, args, labels, pc).value, cached)
      == Next(SetReg(m, rd, AluOf(AluOps()[op], m.regs[rs1], m.regs[rs2])))
  {
    EncodedIsLegal(op, args, labels, pc);
    OperandsOrder(op, args, labels, pc);
    assert AluOps()[op] in {ADD, SUB, AND, OR};
    hide EncodeInstruction, Operands, ParseRegister, Opcode, Rd, Rs1, Rs2, Imm, AluOps, AluOf, Exec;
    ExecAlu(m, pc, EncodeInstruction(op, args, labels, pc).value, cached);
  }

  lemma ExecAlu(m: Machine, pc: Word, w: Word, cached: bool)
    requires Opcode(w) in {ADD, SUB, AND, OR}
    ensures Exec(m, pc, w, cached) == Next(SetReg(m, Rd(w), AluOf(Opcode(w), m.regs[Rs1(w)], m.regs[Rs2(w)])))
  {
    hide Opcode, Rd, Rs1, Rs2, Imm, AndWord, OrWord, SetReg, Wrap, ExecLoad, ExecStore;
  }

  /** What an opcode with an offset does. */
  function OffsetOp(m: Machine, pc: Word, opcode: nat, rd: nat, base: nat, source: nat, offset: int, cached: bool): Done
    requires rd < 16 && base < 16 && source < 16
  {
    var va := Wrap(m.regs[base] as int + offset);
    if opcode == ADDI then Next(SetReg(m, rd, va))
    else if opcode == LOAD8 || opcode == LOAD64 then ExecLoad(m, pc, rd, va, opcode == LOAD64, cached)
    else ExecStore(m, pc, va, m.regs[source], opcode == STORE64, cached)
  }

  /** `load64 rd, base, offset` and its like. */
  lemma LoadMeans(m: Machine, op: string, args: seq<string>, labels: Labels, pc: Word, cached: bool)
    requires op in ImmOps() && |args| == 3 && EncodeInstruction(op, args, labels, pc).Some?
    ensures EncodeInstruction(op, args, labels, pc).value < 0x1_0000_0000_0000_0000
    ensures ParseRegister(args[0]).Some? && ParseRegister(args[1]).Some? && ParseValue(args[2], map[], 0).Some?
    ensures var rd, base, imm := ParseRegister(args[0]).value, ParseRegister(args[1]).value, ParseValue(args[2], map[], 0).value;
      Exec(m, pc, EncodeInstruction(op, args, labels, pc).value, cached)
      == OffsetOp(m, pc, ImmOps()[op], rd, base, 0, Sext44(Imm44(imm)), cached)
  {
    EncodedIsLegal(op, args, labels, pc);
    OperandsOrder(op, args, labels, pc);
    assert ImmOps()[op] in {ADDI, LOAD8, LOAD64};
    hide EncodeInstruction, Operands, ParseRegister, ParseValue, Opcode, Rd, Rs1, Rs2, Imm, Sext44, Imm44, ImmOps, OffsetOp, Exec;
    ExecOffset(m, pc, EncodeInstruction(op, args, labels, pc).value, cached);
  }

  /** `store64 base, source, offset` and its like. */
  lemma StoreMeans(m: Machine, op: string, args: seq<string>, labels: Labels, pc: Word, cached: bool)
    requires op in StoreOps() && |args| == 3 && EncodeInstruction(op, args, labels, pc).Some?
    ensures EncodeInstruction(op, args, labels, pc).value < 0x1_0000_0000_0000_0000
    ensures ParseRegister(args[0]).Some? && ParseRegister(args[1]).Some? && ParseValue(args[2], map[], 0).Some?
    ensures var base, src, imm := ParseRegister(args[0]).value, ParseRegister(args[1]).value, ParseValue(args[2], map[], 0).value;
      Exec(m, pc, EncodeInstruction(op, args, labels, pc).value, cached)
      == OffsetOp(m, pc, StoreOps()[op], 0, base, src, Sext44(Imm44(imm)), cached)
  {
    EncodedIsLegal(op, args, labels, pc);
    OperandsOrder(op, args, labels, pc);
    assert StoreOps()[op] in {STORE8, STORE64};
    hide EncodeInstruction, Operands, ParseRegister, ParseValue, Opcode, Rd, Rs1, Rs2, Imm, Sext44, Imm44, StoreOps, OffsetOp, Exec;
    ExecOffset(m, pc, EncodeInstruction(op, args, labels, pc).value, cached);
  }

  lemma ExecOffset(m: Machine, pc: Word, w: Word, cached: bool)
    requires Opcode(w) in {ADDI, LOAD8, LOAD64, STORE8, STORE64}
    ensures Opcode(w) in {ADDI, LOAD8, LOAD64} ==>
      Exec(m, pc, w, cached) == OffsetOp(m, pc, Opcode(w), Rd(w), Rs1(w), 0, Imm(w), cached)
    ensures Opcode(w) in {STORE8, STORE64} ==>
      Exec(m, pc, w, cached) == OffsetOp(m, pc, Opcode(w), 0, Rs1(w), Rs2(w), Imm(w), cached)
  {
    hide Opcode, Rd, Rs1, Rs2, Imm, AndWord, OrWord, SetReg, Wrap, ExecLoad, ExecStore;
  }

  lemma OperandsOrder(op: string, args: seq<string>, labels: Labels, pc: nat)
    requires |args| == 3
    ensures op in AluOps() ==>
      Operands(op, args, labels, pc)
      == Some(Op(AluOps()[op], ParseRegister(args[0]), ParseRegister(args[1]), ParseRegister(args[2]), NO_IMM))
    ensures op in ImmOps() ==>
      Operands(op, args, labels, pc)
      == Some(Op(ImmOps()[op], ParseRegister(args[0]), ParseRegister(args[1]), R0, ParseValue(args[2], map[], 0)))
    ensures op in StoreOps() ==>
      Operands(op, args, labels, pc)
      == Some(Op(StoreOps()[op], R0, ParseRegister(args[0]), ParseRegister(args[1]), ParseValue(args[2], map[], 0)))
  {
    hide ParseRegister, ParseValue, ParseNumber, ParseJumpTarget;
  }

  // ---- Numbers ------------------------------------------------------------------------------------

  function DigitChar(d: nat): char
    requires d < 16
  {
    if d < 10 then '0' + d as char else 'a' + (d - 10) as char
  }

  /** v written in base radix. */
  function Written(v: nat, radix: nat): (s: string)
    requires 2 <= radix <= 16
    ensures s != []
  {
    if v < radix then [DigitChar(v)] else Written(v / radix, radix) + [DigitChar(v % radix)]
  }

  lemma DivMod(v: nat, radix: nat)
    requires 2 <= radix <= 16 && v >= radix
    ensures v == radix * (v / radix) + v % radix && 0 < v / radix < v && v % radix < radix
  {}

  lemma DigitOfChar(d: nat)
    requires d < 16
    ensures DigitOf(DigitChar(d)) == d && DigitChar(d) != '-' && DigitChar(d) != '+'
  {}

  /** Reading back what was written gives the number, in every base the assembler reads. */
  lemma {:induction false} DigitsRoundTrip(v: nat, radix: nat)
    requires 2 <= radix <= 16
    ensures Digits(Written(v, radix), radix) == Some(v)
    ensures Written(v, radix)[0] != '-' && Written(v, radix)[0] != '+'
  {
    hide DigitChar, DigitOf;
    var s := Written(v, radix);
    if v >= radix {
      DivMod(v, radix);
      DigitOfChar(v % radix);
      DigitsRoundTrip(v / radix, radix);
      assert s[..|s| - 1] == Written(v / radix, radix);
      LastDigit(Written(v / radix, radix), DigitChar(v % radix), radix, v / radix, v % radix);
    } else {
      DigitOfChar(v);
    }
  }

  lemma LastDigit(s: string, c: char, radix: nat, v: nat, d: nat)
    requires s != [] && Digits(s, radix) == Some(v) && DigitOf(c) == d < radix
    ensures Digits(s + [c], radix) == Some(radix * v + d)
  {
    assert (s + [c])[..|s|] == s;
  }

  /** Signed numbers that fit 64 bits come back too; larger ones are rejected. */
  lemma NumberRoundTrip(x: int, radix: nat)
    requires 2 <= radix <= 16
    ensures var s := if x < 0 then ['-'] + Written(-x, radix) else Written(x, radix);
      ParseRadix(s, radix) == if -0x8000_0000_0000_0000 <= x < 0x8000_0000_0000_0000 then Some(x) else None
  {
    var v := if x < 0 then -x else x;
    DigitsRoundTrip(v, radix);
    if x < 0 {
      assert (['-'] + Written(v, radix))[1..] == Written(v, radix);
    }
  }
}
