// The kernel builder's one-pass assembler with label fix-ups, and what a
// resolved branch or li does when the machine executes it.

module Mik64Asm {
  import opened Bits
  import opened Bytes
  import opened Mik64Mmu
  import opened Mik64Cpu
  import opened Mik64Encoding
  import opened LoadedCode

  // ---- Replacing an immediate --------------------------------------------------------

  /** `(old & !mask) | (imm & mask)`. */
  function WithImm(w: Word, imm: int): nat { Or(And(w, 0xFFFF_F000_0000_0000), Imm44(imm)) }

  lemma {:induction false} LowSmall(a: nat, n: nat)
    requires a <= Ones(n)
    ensures Low(a, n) == a
  {
    if n > 0 {
      LowSmall(a / 2, n - 1);
    }
  }

  lemma {:induction false} ShrShr(a: nat, j: nat, k: nat)
    ensures Shr(a, j + k) == Shr(Shr(a, j), k)
    decreases j
  {
    if j > 0 {
      ShrShr(a / 2, j - 1, k);
    }
  }

  lemma Shr44(a: nat)
    ensures Shr(a, 44) == a / 0x1000_0000_0000
  {
    hide Shr;
    ShrShr(a, 12, 32);
    ShrLiteral12(a);
    ShrShr(a / 4096, 12, 20);
    ShrLiteral12(a / 4096);
    ShrShr(a / 0x100_0000, 12, 8);
    ShrLiteral12(a / 0x100_0000);
    Shr8(a / 0x10_0000_0000);
    assert a / 4096 / 4096 == a / 0x100_0000;
    assert a / 0x100_0000 / 4096 == a / 0x10_0000_0000;
    assert a / 0x10_0000_0000 / 256 == a / 0x1000_0000_0000;
  }

  lemma Shr8(a: nat)
    ensures Shr(a, 8) == a / 256
  {
    Shr4(a, 4);
    Shr4(a / 16, 0);
  }

  lemma Ones20()
    ensures Ones(20) == 0xF_FFFF
  {
    var n := 12;
    Ones8(n);
    Ones8(4);
    OnesLiteral();
  }

  /** The high twenty bits are kept and the immediate replaced. */
  lemma WithImmSum(w: Word, imm: int)
    ensures WithImm(w, imm) == w / 0x1000_0000_0000 * 0x1000_0000_0000 + Imm44(imm)
  {
    hide And, Or, Shl, Shr, Low, Ones;
    var h := w / 0x1000_0000_0000;
    Ones20();
    Shl44(Ones(20));
    AndShl(w, Ones(20), 44);
    Shr44(w);
    AndOnes(h, 20);
    LowSmall(h, 20);
    Ones44();
    OrDisjoint(h, Imm44(imm), 44);
    Shl44(h);
  }

  /** Patching an encoded instruction is encoding it with the other immediate. */
  lemma PatchEncoded(opcode: nat, rd: nat, rs1: nat, rs2: nat, imm: int, imm': int)
    requires FieldsOk(opcode, rd, rs1, rs2)
    ensures Encode(opcode, rd, rs1, rs2, imm) < 0x1_0000_0000_0000_0000
    ensures WithImm(Encode(opcode, rd, rs1, rs2, imm), imm') == Encode(opcode, rd, rs1, rs2, imm')
  {
    hide Encode, Imm44, WithImm;
    EncodeSum(opcode, rd, rs1, rs2, imm);
    EncodeSum(opcode, rd, rs1, rs2, imm');
    WithImmSum(Encode(opcode, rd, rs1, rs2, imm), imm');
    ImmBound(imm);
    SplitFields(4096 * opcode + 256 * rd + 16 * rs1 + rs2, Imm44(imm));
  }

  // ---- The assembler object -------------------------------------------------------------

  datatype Kind = ToJmp | ToBeq | ToBne | ToLi
  datatype Fixup = Fixup(idx: nat, target: string, kind: Kind, r1: nat, r2: nat)

  function OpcodeOf(k: Kind): nat {
    match k
    case ToJmp => JMP
    case ToBeq => BEQ
    case ToBne => BNE
    case ToLi => LI
  }

  /** The instruction a fix-up belongs to, with that immediate. */
  function FixupWord(f: Fixup, imm: int): nat
  {
    if f.kind == ToLi then Encode(LI, f.r1, 0, 0, imm) else Encode(OpcodeOf(f.kind), 0, f.r1, f.r2, imm)
  }

  /** Branches count words from the branch; li takes the absolute address. */
  function FixupImm(f: Fixup, t: nat, loadAddr: nat): int {
    if f.kind == ToLi then loadAddr + t * 8 else t - f.idx
  }

  lemma FixupWordPatch(f: Fixup, imm: int)
    requires f.r1 < 16 && f.r2 < 16
    ensures FixupWord(f, 0) < 0x1_0000_0000_0000_0000 && FixupWord(f, imm) < 0x1_0000_0000_0000_0000
    ensures WithImm(FixupWord(f, 0), imm) == FixupWord(f, imm)
  {
    hide Encode, WithImm;
    if f.kind == ToLi {
      PatchEncoded(LI, f.r1, 0, 0, 0, imm);
      PatchEncoded(LI, f.r1, 0, 0, imm, imm);
    } else {
      PatchEncoded(OpcodeOf(f.kind), 0, f.r1, f.r2, 0, imm);
      PatchEncoded(OpcodeOf(f.kind), 0, f.r1, f.r2, imm, imm);
    }
  }

  /** The instruction as emitted, with immediate 0. */
  function PendingWord(kind: Kind, r1: nat, r2: nat): Word
    requires r1 < 16 && r2 < 16
  {
    FixupWordPatch(Fixup(0, "", kind, r1, r2), 0);
    FixupWord(Fixup(0, "", kind, r1, r2), 0)
  }

  lemma PendingIs(f: Fixup)
    requires f.r1 < 16 && f.r2 < 16
    ensures PendingWord(f.kind, f.r1, f.r2) == FixupWord(f, 0)
  {}

  class Asm {
    var code: seq<Word>
    var labels: map<string, nat>
    var unresolved: seq<Fixup>

    /** Pending fix-ups: one an instruction, each still holding immediate 0. */
    ghost predicate Valid()
      reads this
    {
      && (forall k | 0 <= k < |unresolved| :: Pending(code, unresolved[k]))
      && (forall j, k | 0 <= j < k < |unresolved| :: unresolved[j].idx < unresolved[k].idx)
      && (forall name | name in labels :: labels[name] <= |code|)
    }

    constructor ()
      ensures Valid() && code == [] && labels == map[] && unresolved == []
    {
      code, labels, unresolved := [], map[], [];
    }

    /** The name stands for the next word emitted. */
    method Label(name: string)
      requires Valid()
      modifies this`labels
      ensures Valid() && labels == old(labels)[name := |code|]
    {
      labels := labels[name := |code|];
    }

    method Emit(word: Word)
      requires Valid()
      modifies this`code
      ensures Valid() && code == old(code) + [word]
    {
      code := code + [word];
    }

    /** Emit an instruction whose immediate waits for a label. */
    method EmitFixup(kind: Kind, r1: nat, r2: nat, target: string)
      requires Valid() && r1 < 16 && r2 < 16
      modifies this`code, this`unresolved
      ensures Valid() && code == old(code) + [PendingWord(kind, r1, r2)]
      ensures unresolved == old(unresolved) + [Fixup(|old(code)|, target, kind, r1, r2)]
    {
      hide FixupWord;
      var f := Fixup(|code|, target, kind, r1, r2);
      FixupWordPatch(f, 0);
      PendingIs(f);
      code := code + [PendingWord(kind, r1, r2)];
      unresolved := unresolved + [f];
    }

    method Jmp(target: string)
      requires Valid()
      modifies this`code, this`unresolved
      ensures Valid() && code == old(code) + [PendingWord(ToJmp, 0, 0)]
      ensures unresolved == old(unresolved) + [Fixup(|old(code)|, target, ToJmp, 0, 0)]
    {
      EmitFixup(ToJmp, 0, 0, target);
    }

    method Beq(rs1: nat, rs2: nat, target: string)
      requires Valid() && rs1 < 16 && rs2 < 16
      modifies this`code, this`unresolved
      ensures Valid() && code == old(code) + [PendingWord(ToBeq, rs1, rs2)]
      ensures unresolved == old(unresolved) + [Fixup(|old(code)|, target, ToBeq, rs1, rs2)]
    {
      EmitFixup(ToBeq, rs1, rs2, target);
    }

    method Bne(rs1: nat, rs2: nat, target: string)
      requires Valid() && rs1 < 16 && rs2 < 16
      modifies this`code, this`unresolved
      ensures Valid() && code == old(code) + [PendingWord(ToBne, rs1, rs2)]
      ensures unresolved == old(unresolved) + [Fixup(|old(code)|, target, ToBne, rs1, rs2)]
    {
      EmitFixup(ToBne, rs1, rs2, target);
    }

    method Li(rd: nat, target: string)
      requires Valid() && rd < 16
      modifies this`code, this`unresolved
      ensures Valid() && code == old(code) + [PendingWord(ToLi, rd, 0)]
      ensures unresolved == old(unresolved) + [Fixup(|old(code)|, target, ToLi, rd, 0)]
    {
      EmitFixup(ToLi, rd, 0, target);
    }

    /** Replace the immediate of one word. */
    method PatchImm(idx: nat, imm: int)
      requires idx < |code|
      modifies this`code
      ensures code == old(code)[idx := Patched(old(code)[idx], imm)]
    {
      code := code[idx := Patched(code[idx], imm)];
    }

    /** Patch every pending instruction; false is the panic on an undefined label. */
    method Resolve(loadAddr: nat) returns (ok: bool)
      requires Valid()
      modifies this`code
      ensures ok <==> forall k | 0 <= k < |unresolved| :: unresolved[k].target in labels
      ensures ok ==> |code| == |old(code)| && Resolved(code, labels, unresolved, loadAddr)
      ensures ok ==> forall i | 0 <= i < |code| && !IsPending(unresolved, i) :: code[i] == old(code)[i]
    {
      hide FixupWord, FixupImm, WithImm, IsPending, Fixed;
      var k := 0;
      while k < |unresolved|
        invariant 0 <= k <= |unresolved| && |code| == |old(code)|
        invariant forall j | 0 <= j < k :: unresolved[j].target in labels
        invariant Resolved(code, labels, unresolved[..k], loadAddr)
        invariant forall i | 0 <= i < |code| && !IsPending(unresolved[..k], i) :: code[i] == old(code)[i]
      {
        var f := unresolved[k];
        if f.target !in labels {
          return false;
        }
        var imm := FixupImm(f, labels[f.target], loadAddr);
        ghost var before := code;
        NotYetPending(unresolved, k);
        assert Pending(old(code), f);
        assert before[f.idx] == old(code)[f.idx] == FixupWord(f, 0);
        FixupWordPatch(f, imm);
        PatchImm(f.idx, imm);
        OnePending(unresolved, k, old(code), before, code, f.idx);
        NowFixed(code, labels, f, loadAddr);
        ResolveOne(before, code, labels, unresolved, k, loadAddr);
        k := k + 1;
      }
      assert unresolved[..k] == unresolved;
      return true;
    }

    method Binary(tail: seq<u8>) returns (program: seq<u8>)
      ensures program == WordBytes(code) + tail
    {
      program := [];
      var k := 0;
      while k < |code|
        invariant 0 <= k <= |code| && program == WordBytes(code[..k])
      {
        program := program + LeBytes(code[k], 8);
        assert code[..k + 1][..k] == code[..k];
        k := k + 1;
      }
      assert code[..k] == code;
      program := program + tail;
    }
  }

  function Patched(w: Word, imm: int): Word {
    WithImmSum(w, imm);
    ImmBound(imm);
    WithImm(w, imm)
  }

  ghost predicate Pending(code: seq<Word>, f: Fixup) {
    f.idx < |code| && f.r1 < 16 && f.r2 < 16 && code[f.idx] == FixupWord(f, 0)
  }

  ghost predicate IsPending(fs: seq<Fixup>, i: int) { exists k | 0 <= k < |fs| :: fs[k].idx == i }

  /** Every fix-up's instruction has the immediate of its label. */
  ghost predicate Resolved(code: seq<Word>, labels: map<string, nat>, fs: seq<Fixup>, loadAddr: nat) {
    forall k | 0 <= k < |fs| :: Fixed(code, labels, fs[k], loadAddr)
  }

  ghost predicate Fixed(code: seq<Word>, labels: map<string, nat>, f: Fixup, loadAddr: nat) {
    f.target in labels && f.idx < |code| && code[f.idx] == FixupWord(f, FixupImm(f, labels[f.target], loadAddr))
  }

  lemma NowFixed(code: seq<Word>, labels: map<string, nat>, f: Fixup, loadAddr: nat)
    requires f.target in labels && f.idx < |code| && code[f.idx] == FixupWord(f, FixupImm(f, labels[f.target], loadAddr))
    ensures Fixed(code, labels, f, loadAddr)
  {}

  lemma NotYetPending(fs: seq<Fixup>, k: nat)
    requires k < |fs| && forall i, j | 0 <= i < j < |fs| :: fs[i].idx < fs[j].idx
    ensures !IsPending(fs[..k], fs[k].idx)
  {}

  lemma OnePending(fs: seq<Fixup>, k: nat, code0: seq<Word>, code: seq<Word>, code': seq<Word>, idx: nat)
    requires k < |fs| && |code0| == |code| == |code'| && idx == fs[k].idx < |code|
    requires forall i | 0 <= i < |code| && i != idx :: code'[i] == code[i]
    requires forall i | 0 <= i < |code| && !IsPending(fs[..k], i) :: code[i] == code0[i]
    ensures forall i | 0 <= i < |code| && !IsPending(fs[..k + 1], i) :: code'[i] == code0[i]
  {
    assert fs[..k + 1][k] == fs[k];
    forall i | 0 <= i < |code| && !IsPending(fs[..k + 1], i) ensures code'[i] == code0[i] {
      assert i != idx;
      if IsPending(fs[..k], i) {
        PrefixPending(fs, k, i);
      }
    }
  }

  lemma PrefixPending(fs: seq<Fixup>, k: nat, i: int)
    requires k < |fs| && IsPending(fs[..k], i)
    ensures IsPending(fs[..k + 1], i)
  {
    var j :| 0 <= j < k && fs[..k][j].idx == i;
    assert fs[..k + 1][j].idx == i;
  }

  lemma ResolveOne(code: seq<Word>, code': seq<Word>, labels: map<string, nat>, fs: seq<Fixup>, k: nat, loadAddr: nat)
    requires k < |fs| && |code'| == |code| && Resolved(code, labels, fs[..k], loadAddr)
    requires forall i, j | 0 <= i < j < |fs| :: fs[i].idx < fs[j].idx
    requires forall i | 0 <= i < |code| && i != fs[k].idx :: code'[i] == code[i]
    requires Fixed(code', labels, fs[k], loadAddr)
    ensures Resolved(code', labels, fs[..k + 1], loadAddr)
  {
    hide FixupWord, FixupImm;
    var part := fs[..k + 1];
    forall j | 0 <= j < |part| ensures Fixed(code', labels, part[j], loadAddr) {
      if j < k {
        assert part[j] == fs[..k][j];
        assert Fixed(code, labels, fs[..k][j], loadAddr);
      }
    }
  }

  function WordBytes(code: seq<Word>): (b: seq<u8>)
    ensures |b| == 8 * |code|
  {
    if code == [] then [] else WordBytes(code[..|code| - 1]) + LeBytes(code[|code| - 1], 8)
  }

  // ---- Executing a resolved instruction ---------------------------------------------------

  /** Program addresses stay in the low quarter of the address space. */
  predicate Loaded(loadAddr: nat, n: nat) { loadAddr + 8 * n < 0x4000_0000_0000_0000 }

  /** A resolved jmp, or a resolved beq or bne that is taken, lands on its label exactly when the
      label is less than 2^43 words away. */
  lemma ResolvedBranch(m: Machine, f: Fixup, t: nat, n: nat, loadAddr: nat, cached: bool)
    requires f.r1 < 16 && f.r2 < 16 && f.idx < n && t <= n && Loaded(loadAddr, n) && f.kind != ToLi
    ensures FixupWord(f, FixupImm(f, t, loadAddr)) < 0x1_0000_0000_0000_0000
    ensures var w := FixupWord(f, FixupImm(f, t, loadAddr));
      TakesBranch(m, w) ==>
        var d := Exec(m, loadAddr + 8 * f.idx, w, cached);
        d.Next? && (d.m.pc == loadAddr + 8 * t <==> -0x800_0000_0000 <= t - f.idx < 0x800_0000_0000)
  {
    hide Encode, Opcode, Rd, Rs1, Rs2, Sext44, Imm44, Imm, Exec, TakesBranch;
    var imm := t - f.idx;
    DecodeEncode(OpcodeOf(f.kind), 0, f.r1, f.r2, imm);
    EncodedImm(OpcodeOf(f.kind), 0, f.r1, f.r2, imm);
    var w := FixupWord(f, FixupImm(f, t, loadAddr));
    if TakesBranch(m, w) {
      TakenBranch(m, w, loadAddr + 8 * f.idx, loadAddr + 8 * t, cached);
    }
  }

  /** A resolved li loads the address of its label, exactly when that is less than 2^43. */
  lemma ResolvedLi(m: Machine, f: Fixup, t: nat, n: nat, loadAddr: nat, cached: bool)
    requires f.kind == ToLi && f.r1 < 16 && f.r2 < 16 && f.idx < n && t <= n && Loaded(loadAddr, n)
    ensures FixupWord(f, FixupImm(f, t, loadAddr)) < 0x1_0000_0000_0000_0000
    ensures var d := Exec(m, loadAddr + 8 * f.idx, FixupWord(f, FixupImm(f, t, loadAddr)), cached);
      d.Next? && (d.m.regs[f.r1] == loadAddr + 8 * t <==> loadAddr + 8 * t < 0x800_0000_0000)
  {
    hide Encode, Opcode, Rd, Rs1, Rs2, Sext44, Imm44, Wrap, ExecLoad, ExecStore;
    var a := loadAddr + 8 * t;
    DecodeEncode(LI, f.r1, 0, 0, a);
    EncodedImm(LI, f.r1, 0, 0, a);
    AddressLoads(a);
  }

  // ---- The loaded binary, fetched and stepped ----------------------------------------------

  lemma {:induction false} BytesOfWord(code: seq<Word>, i: nat)
    requires i < |code|
    ensures WordBytes(code)[8 * i..8 * i + 8] == LeBytes(code[i], 8)
  {
    var k := |code| - 1;
    if i == k {
      assert WordBytes(code)[8 * i..8 * i + 8] == LeBytes(code[k], 8);
    } else {
      BytesOfWord(code[..k], i);
      assert WordBytes(code)[8 * i..8 * i + 8] == WordBytes(code[..k])[8 * i..8 * i + 8];
    }
  }

  /** The machine is about to fetch the instruction of fix-up f in a resolved binary. */
  ghost predicate AtFixup(m: Machine, code: seq<Word>, tail: seq<u8>, labels: map<string, nat>, f: Fixup, loadAddr: nat, cached: bool) {
    && Fixed(code, labels, f, loadAddr) && f.r1 < 16 && f.r2 < 16 && labels[f.target] <= |code| && Loaded(loadAddr, |code|)
    && m.pc == loadAddr + 8 * f.idx && InPlace(m, WordBytes(code) + tail, loadAddr, cached) && !Interrupted(m)
  }

  lemma FixupStep(m: Machine, code: seq<Word>, tail: seq<u8>, labels: map<string, nat>, f: Fixup, loadAddr: nat, cached: bool)
    requires AtFixup(m, code, tail, labels, f, loadAddr, cached)
    ensures Fetched(m, cached).reply.Pa? && Advanced(m, cached).regs == m.regs
    ensures Step(m, cached)
         == if m.pc % 8 != 0 then Err
            else Finish(Exec(Advanced(m, cached), m.pc, code[f.idx], cached))
  {
    hide Exec, Finish, Fetched, FixupWord, FixupImm, Step;
    BytesOfWord(code, f.idx);
    var image := WordBytes(code) + tail;
    assert image[8 * f.idx..8 * f.idx + 8] == WordBytes(code)[8 * f.idx..8 * f.idx + 8];
    StepsWord(m, image, loadAddr, code[f.idx], cached);
  }

  /** The branch of a fix-up is taken. */
  predicate Takes(m: Machine, f: Fixup)
    requires f.r1 < 16 && f.r2 < 16
  {
    f.kind == ToJmp || (f.kind == ToBeq && m.regs[f.r1] == m.regs[f.r2]) || (f.kind == ToBne && m.regs[f.r1] != m.regs[f.r2])
  }

  lemma TakesMeans(m: Machine, f: Fixup, imm: int)
    requires f.r1 < 16 && f.r2 < 16 && f.kind != ToLi
    ensures FixupWord(f, imm) < 0x1_0000_0000_0000_0000
    ensures TakesBranch(m, FixupWord(f, imm)) <==> Takes(m, f)
  {
    hide Encode, Opcode, Rd, Rs1, Rs2, Imm;
    DecodeEncode(OpcodeOf(f.kind), 0, f.r1, f.r2, imm);
  }

  /** Resolved, written out, loaded, fetched, stepped: a branch of the kernel, if taken, goes to its
      label exactly when that is less than 2^43 words away.  At a load address that is no multiple
      of 8 the fetch is an error. */
  lemma StepResolved(m: Machine, code: seq<Word>, tail: seq<u8>, labels: map<string, nat>, f: Fixup, loadAddr: nat, cached: bool)
    requires AtFixup(m, code, tail, labels, f, loadAddr, cached) && f.kind != ToLi
    ensures m.pc % 8 != 0 ==> Step(m, cached) == Err
    ensures m.pc % 8 == 0 && Takes(m, f) ==>
      var d, t := Step(m, cached), labels[f.target];
      d.Ok? && (d.m.pc == loadAddr + 8 * t <==> -0x800_0000_0000 <= t - f.idx < 0x800_0000_0000)
  {
    hide InPlace, Fetched, Step, Exec, FixupWord, Retire, TakesBranch;
    FixupStep(m, code, tail, labels, f, loadAddr, cached);
    var a, t := Advanced(m, cached), labels[f.target];
    TakesMeans(a, f, FixupImm(f, t, loadAddr));
    ResolvedBranch(a, f, t, |code|, loadAddr, cached);
    if m.pc % 8 == 0 && Takes(m, f) {
      RetireKeeps(Exec(a, m.pc, code[f.idx], cached).m);
    }
  }

  /** The same for li: it loads its label's address exactly when that is below 2^43. */
  lemma StepResolvedLi(m: Machine, code: seq<Word>, tail: seq<u8>, labels: map<string, nat>, f: Fixup, loadAddr: nat, cached: bool)
    requires AtFixup(m, code, tail, labels, f, loadAddr, cached) && f.kind == ToLi
    ensures m.pc % 8 != 0 ==> Step(m, cached) == Err
    ensures m.pc % 8 == 0 && f.r1 != 0 ==>
      var d, t := Step(m, cached), labels[f.target];
      d.Ok? && (d.m.regs[f.r1] == loadAddr + 8 * t <==> loadAddr + 8 * t < 0x800_0000_0000)
  {
    hide InPlace, Fetched, Step, Exec, FixupWord, Retire;
    FixupStep(m, code, tail, labels, f, loadAddr, cached);
    var a, t := Advanced(m, cached), labels[f.target];
    ResolvedLi(a, f, t, |code|, loadAddr, cached);
    if m.pc % 8 == 0 {
      RetireKeeps(Exec(a, m.pc, code[f.idx], cached).m);
    }
  }
}
