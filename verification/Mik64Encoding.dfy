// The instruction format: what `encode` packs, the decoder of `step` unpacks.

module Mik64Encoding {
  import opened Bits
  import opened Bytes
  import opened Mik64Mmu
  import opened Mik64Cpu

  /** A field or-ed in just below what is already there. */
  lemma OrField(y: nat, f: nat, k: nat)
    requires f < 16
    ensures Or(Shl(y, k + 4), Shl(f, k)) == Shl(16 * y + f, k)
  {
    ShlShl(y, 4, k);
    Shl4(y);
    OnesLiteral();
    OrShl(Shl(y, 4), f, k);
    OrDisjoint(y, f, 4);
  }

  lemma Shl44(h: nat)
    ensures Shl(h, 44) == 0x1000_0000_0000 * h
  {
    hide Shl;
    ShlLiteral12(h);
    ShlLiteral12(4096 * h);
    ShlLiteral12(0x100_0000 * h);
    ShlShl(h, 12, 12);
    ShlShl(h, 24, 12);
    Shl4(0x10_0000_0000 * h);
    Shl4(0x100_0000_0000 * h);
    ShlShl(h, 36, 4);
    ShlShl(h, 40, 4);
  }

  lemma Ones44()
    ensures Ones(44) == 0x1000_0000_0000 - 1
  {
    var k := 5;
    OnesBytes(k);
    assert Pow256(k) == 0x100_0000_0000 by {
      assert Pow256(2) == 0x1_0000;
      assert Pow256(4) == 0x1_0000_0000;
    }
    var n := 40;
    assert Ones(n + 4) == 1 + 2 * Ones(n + 3) == 3 + 4 * Ones(n + 2) == 7 + 8 * Ones(n + 1);
    assert Ones(n + 1) == 1 + 2 * Ones(n);
  }

  /** The word as a number: the fields never overlap, so or-ing them adds them. */
  lemma EncodeSum(opcode: nat, rd: nat, rs1: nat, rs2: nat, imm: int)
    requires FieldsOk(opcode, rd, rs1, rs2)
    ensures Encode(opcode, rd, rs1, rs2, imm)
         == 0x1000_0000_0000 * (4096 * opcode + 256 * rd + 16 * rs1 + rs2) + Imm44(imm)
    ensures Encode(opcode, rd, rs1, rs2, imm) < 0x1_0000_0000_0000_0000
  {
    hide Shl, Or, Ones;
    OrField(opcode, rd, 52);
    OrField(16 * opcode + rd, rs1, 48);
    OrField(16 * (16 * opcode + rd) + rs1, rs2, 44);
    var h := 16 * (16 * (16 * opcode + rd) + rs1) + rs2;
    Ones44();
    OrDisjoint(h, Imm44(imm), 44);
    Shl44(h);
  }

  lemma SplitFields(h: nat, low: nat)
    requires low < 0x1000_0000_0000
    ensures var w := 0x1000_0000_0000 * h + low;
      && w / 0x1000_0000_0000 == h && w / 0x1_0000_0000_0000 == h / 16 && w / 0x10_0000_0000_0000 == h / 256
      && w / 0x100_0000_0000_0000 == h / 4096 && w % 0x1000_0000_0000 == low
  {
    var w := 0x1000_0000_0000 * h + low;
    assert w / 0x1000_0000_0000 == h;
    assert w / 0x1_0000_0000_0000 == w / 0x1000_0000_0000 / 16;
    assert w / 0x10_0000_0000_0000 == w / 0x1000_0000_0000 / 256;
    assert w / 0x100_0000_0000_0000 == w / 0x1000_0000_0000 / 4096;
  }

  lemma Nibbles(opcode: nat, rd: nat, rs1: nat, rs2: nat)
    requires FieldsOk(opcode, rd, rs1, rs2)
    ensures var h := 4096 * opcode + 256 * rd + 16 * rs1 + rs2;
      h / 4096 == opcode && h / 256 % 16 == rd && h / 16 % 16 == rs1 && h % 16 == rs2
  {
    Nibble(256 * opcode + 16 * rd + rs1, rs2);
    Nibble(16 * opcode + rd, rs1);
    Nibble(opcode, rd);
    var h := 4096 * opcode + 256 * rd + 16 * rs1 + rs2;
    assert h / 256 == h / 16 / 16 && h / 4096 == h / 16 / 16 / 16;
  }

  lemma Nibble(y: nat, f: nat)
    requires f < 16
    ensures (16 * y + f) / 16 == y && (16 * y + f) % 16 == f
  {}

  /** A 44-bit immediate survives truncation and sign extension. */
  lemma ImmRoundTrip(imm: int)
    ensures Sext44(Imm44(imm)) == imm <==> -0x800_0000_0000 <= imm < 0x800_0000_0000
    ensures Sext44(Imm44(imm)) % 0x1000_0000_0000 == imm % 0x1000_0000_0000
  {}

  /** Decoding an encoded word gives back every field; the immediate comes back exactly when it
      fits 44 signed bits. */
  lemma DecodeEncode(opcode: nat, rd: nat, rs1: nat, rs2: nat, imm: int)
    requires FieldsOk(opcode, rd, rs1, rs2)
    ensures Encode(opcode, rd, rs1, rs2, imm) < 0x1_0000_0000_0000_0000
    ensures var w := Encode(opcode, rd, rs1, rs2, imm);
      && Opcode(w) == opcode && Rd(w) == rd && Rs1(w) == rs1 && Rs2(w) == rs2
      && (Imm(w) == imm <==> -0x800_0000_0000 <= imm < 0x800_0000_0000)
  {
    EncodeSum(opcode, rd, rs1, rs2, imm);
    hide Encode, Imm44;
    var h := 4096 * opcode + 256 * rd + 16 * rs1 + rs2;
    assert Imm44(imm) < 0x1000_0000_0000 by { ImmBound(imm); }
    SplitFields(h, Imm44(imm));
    Nibbles(opcode, rd, rs1, rs2);
    ImmRoundTrip(imm);
    SextLow(Encode(opcode, rd, rs1, rs2, imm), Imm44(imm));
  }

  lemma ImmBound(imm: int)
    ensures Imm44(imm) < 0x1000_0000_0000
  {}

  lemma SextLow(w: nat, low: nat)
    requires w % 0x1000_0000_0000 == low
    ensures Sext44(w) == Sext44(low)
  {}

  // ---- Where a branch goes ----------------------------------------------------------------

  /** Rust's `/ 8` on a signed number. */
  function TruncDiv8(d: int): int { if d >= 0 then d / 8 else -(-d / 8) }

  lemma EncodedImm(opcode: nat, rd: nat, rs1: nat, rs2: nat, imm: int)
    requires FieldsOk(opcode, rd, rs1, rs2)
    ensures Encode(opcode, rd, rs1, rs2, imm) < 0x1_0000_0000_0000_0000
    ensures Imm(Encode(opcode, rd, rs1, rs2, imm)) == Sext44(Imm44(imm))
  {
    EncodeSum(opcode, rd, rs1, rs2, imm);
    hide Encode, Imm44, Sext44;
    ImmBound(imm);
    SplitFields(4096 * opcode + 256 * rd + 16 * rs1 + rs2, Imm44(imm));
    SextLow(Encode(opcode, rd, rs1, rs2, imm), Imm44(imm));
  }

  lemma SextBound(v: nat)
    ensures -0x800_0000_0000 <= Sext44(v) < 0x800_0000_0000
  {}

  /** The target is a whole number of words away and the offset fits 44 signed bits. */
  predicate InReach(pc: nat, target: nat) {
    (target - pc) % 8 == 0 && -0x800_0000_0000 <= TruncDiv8(target - pc) < 0x800_0000_0000
  }

  /** A branch whose immediate was computed as (target - base) / 8 reaches the target exactly when
      the distance is a whole number of words that fits 44 signed bits. */
  lemma BranchReaches(base: nat, target: nat, imm: int)
    requires base < 0x4000_0000_0000_0000 && target < 0x4000_0000_0000_0000 && imm == TruncDiv8(target - base)
    ensures Wrap(base + Sext44(Imm44(imm)) * 8) == target
       <==> (target - base) % 8 == 0 && -0x800_0000_0000 <= imm < 0x800_0000_0000
  {
    hide Sext44, Imm44;
    ImmRoundTrip(imm);
    var s := Sext44(Imm44(imm));
    SextBound(Imm44(imm));
    WrapNear(base + s * 8, target);
    if target - base == s * 8 {
      assert TruncDiv8(target - base) == s;
    }
  }

  lemma WrapNear(x: int, target: nat)
    requires target < 0x4000_0000_0000_0000 && -0x1000_0000_0000_0000 <= x < 0x5000_0000_0000_0000
    ensures Wrap(x) == target <==> x == target
  {}

  lemma AddressLoads(a: nat)
    requires a < 0x4000_0000_0000_0000
    ensures Wrap(Sext44(Imm44(a))) == a <==> a < 0x800_0000_0000
  {}

  /** The machine takes the branch w. */
  predicate TakesBranch(m: Machine, w: Word) {
    || Opcode(w) == JMP
    || (Opcode(w) == BEQ && m.regs[Rs1(w)] == m.regs[Rs2(w)])
    || (Opcode(w) == BNE && m.regs[Rs1(w)] != m.regs[Rs2(w)])
  }

  lemma TakenBranch(m: Machine, w: Word, pc: Word, target: Word, cached: bool)
    requires TakesBranch(m, w) && Imm(w) == Sext44(Imm44(TruncDiv8(target - pc)))
    requires pc < 0x4000_0000_0000_0000 && target < 0x4000_0000_0000_0000
    ensures var d := Exec(m, pc, w, cached);
      d.Next? && (d.m.pc == target <==> InReach(pc, target))
  {
    hide Opcode, Rd, Rs1, Rs2, Imm, Sext44, Imm44, Wrap, ExecLoad, ExecStore, TruncDiv8;
    BranchReaches(pc, target, TruncDiv8(target - pc));
  }
}
