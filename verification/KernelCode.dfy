// Straight-line kernel code, given as a listing of instructions: one lemma for
// every kind of instruction, each extending a gentle run of the flat machine.

module KernelCode {
  import opened Bits
  import opened Mik64Mmu
  import opened Mik64Cpu
  import opened Mik64Bisim
  import opened FlatCode
  import opened SupervisorCode

  /** The instructions of `code` lie in memory from p on. */
  ghost predicate Listing(mem: Ram8, p: nat, code: seq<Ins>) {
    p + 8 * |code| <= RAM_SIZE && forall k: nat | k < |code| :: At(mem, p + 8 * k, code[k])
  }

  /** n words at p are within reach of the kernel and away from the leaf tables. */
  predicate Fits(p: nat, n: nat, v: Env) { EnvOk(v) && p + 8 * n <= v.top && Apart(p, 8 * n, v.lo, v.hi - v.lo) }

  ghost predicate Code(mem: Ram8, p: nat, code: seq<Ins>, v: Env) { Listing(mem, p, code) && Fits(p, |code|, v) }

  /** After n gentle steps from m, the flat machine is about to execute instruction k of the code at p. */
  ghost predicate Reaches(m: Machine, n: nat, s: Machine, p: nat, code: seq<Ins>, k: nat, v: Env) {
    Glides(m, n, s, v) && Flat(s) && Code(s.mem, p, code, v) && k < |code| && s.pc == p + 8 * k
  }

  lemma Listed(mem: Ram8, p: nat, code: seq<Ins>, k: nat, v: Env)
    requires Code(mem, p, code, v) && k < |code|
    ensures At(mem, p + 8 * k, code[k]) && InsOk(code[k]) && p + 8 * k + 8 <= v.top <= RAM_SIZE
    ensures EnvOk(v) && Apart(p + 8 * k, 8, v.lo, v.hi - v.lo)
  {}

  /** Part of a listing is a listing. */
  lemma CodePart(mem: Ram8, p: nat, a: seq<Ins>, b: seq<Ins>, c: seq<Ins>, v: Env)
    requires Code(mem, p, a + b + c, v)
    ensures Code(mem, p + 8 * |a|, b, v)
  {
    hide At;
    var all := a + b + c;
    forall k: nat | k < |b| ensures At(mem, p + 8 * |a| + 8 * k, b[k]) {
      assert all[|a| + k] == b[k];
      assert At(mem, p + 8 * (|a| + k), all[|a| + k]);
    }
  }

  /** A store that misses the code leaves it. */
  lemma CodeKept(mem: Ram8, p: nat, code: seq<Ins>, v: Env, a: nat, w: Word)
    requires Code(mem, p, code, v) && a + 8 <= RAM_SIZE && Apart(p, 8 * |code|, a, 8)
    ensures Code(Write64(mem, a, w), p, code, v)
  {
    hide Write64, Read64, WordOf;
    forall k: nat | k < |code| ensures At(Write64(mem, a, w), p + 8 * k, code[k]) {
      Listed(mem, p, code, k, v);
      ReadApart(mem, a, w, p + 8 * k);
    }
  }

  /** So do marks in the leaf tables. */
  lemma CodeAlike(mem: Ram8, mem': Ram8, p: nat, code: seq<Ins>, v: Env)
    requires Code(mem, p, code, v) && Alike(mem, mem', v)
    ensures Code(mem', p, code, v)
  {
    hide Alike, At;
    forall k: nat | k < |code| ensures At(mem', p + 8 * k, code[k]) {
      Listed(mem, p, code, k, v);
      AtKept(mem, mem', p + 8 * k, code[k], v);
    }
  }

  /** One more gentle step. */
  lemma ThenStep(m: Machine, n: nat, s: Machine, i: Ins, d: Machine, v: Env)
    requires Glides(m, n, s, v) && Gentle(s, i, v) && !s.halted && Step(s, false) == Ok(d)
    ensures Glides(m, n + 1, d, v)
  {
    hide Step, Gentle, Glides;
    GlidesRefl(d, v);
    GlidesStep(s, i, d, 0, d, v);
    GlidesThen(m, n, s, 1, d, v);
  }

  lemma ThenReg(m: Machine, n: nat, s: Machine, p: nat, code: seq<Ins>, k: nat, v: Env)
    requires Reaches(m, n, s, p, code, k, v) && code[k].rd != 0 && code[k].opcode in {LI, ADD, ADDI, AND, OR}
    ensures InsOk(code[k]) && p + 8 * k + 8 <= RAM_SIZE
    ensures var d := Moved(s, p + 8 * k + 8, code[k].rd, Result(s, code[k])); Glides(m, n + 1, d, v) && Flat(d)
  {
    hide Step, At, Glides, Code, Result;
    Listed(s.mem, p, code, k, v);
    RegStep(s, code[k], false);
    ThenStep(m, n, s, code[k], Moved(s, p + 8 * k + 8, code[k].rd, Result(s, code[k])), v);
  }

  lemma ThenLoad(m: Machine, n: nat, s: Machine, p: nat, code: seq<Ins>, k: nat, a: nat, v: Env)
    requires Reaches(m, n, s, p, code, k, v) && code[k].rd != 0 && code[k].opcode == LOAD64 && WordOk(a, v)
    requires InsOk(code[k]) ==> a == s.regs[code[k].rs1] + code[k].imm
    ensures InsOk(code[k]) && p + 8 * k + 8 <= RAM_SIZE
    ensures var d := Moved(s, p + 8 * k + 8, code[k].rd, Read64(s.mem, a)); Glides(m, n + 1, d, v) && Flat(d)
  {
    hide Step, At, Glides, Code, Plus, Read64;
    Listed(s.mem, p, code, k, v);
    PlusSmall(s.regs[code[k].rs1], code[k].imm);
    LoadStep(s, code[k], a, false);
    ThenStep(m, n, s, code[k], Moved(s, p + 8 * k + 8, code[k].rd, Read64(s.mem, a)), v);
  }

  lemma ThenStore(m: Machine, n: nat, s: Machine, p: nat, code: seq<Ins>, k: nat, a: nat, v: Env)
    requires Reaches(m, n, s, p, code, k, v) && code[k].opcode == STORE64
    requires InsOk(code[k]) ==> a == s.regs[code[k].rs1] + code[k].imm
    requires a + 8 <= v.top && Harmless(s.mem, Root(s), a, v.tables) && Apart(p, 8 * |code|, a, 8)
    ensures InsOk(code[k]) && s.pc + 8 <= RAM_SIZE
    ensures var d := Stored(s, a, s.regs[code[k].rs2]);
      Glides(m, n + 1, d, v) && Flat(d) && Code(d.mem, p, code, v)
  {
    hide Step, At, Glides, Plus, Harmless, Write64, Listing;
    Listed(s.mem, p, code, k, v);
    PlusSmall(s.regs[code[k].rs1], code[k].imm);
    StoreStep(s, code[k], a, false);
    CodeKept(s.mem, p, code, v, a, s.regs[code[k].rs2]);
    ThenStep(m, n, s, code[k], Stored(s, a, s.regs[code[k].rs2]), v);
  }

  lemma ThenJump(m: Machine, n: nat, s: Machine, p: nat, code: seq<Ins>, k: nat, v: Env)
    requires Reaches(m, n, s, p, code, k, v) && code[k].opcode in {BEQ, BNE, JMP, JMPR}
    ensures InsOk(code[k])
    ensures var d := s.(pc := NextPc(s, code[k])); Glides(m, n + 1, d, v) && Flat(d)
  {
    hide Step, At, Glides, Code, NextPc;
    Listed(s.mem, p, code, k, v);
    JumpStep(s, code[k], false);
    ThenStep(m, n, s, code[k], s.(pc := NextPc(s, code[k])), v);
  }

  lemma ThenFence(m: Machine, n: nat, s: Machine, p: nat, code: seq<Ins>, k: nat, v: Env)
    requires Reaches(m, n, s, p, code, k, v) && code[k].opcode == SFENCE
    ensures p + 8 * k + 8 <= RAM_SIZE
    ensures var d := FlushTlb(s.(pc := p + 8 * k + 8)); Glides(m, n + 1, d, v) && Flat(d)
  {
    hide Step, At, Glides, Code, FlushTlb;
    Listed(s.mem, p, code, k, v);
    FenceStep(s, code[k], false);
    ThenStep(m, n, s, code[k], FlushTlb(s.(pc := p + 8 * k + 8)), v);
  }

  /** Bits below the page offset are added by or. */
  lemma OrLow(a: Word, x: Word)
    requires a % 4096 == 0 && x < 4096
    ensures OrWord(a, x) == a + x
  {
    hide Or, Shl, Ones;
    ShlLiteral12(a / 4096);
    OnesLiteral();
    var n := 4;
    Ones8(n);
    OrDisjoint(a / 4096, x, 12);
  }
}
