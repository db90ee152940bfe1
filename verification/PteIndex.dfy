// The kernel's shift-free computation of a page-table entry's address, at the
// start of its page-fault handler, with paging on or off.

module PteIndex {
  import opened Bits
  import opened Mik64Mmu
  import opened Mik64Cpu
  import opened FlatCode
  import opened SupervisorCode
  import opened KernelCode

  const CUR_SLOT := 0x70_0040
  const SLOT_PT4 := 128

  /** From the page-index mask down to the label pf_gotidx. */
  function IndexCode(): (code: seq<Ins>)
    ensures |code| == 9
  {
    [Ins(LI, 3, 0, 0, 0x1F_F000), Ins(AND, 1, 11, 3, 0),
     Ins(LOAD64, 15, 0, 0, CUR_SLOT), Ins(LOAD64, 15, 15, 0, SLOT_PT4), Ins(ADD, 3, 15, 0, 0),
     Ins(BEQ, 0, 1, 0, 4), Ins(ADDI, 1, 1, 0, -0x1000), Ins(ADDI, 3, 3, 0, 8), Ins(JMP, 0, 0, 0, -3)]
  }

  /** The registers when the loop is done with k entries. */
  function RegsAfter(regs: Regs16, k: nat): Regs16 { regs[1 := 0][3 := Plus(regs[3], 8 * k)] }

  /** The loop subtracts a page from x1 and adds an entry to x3 until x1 is zero. */
  lemma {:induction false} Loop(m: Machine, n: nat, s: Machine, g: nat, k: nat, v: Env)
    requires Reaches(m, n, s, g, IndexCode(), 5, v) && s.regs[1] == 4096 * k && k < 512
    ensures g + 72 <= RAM_SIZE
    ensures var d := s.(pc := g + 72, regs := RegsAfter(s.regs, k)); Glides(m, n + 4 * k + 1, d, v) && Flat(d)
    decreases k
  {
    hide Step, At, Plus, Glides, Listing;
    var c := IndexCode();
    ThenJump(m, n, s, g, c, 5, v);
    PlusSmall(g + 40, 32);
    PlusSmall(g + 40, 8);
    if k == 0 {
      PlusSmall(s.regs[3], 0);
      assert RegsAfter(s.regs, 0) == s.regs;
    } else {
      var s1 := s.(pc := g + 48);
      PlusSmall(s.regs[1], -0x1000);
      ThenReg(m, n + 1, s1, g, c, 6, v);
      var s2 := Moved(s1, g + 56, 1, 4096 * (k - 1));
      ThenReg(m, n + 2, s2, g, c, 7, v);
      var s3 := Moved(s2, g + 64, 3, Plus(s.regs[3], 8));
      ThenJump(m, n + 3, s3, g, c, 8, v);
      PlusSmall(g + 64, -24);
      var s4 := s3.(pc := g + 40);
      Loop(m, n + 4, s4, g, k - 1, v);
      PlusPlus(s.regs[3], 8, 8 * (k - 1));
      assert RegsAfter(s4.regs, k - 1) == RegsAfter(s.regs, k);
    }
  }

  /** The current process's slot and its PT4, as the kernel's memory records them. */
  ghost predicate Process(mem: Ram8, slot: nat, pt4: Word, v: Env) {
    && WordOk(CUR_SLOT, v) && WordOk(slot + SLOT_PT4, v)
    && Read64(mem, CUR_SLOT) == slot && Read64(mem, slot + SLOT_PT4) == pt4
  }

  /** The registers at pf_gotidx. */
  function Indexed(regs: Regs16, pt4: Word): Regs16 {
    RegsAfter(regs[3 := pt4][15 := pt4], regs[11] / 4096 % 512)
  }

  /** The number of instructions from the mask to pf_gotidx. */
  function IndexSteps(va: Word): nat { 4 * (va / 4096 % 512) + 6 }

  lemma IndexGlides(m: Machine, n: nat, s: Machine, g: nat, slot: nat, pt4: Word, v: Env)
    requires Reaches(m, n, s, g, IndexCode(), 0, v) && Process(s.mem, slot, pt4, v)
    ensures g + 72 <= RAM_SIZE
    ensures var d := s.(pc := g + 72, regs := Indexed(s.regs, pt4)); Glides(m, n + IndexSteps(s.regs[11]), d, v) && Flat(d)
  {
    hide Step, At, Plus, Glides, Listing, And, RegsAfter, Read64;
    var c, k := IndexCode(), s.regs[11] / 4096 % 512;
    ThenReg(m, n, s, g, c, 0, v);
    var s1 := Moved(s, g + 8, 3, 0x1F_F000);
    AndPtIndex(s.regs[11]);
    ThenReg(m, n + 1, s1, g, c, 1, v);
    var s2 := Moved(s1, g + 16, 1, 4096 * k);
    ThenLoad(m, n + 2, s2, g, c, 2, CUR_SLOT, v);
    var s3 := Moved(s2, g + 24, 15, slot);
    ThenLoad(m, n + 3, s3, g, c, 3, slot + SLOT_PT4, v);
    var s4 := Moved(s3, g + 32, 15, pt4);
    PlusSmall(pt4, 0);
    ThenReg(m, n + 4, s4, g, c, 4, v);
    var s5 := Moved(s4, g + 40, 3, pt4);
    Loop(m, n + 5, s5, g, k, v);
    assert s.(pc := g + 72, regs := Indexed(s.regs, pt4)) == s5.(pc := g + 72, regs := RegsAfter(s5.regs, k)) by {
      SameAfter(s.regs, s5.regs, pt4, k);
    }
  }

  lemma SameAfter(regs: Regs16, regs': Regs16, pt4: Word, k: nat)
    requires regs' == regs[3 := 0x1F_F000][1 := 4096 * k][15 := regs'[15]][15 := pt4][3 := pt4] && k == regs[11] / 4096 % 512
    ensures RegsAfter(regs', k) == Indexed(regs, pt4)
  {
    hide Plus;
  }

  /** For every faulting address in x11 the code ends at pf_gotidx with x3 holding
      pt4 + 8 * ((va >> 12) & 511), and all registers but x1, x3 and x15, the CSRs, the mode, the
      output and all memory outside the leaf tables untouched. */
  lemma IndexRuns(m: Machine, g: nat, slot: nat, pt4: Word, v: Env)
    requires Kern(m, v) && Code(m.mem, g, IndexCode(), v) && m.pc == g && Process(m.mem, slot, pt4, v)
    ensures exists d: Machine ::
      Leads(m, IndexSteps(m.regs[11]), d, v.cached) && Goes(m, d, g + 72, Indexed(m.regs, pt4), v)
  {
    hide Code, Read64, Glides, Kern, Alike, Indexed, IndexSteps;
    var s := Shadow(m);
    ShadowSims(m, v);
    GlidesRefl(s, v);
    IndexGlides(s, 0, s, g, slot, pt4, v);
    var e := s.(pc := g + 72, regs := Indexed(s.regs, pt4));
    Carries(m, s, IndexSteps(m.regs[11]), e, v);
    var d: Machine :| Lands(m, IndexSteps(m.regs[11]), d, e, v);
    assert Goes(m, d, g + 72, Indexed(m.regs, pt4), v);
  }
}
