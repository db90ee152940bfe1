// The kernel's `fill_pt` subroutine, instruction by instruction.

module FillPt {
  import opened Bits
  import opened Mik64Mmu
  import opened Mik64Cpu
  import opened FlatCode

  /** The nine words at the label fill_pt. */
  ghost predicate CodeAt(mem: Ram8, f: nat) {
    && At(mem, f, Ins(LI, 3, 0, 0, 512))
    && At(mem, f + 8, Ins(LI, 13, 0, 0, 3))
    && At(mem, f + 16, Ins(OR, 1, 11, 13, 0))
    && At(mem, f + 24, Ins(STORE64, 0, 12, 1, 0))
    && At(mem, f + 32, Ins(ADDI, 11, 11, 0, 0x1000))
    && At(mem, f + 40, Ins(ADDI, 12, 12, 0, 8))
    && At(mem, f + 48, Ins(ADDI, 3, 3, 0, -1))
    && At(mem, f + 56, Ins(BNE, 0, 3, 0, -5))
    && At(mem, f + 64, Ins(JMPR, 0, 15, 0, 0))
  }

  lemma CodeInRam(mem: Ram8, f: nat)
    requires CodeAt(mem, f)
    ensures f + 72 <= RAM_SIZE && f % 8 == 0
  {}

  /** The entry for the page at pa: `pa | P | W`. */
  function EntryOf(pa: Word): Word { OrWord(pa, 3) }

  /** k entries from pt on, for consecutive pages from `start` on. */
  function Filled(mem: Ram8, pt: nat, start: Word, k: nat): Ram8
    requires pt + 8 * k <= RAM_SIZE
    decreases k
  {
    if k == 0 then mem else Filled(Write64(mem, pt, EntryOf(start)), pt + 8, Plus(start, 4096), k - 1)
  }

  /** The loop's last entry, left in x1. */
  function LastEntry(start: Word, k: nat): Word
    requires k > 0
    decreases k
  {
    if k == 1 then EntryOf(start) else LastEntry(Plus(start, 4096), k - 1)
  }

  /** The registers after k rounds. */
  function RegsAfter(regs: Regs16, k: nat): Regs16
    requires k > 0 && regs[12] + 8 * k < RAM_SIZE + 1
  {
    regs[1 := LastEntry(regs[11], k)][11 := Plus(regs[11], 4096 * k)][12 := regs[12] + 8 * k][3 := 0]
  }

  lemma CodeKept(mem: Ram8, f: nat, b: nat, w: Word)
    requires CodeAt(mem, f) && b + 8 <= RAM_SIZE && Apart(f, 72, b, 8)
    ensures CodeAt(Write64(mem, b, w), f)
  {
    hide At, Write64;
    StoreOutside(mem, b, w, b, 8);
    AllKept(mem, Write64(mem, b, w), b, 8);
  }

  /** At the top of the loop with k rounds to go. */
  ghost predicate AtLoop(m: Machine, f: nat, k: nat) {
    && Flat(m) && CodeAt(m.mem, f) && m.pc == f + 16 && 0 < k == m.regs[3] <= 512
    && m.regs[13] == 3 && m.regs[12] + 8 * k <= RAM_SIZE && Apart(f, 72, m.regs[12], 8 * k)
  }

  /** The machine after one round, about to branch. */
  function Round(m: Machine, f: nat): Machine
    requires m.regs[12] + 8 <= RAM_SIZE && m.regs[3] > 0 && f + 72 <= RAM_SIZE
  {
    m.(pc := f + 56,
       regs := m.regs[1 := EntryOf(m.regs[11])][11 := Plus(m.regs[11], 4096)][12 := m.regs[12] + 8][3 := m.regs[3] - 1],
       mem := Write64(m.mem, m.regs[12], EntryOf(m.regs[11])))
  }

  lemma OneRound(m: Machine, f: nat, k: nat, cached: bool)
    requires AtLoop(m, f, k)
    ensures f + 72 <= RAM_SIZE && Leads(m, 5, Round(m, f), cached) && Flat(Round(m, f)) && CodeAt(Round(m, f).mem, f)
  {
    hide Step, WordOf, Read64, Write64, OrWord, Plus;
    PlusSmall(m.regs[12], 0);
    PlusSmall(m.regs[12], 8);
    PlusSmall(m.regs[3], -1);
    var pt, w := m.regs[12], EntryOf(m.regs[11]);
    RegStep(m, Ins(OR, 1, 11, 13, 0), cached);
    var m1 := Moved(m, f + 24, 1, w);
    StoreStep(m1, Ins(STORE64, 0, 12, 1, 0), pt, cached);
    var m2 := Stored(m1, pt, w);
    CodeKept(m.mem, f, pt, w);
    RegStep(m2, Ins(ADDI, 11, 11, 0, 0x1000), cached);
    var m3 := Moved(m2, f + 40, 11, Plus(m.regs[11], 4096));
    RegStep(m3, Ins(ADDI, 12, 12, 0, 8), cached);
    var m4 := Moved(m3, f + 48, 12, pt + 8);
    RegStep(m4, Ins(ADDI, 3, 3, 0, -1), cached);
    var m5 := Moved(m4, f + 56, 3, m.regs[3] - 1);
    assert m5 == Round(m, f);
    LeadsStep(m4, m5, 0, m5, cached);
    LeadsStep(m3, m4, 1, m5, cached);
    LeadsStep(m2, m3, 2, m5, cached);
    LeadsStep(m1, m2, 3, m5, cached);
    LeadsStep(m, m1, 4, m5, cached);
  }

  /** k rounds and out of the loop. */
  function Done(m: Machine, f: nat, k: nat): Machine
    requires k > 0 && m.regs[12] + 8 * k <= RAM_SIZE && f + 72 <= RAM_SIZE
  {
    m.(pc := f + 64, regs := RegsAfter(m.regs, k), mem := Filled(m.mem, m.regs[12], m.regs[11], k))
  }

  lemma AfterRound(m: Machine, f: nat, k: nat)
    requires AtLoop(m, f, k) && f + 72 <= RAM_SIZE
    ensures var d := Round(m, f);
      k == 1 ==> d.(pc := f + 64) == Done(m, f, k)
    ensures var d := Round(m, f).(pc := f + 16);
      k > 1 ==> d.regs[12] + 8 * (k - 1) <= RAM_SIZE && Done(d, f, k - 1) == Done(m, f, k)
  {
    hide At, EntryOf, Write64, Plus, CodeAt;
    var r, a := m.regs, Round(m, f).regs;
    PlusPlus(r[11], 4096, 4096 * (k - 1));
    if k > 1 {
      assert RegsAfter(a, k - 1) == RegsAfter(r, k);
    } else {
      assert a == RegsAfter(r, 1);
      assert Filled(m.mem, r[12], r[11], 1) == Round(m, f).mem;
    }
  }

  /** The loop fills one entry a round and leaves when x3 reaches zero. */
  lemma {:induction false} Loop(m: Machine, f: nat, k: nat, cached: bool)
    requires AtLoop(m, f, k)
    ensures f + 72 <= RAM_SIZE && Leads(m, 6 * k, Done(m, f, k), cached)
    ensures Flat(Done(m, f, k)) && CodeAt(Done(m, f, k).mem, f)
    decreases k
  {
    hide Step, WordOf, Read64, Write64, EntryOf, Plus, RegsAfter, Filled, Run;
    OneRound(m, f, k, cached);
    var d := Round(m, f);
    AfterRound(m, f, k);
    var b := Ins(BNE, 0, 3, 0, -5);
    JumpStep(d, b, cached);
    PlusSmall(f + 56, -40);
    PlusSmall(f + 56, 8);
    var e := d.(pc := NextPc(d, b));
    if k == 1 {
      LeadsRefl(e, cached);
      LeadsStep(d, e, 0, e, cached);
      LeadsThen(m, 5, d, 1, e, cached);
    } else {
      Loop(e, f, k - 1, cached);
      LeadsStep(d, e, 6 * (k - 1), Done(e, f, k - 1), cached);
      LeadsThen(m, 5, d, 6 * (k - 1) + 1, Done(m, f, k), cached);
    }
  }

  // ---- What the table holds ---------------------------------------------------------------

  /** Entry i of the table is the page i pages after `start`, present and writable; every byte
      outside the table is untouched. */
  lemma {:induction false} FilledHolds(mem: Ram8, pt: nat, start: Word, k: nat, i: nat)
    requires pt + 8 * k <= RAM_SIZE && i < k
    ensures Read64(Filled(mem, pt, start, k), pt + 8 * i) == EntryOf(Plus(start, 4096 * i))
    decreases k
  {
    hide EntryOf, Plus, Read64, Write64;
    var mem1 := Write64(mem, pt, EntryOf(start));
    if i == 0 {
      ReadBack(mem, pt, EntryOf(start));
      FilledApart(mem1, pt + 8, Plus(start, 4096), k - 1, pt);
      PlusSmall(start, 0);
    } else {
      FilledHolds(mem1, pt + 8, Plus(start, 4096), k - 1, i - 1);
      PlusPlus(start, 4096, 4096 * (i - 1));
    }
  }

  lemma {:induction false} FilledApart(mem: Ram8, pt: nat, start: Word, k: nat, b: nat)
    requires pt + 8 * k <= RAM_SIZE && b + 8 <= RAM_SIZE && Apart(pt, 8 * k, b, 8)
    ensures Read64(Filled(mem, pt, start, k), b) == Read64(mem, b)
    decreases k
  {
    hide EntryOf, Plus, Read64, Write64;
    if k > 0 {
      ReadApart(mem, pt, EntryOf(start), b);
      FilledApart(Write64(mem, pt, EntryOf(start)), pt + 8, Plus(start, 4096), k - 1, b);
    }
  }

  /** For an aligned page the entry is the address with P and W set. */
  lemma EntryOfAligned(pa: Word)
    requires pa % 4096 == 0
    ensures EntryOf(pa) == pa + 3
  {
    hide Or, Shl, Ones;
    ShlLiteral12(pa / 4096);
    OnesLiteral();
    var n := 4;
    Ones8(n);
    OrDisjoint(pa / 4096, 3, 12);
  }

  /** The machine has called fill_pt at f: x11 is the first page, x12 the table, x15 the way back. */
  ghost predicate Called(m: Machine, f: nat) {
    Flat(m) && CodeAt(m.mem, f) && m.pc == f && m.regs[12] + 4096 <= RAM_SIZE && Apart(f, 72, m.regs[12], 4096)
  }

  /** fill_pt terminates after 3075 steps at the address in x15, having filled exactly the 512
      entries of the table at x12 with consecutive pages from x11 on, and touched nothing else. */
  lemma FillPtRuns(m: Machine, f: nat, cached: bool)
    requires Called(m, f)
    ensures exists d: Machine ::
      && Leads(m, 3075, d, cached) && Flat(d) && d.pc == m.regs[15]
      && d.mem == Filled(m.mem, m.regs[12], m.regs[11], 512)
      && d.regs[11] == Plus(m.regs[11], 0x20_0000) && d.regs[12] == m.regs[12] + 4096
      && (forall r | 0 <= r < 16 && r !in {1, 3, 11, 12, 13} :: d.regs[r] == m.regs[r])
      && d.csrs == m.csrs && d.tlb == m.tlb && d.mode == m.mode && d.out == m.out
  {
    hide Step, WordOf, Read64, Write64, EntryOf, Plus, Filled, Run, LastEntry;
    RegStep(m, Ins(LI, 3, 0, 0, 512), cached);
    var m1 := Moved(m, f + 8, 3, 512);
    RegStep(m1, Ins(LI, 13, 0, 0, 3), cached);
    var m2 := Moved(m1, f + 16, 13, 3);
    Loop(m2, f, 512, cached);
    var e := Done(m2, f, 512);
    JumpStep(e, Ins(JMPR, 0, 15, 0, 0), cached);
    var d := e.(pc := m.regs[15]);
    LeadsRefl(d, cached);
    LeadsStep(e, d, 0, d, cached);
    LeadsThen(m2, 3072, e, 1, d, cached);
    LeadsStep(m1, m2, 3073, d, cached);
    LeadsStep(m, m1, 3074, d, cached);
  }
}
