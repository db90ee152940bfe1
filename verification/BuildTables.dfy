// The kernel's `build_tables` subroutine: a process's own page tables from the
// five pages fork has allocated, instruction by instruction, in the running
// kernel.

module BuildTables {
  import opened Mik64Mmu
  import opened Mik64Tlb
  import opened Mik64Cpu
  import opened Mik64Bisim
  import opened FlatCode
  import opened IdentityMap
  import opened SupervisorCode
  import opened KernelCode
  import opened ProcessSpace
  import Pool = PagePool
  import Boot = BootTables

  const KERN_PD := 0x70_0018
  const TBL_PML4 := 0x70_0070
  const TBL_PDPT := 0x70_0078
  const TBL_PD := 0x70_0080
  const TBL_PT4 := 0x70_0088
  const TBL_UPAGE := 0x70_0090

  /** The pages the scratch words name. */
  datatype Pages = Pages(pml4: nat, pdpt: nat, pd: nat, pt4: nat, upage: nat, kpd: nat)

  ghost predicate Scratch(mem: Ram8, t: Pages) {
    && Read64(mem, KERN_PD) == t.kpd && Read64(mem, TBL_PML4) == t.pml4 && Read64(mem, TBL_PDPT) == t.pdpt
    && Read64(mem, TBL_PD) == t.pd && Read64(mem, TBL_PT4) == t.pt4 && Read64(mem, TBL_UPAGE) == t.upage
  }

  /** Pages from the pool, distinct; the kernel's directory elsewhere. */
  predicate PagesOk(t: Pages, v: Env) {
    && Pool.PageOk(t.pml4, v) && Pool.PageOk(t.pdpt, v) && Pool.PageOk(t.pd, v) && Pool.PageOk(t.pt4, v) && Pool.StateOk(v)
    && t.kpd % 4096 == 0 && Fits(t.kpd, 512, v) && t.upage % 4096 == 0 && t.upage < RAM_SIZE
    && t.pml4 != t.pdpt && t.pml4 != t.pd && t.pml4 != t.pt4 && t.pdpt != t.pd && t.pdpt != t.pt4 && t.pd != t.pt4
    && t.kpd != t.pml4 && t.kpd != t.pdpt && t.kpd != t.pd && t.kpd != t.pt4
  }

  /** The upper entries, and both directories' addresses in x1 and x2. */
  function UpperCode(): (code: seq<Ins>)
    ensures |code| == 11
  {
    [Ins(LOAD64, 1, 0, 0, TBL_PML4), Ins(LOAD64, 2, 0, 0, TBL_PDPT), Ins(LI, 3, 0, 0, 3), Ins(OR, 2, 2, 3, 0),
     Ins(STORE64, 0, 1, 2, 0),
     Ins(LOAD64, 1, 0, 0, TBL_PDPT), Ins(LOAD64, 2, 0, 0, TBL_PD), Ins(OR, 2, 2, 3, 0), Ins(STORE64, 0, 1, 2, 0),
     Ins(LOAD64, 1, 0, 0, KERN_PD), Ins(LOAD64, 2, 0, 0, TBL_PD)]
  }

  /** Four entries of the kernel's directory (x1) into the process's (x2). */
  function CopyCode(): (code: seq<Ins>)
    ensures |code| == 8
  {
    [Ins(LOAD64, 3, 1, 0, 0), Ins(STORE64, 0, 2, 3, 0), Ins(LOAD64, 3, 1, 0, 8), Ins(STORE64, 0, 2, 3, 8),
     Ins(LOAD64, 3, 1, 0, 16), Ins(STORE64, 0, 2, 3, 16), Ins(LOAD64, 3, 1, 0, 24), Ins(STORE64, 0, 2, 3, 24)]
  }

  /** The fifth directory entry, the first entry of PT4, and back. */
  function LowerCode(): (code: seq<Ins>)
    ensures |code| == 11
  {
    [Ins(LOAD64, 2, 0, 0, TBL_PT4), Ins(LI, 3, 0, 0, 3), Ins(OR, 3, 2, 3, 0), Ins(LOAD64, 1, 0, 0, TBL_PD),
     Ins(STORE64, 0, 1, 3, 32),
     Ins(LOAD64, 1, 0, 0, TBL_UPAGE), Ins(LI, 3, 0, 0, 7), Ins(OR, 3, 1, 3, 0), Ins(LOAD64, 2, 0, 0, TBL_PT4),
     Ins(STORE64, 0, 2, 3, 0), Ins(JMPR, 0, 15, 0, 0)]
  }

  /** build_tables. */
  function BuildCode(): (code: seq<Ins>)
    ensures |code| == 30
  {
    UpperCode() + CopyCode() + LowerCode()
  }

  /** The code meets none of the pages written. */
  predicate CodeApart(p: nat, t: Pages) {
    Apart(p, 240, t.pml4, 4096) && Apart(p, 240, t.pdpt, 4096) && Apart(p, 240, t.pd, 4096) && Apart(p, 240, t.pt4, 4096)
  }

  predicate InRam(t: Pages) {
    && t.pml4 + 4096 <= RAM_SIZE && t.pdpt + 4096 <= RAM_SIZE && t.pd + 4096 <= RAM_SIZE && t.pt4 + 4096 <= RAM_SIZE
    && t.kpd + 4096 <= RAM_SIZE && t.upage < RAM_SIZE
  }

  /** build_tables is called at p for those pages. */
  ghost predicate Called(m: Machine, p: nat, t: Pages, v: Env) {
    m.pc == p && Code(m.mem, p, BuildCode(), v) && Scratch(m.mem, t) && PagesOk(t, v) && CodeApart(p, t)
  }

  // ---- What is written -------------------------------------------------------------------

  function UpperMem(mem: Ram8, t: Pages): Ram8
    requires t.pml4 + 8 <= RAM_SIZE && t.pdpt + 8 <= RAM_SIZE && t.pd < RAM_SIZE
  {
    Write64(Write64(mem, t.pml4, t.pdpt + 3), t.pdpt, t.pd + 3)
  }

  /** The first i entries of the kernel's directory copied into the process's. */
  function CopyMem(mem: Ram8, t: Pages, i: nat): Ram8
    requires t.pd + 8 * i <= RAM_SIZE && t.kpd + 8 * i <= RAM_SIZE
  {
    if i == 0 then mem
    else
      var mem1 := CopyMem(mem, t, i - 1);
      Write64(mem1, t.pd + 8 * (i - 1), Read64(mem1, t.kpd + 8 * (i - 1)))
  }

  function LowerMem(mem: Ram8, t: Pages): Ram8
    requires t.pd + 40 <= RAM_SIZE && t.pt4 + 8 <= RAM_SIZE && t.upage < RAM_SIZE
  {
    Write64(Write64(mem, t.pd + 32, t.pt4 + 3), t.pt4, t.upage + 7)
  }

  /** The eight entries, in the order they are stored. */
  function Built(mem: Ram8, t: Pages): Ram8
    requires InRam(t)
  {
    LowerMem(CopyMem(UpperMem(mem, t), t, 4), t)
  }

  // ---- The blocks -----------------------------------------------------------------------

  /** After n steps, at pc, the code and the scratch words as they were. */
  ghost predicate Mid(m: Machine, n: nat, s: Machine, p: nat, pc: nat, t: Pages, v: Env) {
    && Glides(m, n, s, v) && Flat(s) && s.pc == pc && Scratch(s.mem, t)
    && Code(s.mem, p, BuildCode(), v) && PagesOk(t, v) && CodeApart(p, t)
  }

  lemma Places(m: Machine, n: nat, s: Machine, p: nat, pc: nat, t: Pages, v: Env)
    requires Mid(m, n, s, p, pc, t, v)
    ensures Code(s.mem, p, UpperCode(), v) && Code(s.mem, p + 88, CopyCode(), v) && Code(s.mem, p + 152, LowerCode(), v)
    ensures p + 240 <= v.top <= RAM_SIZE && Flat(s) && Glides(m, n, s, v) && s.pc == pc && Scratch(s.mem, t)
    ensures WordOk(KERN_PD, v) && WordOk(TBL_PML4, v) && WordOk(TBL_PDPT, v) && WordOk(TBL_PD, v) && WordOk(TBL_PT4, v) && WordOk(TBL_UPAGE, v)
    ensures t.pml4 + 4096 <= v.top && t.pdpt + 4096 <= v.top && t.pd + 4096 <= v.top && t.pt4 + 4096 <= v.top
    ensures t.pml4 % 4096 == 0 && t.pdpt % 4096 == 0 && t.pd % 4096 == 0 && t.pt4 % 4096 == 0 && t.upage % 4096 == 0 && t.upage < RAM_SIZE
    ensures t.kpd + 4096 <= v.top && Apart(t.kpd, 4096, v.lo, v.hi - v.lo)
  {
    hide At, Glides, UpperCode, CopyCode, LowerCode, Listing;
    assert [] + UpperCode() + (CopyCode() + LowerCode()) == BuildCode();
    assert UpperCode() + CopyCode() + LowerCode() == UpperCode() + CopyCode() + LowerCode() + [] == (UpperCode() + CopyCode()) + LowerCode() + [];
    CodePart(s.mem, p, [], UpperCode(), CopyCode() + LowerCode(), v);
    CodePart(s.mem, p, UpperCode(), CopyCode(), LowerCode(), v);
    CodePart(s.mem, p, UpperCode() + CopyCode(), LowerCode(), [], v);
  }

  /** Registers 1 to 3, pc and memory changed. */
  function After(m: Machine, pc: Word, r1: Word, r2: Word, r3: Word, mem: Ram8): Machine {
    m.(pc := pc, regs := m.regs[1 := r1][2 := r2][3 := r3], mem := mem)
  }

  /** The scratch words lie on the state page. */
  lemma ScratchKept(mem: Ram8, t: Pages, q: nat, a: nat, w: Word)
    requires Scratch(mem, t) && q % 4096 == 0 && q != Pool.NEXT_PAGE && q <= a && a + 8 <= q + 4096 && a + 8 <= RAM_SIZE
    ensures Scratch(Write64(mem, a, w), t)
  {
    hide Read64, Write64;
    StoreOutside(mem, a, w, q, 4096);
    PagesApart(q, Pool.NEXT_PAGE);
  }

  /** A store into a new page leaves code and scratch words alone and harms no table. */
  lemma StoreOk(mem: Ram8, root: nat, p: nat, t: Pages, q: nat, j: nat, w: Word, v: Env)
    requires Scratch(mem, t) && Code(mem, p, BuildCode(), v) && PagesOk(t, v) && CodeApart(p, t)
    requires (q == t.pml4 || q == t.pdpt || q == t.pd || q == t.pt4) && j < 5
    ensures var a := q + 8 * j;
      && a + 8 <= v.top <= RAM_SIZE && Harmless(mem, root, a, v.tables) && Apart(p, 240, a, 8)
      && Scratch(Write64(mem, a, w), t) && Code(Write64(mem, a, w), p, BuildCode(), v)
  {
    hide Read64, Write64, BuildCode, Code, Harmless;
    var a := q + 8 * j;
    assert Pool.PageOk(q, v);
    Pool.WordHarmless(mem, root, q, j, v);
    ScratchKept(mem, t, q, a, w);
    CodeKept(mem, p, BuildCode(), v, a, w);
  }

  /** The first upper entry. */
  lemma UpperFirst(m: Machine, p: nat, t: Pages, v: Env)
    requires Mid(m, 0, m, p, p, t, v)
    ensures t.pml4 + 8 <= RAM_SIZE && t.pdpt < RAM_SIZE
    ensures var d := After(m, p + 40, t.pml4, t.pdpt + 3, 3, Write64(m.mem, t.pml4, t.pdpt + 3)); Mid(m, 5, d, p, p + 40, t, v)
  {
    hide Step, Code, Read64, Write64, Plus, Glides, Root, Harmless, PagesOk, BuildCode, CodeApart;
    var c := UpperCode();
    Places(m, 0, m, p, p, t, v);
    ThenLoad(m, 0, m, p, c, 0, TBL_PML4, v);
    var m1 := Moved(m, p + 8, 1, t.pml4);
    ThenLoad(m, 1, m1, p, c, 1, TBL_PDPT, v);
    var m2 := Moved(m1, p + 16, 2, t.pdpt);
    ThenReg(m, 2, m2, p, c, 2, v);
    var m3 := Moved(m2, p + 24, 3, 3);
    OrLow(t.pdpt, 3);
    ThenReg(m, 3, m3, p, c, 3, v);
    var m4 := Moved(m3, p + 32, 2, t.pdpt + 3);
    StoreOk(m.mem, Root(m4), p, t, t.pml4, 0, t.pdpt + 3, v);
    ThenStore(m, 4, m4, p, c, 4, t.pml4, v);
    assert Stored(m4, t.pml4, t.pdpt + 3) == After(m, p + 40, t.pml4, t.pdpt + 3, 3, Write64(m.mem, t.pml4, t.pdpt + 3));
  }

  /** The second upper entry, then both directories' addresses in x1 and x2. */
  lemma UpperSecond(m: Machine, s: Machine, p: nat, t: Pages, v: Env)
    requires Mid(m, 5, s, p, p + 40, t, v) && s.regs[3] == 3
    ensures t.pdpt + 8 <= RAM_SIZE && t.kpd < RAM_SIZE && t.pd < RAM_SIZE
    ensures var d := After(s, p + 88, t.kpd, t.pd, 3, Write64(s.mem, t.pdpt, t.pd + 3)); Mid(m, 11, d, p, p + 88, t, v)
  {
    hide Step, Code, Read64, Write64, Plus, Glides, Root, Harmless, PagesOk, BuildCode, CodeApart;
    var c := UpperCode();
    Places(m, 5, s, p, p + 40, t, v);
    ThenLoad(m, 5, s, p, c, 5, TBL_PDPT, v);
    var m1 := Moved(s, p + 48, 1, t.pdpt);
    ThenLoad(m, 6, m1, p, c, 6, TBL_PD, v);
    var m2 := Moved(m1, p + 56, 2, t.pd);
    OrLow(t.pd, 3);
    ThenReg(m, 7, m2, p, c, 7, v);
    var m3 := Moved(m2, p + 64, 2, t.pd + 3);
    StoreOk(s.mem, Root(m3), p, t, t.pdpt, 0, t.pd + 3, v);
    ThenStore(m, 8, m3, p, c, 8, t.pdpt, v);
    var m4 := Stored(m3, t.pdpt, t.pd + 3);
    ThenLoad(m, 9, m4, p, c, 9, KERN_PD, v);
    var m5 := Moved(m4, p + 80, 1, t.kpd);
    ThenLoad(m, 10, m5, p, c, 10, TBL_PD, v);
    assert Moved(m5, p + 88, 2, t.pd) == After(s, p + 88, t.kpd, t.pd, 3, m4.mem);
  }

  lemma CopyWords(i: nat)
    requires i < 4
    ensures CopyCode()[2 * i] == Ins(LOAD64, 3, 1, 0, 8 * i) && CopyCode()[2 * i + 1] == Ins(STORE64, 0, 2, 3, 8 * i)
  {}

  /** i entries copied. */
  ghost predicate Copying(m: Machine, s: Machine, d: Machine, p: nat, t: Pages, i: nat, v: Env) {
    && Mid(m, 11 + 2 * i, d, p, p + 88 + 16 * i, t, v) && t.pd + 8 * i <= RAM_SIZE && t.kpd + 8 * i <= RAM_SIZE
    && d == s.(pc := d.pc, regs := s.regs[3 := d.regs[3]], mem := CopyMem(s.mem, t, i))
  }

  lemma CopyOne(m: Machine, s: Machine, d: Machine, p: nat, t: Pages, i: nat, v: Env) returns (e: Machine)
    requires i < 4 && Copying(m, s, d, p, t, i, v) && s.regs[1] == t.kpd && s.regs[2] == t.pd
    ensures Copying(m, s, e, p, t, i + 1, v)
  {
    hide Step, Code, Read64, Write64, Plus, Glides, Root, Harmless, PagesOk, BuildCode, CodeApart;
    var c, n := CopyCode(), 11 + 2 * i;
    Places(m, n, d, p, p + 88 + 16 * i, t, v);
    CopyWords(i);
    hide CopyCode;
    var w := Read64(d.mem, t.kpd + 8 * i);
    ThenLoad(m, n, d, p + 88, c, 2 * i, t.kpd + 8 * i, v);
    var m1 := Moved(d, p + 96 + 16 * i, 3, w);
    StoreOk(d.mem, Root(m1), p, t, t.pd, i, w, v);
    ThenStore(m, n + 1, m1, p + 88, c, 2 * i + 1, t.pd + 8 * i, v);
    e := Stored(m1, t.pd + 8 * i, w);
    assert e.regs == s.regs[3 := w];
  }

  lemma CopyGlides(m: Machine, s: Machine, p: nat, t: Pages, v: Env) returns (d: Machine)
    requires Mid(m, 11, s, p, p + 88, t, v) && s.regs[1] == t.kpd && s.regs[2] == t.pd
    ensures Copying(m, s, d, p, t, 4, v)
  {
    hide Mid, CopyMem;
    assert s.regs == s.regs[3 := s.regs[3]];
    assert t.pd <= RAM_SIZE && t.kpd <= RAM_SIZE by { Places(m, 11, s, p, p + 88, t, v); }
    CopyNone(s.mem, t);
    assert Copying(m, s, s, p, t, 0, v);
    d := CopyOne(m, s, s, p, t, 0, v);
    d := CopyOne(m, s, d, p, t, 1, v);
    d := CopyOne(m, s, d, p, t, 2, v);
    d := CopyOne(m, s, d, p, t, 3, v);
  }

  lemma CopyNone(mem: Ram8, t: Pages)
    requires t.pd <= RAM_SIZE && t.kpd <= RAM_SIZE
    ensures CopyMem(mem, t, 0) == mem
  {}

  /** The fifth directory entry. */
  lemma LowerFirst(m: Machine, s: Machine, p: nat, t: Pages, v: Env)
    requires Mid(m, 19, s, p, p + 152, t, v)
    ensures t.pd + 40 <= RAM_SIZE && t.pt4 + 8 <= RAM_SIZE
    ensures var d := After(s, p + 192, t.pd, t.pt4, t.pt4 + 3, Write64(s.mem, t.pd + 32, t.pt4 + 3)); Mid(m, 24, d, p, p + 192, t, v)
  {
    hide Step, Code, Read64, Write64, Plus, Glides, Root, Harmless, PagesOk, BuildCode, CodeApart;
    var c := LowerCode();
    Places(m, 19, s, p, p + 152, t, v);
    ThenLoad(m, 19, s, p + 152, c, 0, TBL_PT4, v);
    var m1 := Moved(s, p + 160, 2, t.pt4);
    ThenReg(m, 20, m1, p + 152, c, 1, v);
    var m2 := Moved(m1, p + 168, 3, 3);
    OrLow(t.pt4, 3);
    ThenReg(m, 21, m2, p + 152, c, 2, v);
    var m3 := Moved(m2, p + 176, 3, t.pt4 + 3);
    ThenLoad(m, 22, m3, p + 152, c, 3, TBL_PD, v);
    var m4 := Moved(m3, p + 184, 1, t.pd);
    StoreOk(s.mem, Root(m4), p, t, t.pd, 4, t.pt4 + 3, v);
    ThenStore(m, 23, m4, p + 152, c, 4, t.pd + 32, v);
    assert Stored(m4, t.pd + 32, t.pt4 + 3) == After(s, p + 192, t.pd, t.pt4, t.pt4 + 3, Write64(s.mem, t.pd + 32, t.pt4 + 3));
  }

  /** The first entry of PT4, and back to the caller. */
  lemma LowerSecond(m: Machine, s: Machine, p: nat, t: Pages, v: Env)
    requires Mid(m, 24, s, p, p + 192, t, v)
    ensures t.pt4 + 8 <= RAM_SIZE && t.upage < RAM_SIZE
    ensures var d := After(s, s.regs[15], t.upage, t.pt4, t.upage + 7, Write64(s.mem, t.pt4, t.upage + 7)); Glides(m, 30, d, v)
  {
    hide Step, Code, Read64, Write64, Plus, Glides, Root, Harmless, PagesOk, BuildCode, CodeApart;
    var c := LowerCode();
    Places(m, 24, s, p, p + 192, t, v);
    ThenLoad(m, 24, s, p + 152, c, 5, TBL_UPAGE, v);
    var m1 := Moved(s, p + 200, 1, t.upage);
    ThenReg(m, 25, m1, p + 152, c, 6, v);
    var m2 := Moved(m1, p + 208, 3, 7);
    OrLow(t.upage, 7);
    ThenReg(m, 26, m2, p + 152, c, 7, v);
    var m3 := Moved(m2, p + 216, 3, t.upage + 7);
    ThenLoad(m, 27, m3, p + 152, c, 8, TBL_PT4, v);
    var m4 := Moved(m3, p + 224, 2, t.pt4);
    StoreOk(s.mem, Root(m4), p, t, t.pt4, 0, t.upage + 7, v);
    ThenStore(m, 28, m4, p + 152, c, 9, t.pt4, v);
    var m5 := Stored(m4, t.pt4, t.upage + 7);
    ThenJump(m, 29, m5, p + 152, c, 10, v);
    assert m5.(pc := s.regs[15]) == After(s, s.regs[15], t.upage, t.pt4, t.upage + 7, m5.mem);
  }

  lemma BuildGlides(m: Machine, p: nat, t: Pages, v: Env)
    requires Flat(m) && Called(m, p, t, v)
    ensures Glides(m, 30, After(m, m.regs[15], t.upage, t.pt4, t.upage + 7, Built(m.mem, t)), v)
  {
    hide Code, Read64, Write64, Glides, Scratch, BuildCode, CodeApart;
    GlidesRefl(m, v);
    UpperFirst(m, p, t, v);
    var m1 := After(m, p + 40, t.pml4, t.pdpt + 3, 3, Write64(m.mem, t.pml4, t.pdpt + 3));
    UpperSecond(m, m1, p, t, v);
    var m2 := After(m1, p + 88, t.kpd, t.pd, 3, UpperMem(m.mem, t));
    var m3 := CopyGlides(m, m2, p, t, v);
    LowerFirst(m, m3, p, t, v);
    var m4 := After(m3, p + 192, t.pd, t.pt4, t.pt4 + 3, Write64(m3.mem, t.pd + 32, t.pt4 + 3));
    LowerSecond(m, m4, p, t, v);
    hide CopyMem;
    var d := After(m4, m.regs[15], t.upage, t.pt4, t.upage + 7, LowerMem(m3.mem, t));
    assert d == After(m, m.regs[15], t.upage, t.pt4, t.upage + 7, Built(m.mem, t));
  }

  // ---- What has been built -----------------------------------------------------------------

  /** A word that is none of the eight entries. */
  predicate Untouched(a: nat, t: Pages) {
    Apart(a, 8, t.pml4, 8) && Apart(a, 8, t.pdpt, 8) && Apart(a, 8, t.pd, 40) && Apart(a, 8, t.pt4, 8)
  }

  /** Every other word is as it was. */
  lemma BuiltElsewhere(mem: Ram8, t: Pages, a: nat)
    requires InRam(t) && a + 8 <= RAM_SIZE && Untouched(a, t)
    ensures Read64(Built(mem, t), a) == Read64(mem, a)
  {
    hide Read64, Write64, CopyMem;
    var mem1 := UpperMem(mem, t);
    ReadApart(mem, t.pml4, t.pdpt + 3, a);
    ReadApart(Write64(mem, t.pml4, t.pdpt + 3), t.pdpt, t.pd + 3, a);
    CopyElsewhere(mem1, t, 4, a);
    KeptBelow(CopyMem(mem1, t, 4), t, a);
  }

  lemma {:induction false} CopyElsewhere(mem: Ram8, t: Pages, i: nat, a: nat)
    requires t.pd + 8 * i <= RAM_SIZE && t.kpd + 8 * i <= RAM_SIZE && a + 8 <= RAM_SIZE && Apart(a, 8, t.pd, 8 * i)
    ensures Read64(CopyMem(mem, t, i), a) == Read64(mem, a)
  {
    hide Read64, Write64;
    if i > 0 {
      CopyElsewhere(mem, t, i - 1, a);
      var mem1 := CopyMem(mem, t, i - 1);
      ReadApart(mem1, t.pd + 8 * (i - 1), Read64(mem1, t.kpd + 8 * (i - 1)), a);
    }
  }

  /** Copied entries are those of the kernel's directory. */
  lemma {:induction false} CopyHolds(mem: Ram8, t: Pages, i: nat, j: nat)
    requires t.pd + 8 * i <= RAM_SIZE && t.kpd + 8 * i <= RAM_SIZE && j < i && Apart(t.pd, 8 * i, t.kpd, 8 * i)
    ensures Read64(CopyMem(mem, t, i), t.pd + 8 * j) == Read64(mem, t.kpd + 8 * j)
  {
    hide Read64, Write64;
    var mem1 := CopyMem(mem, t, i - 1);
    var w := Read64(mem1, t.kpd + 8 * (i - 1));
    CopyElsewhere(mem, t, i - 1, t.kpd + 8 * (i - 1));
    if j == i - 1 {
      ReadBack(mem1, t.pd + 8 * j, w);
    } else {
      CopyHolds(mem, t, i - 1, j);
      ReadApart(mem1, t.pd + 8 * (i - 1), w, t.pd + 8 * j);
    }
  }

  /** The last two stores miss everything but their own words. */
  lemma KeptBelow(mem: Ram8, t: Pages, a: nat)
    requires t.pd + 40 <= RAM_SIZE && t.pt4 + 8 <= RAM_SIZE && t.upage < RAM_SIZE
    requires a + 8 <= RAM_SIZE && Apart(a, 8, t.pd + 32, 8) && Apart(a, 8, t.pt4, 8)
    ensures Read64(LowerMem(mem, t), a) == Read64(mem, a)
  {
    hide Read64, Write64;
    ReadApart(mem, t.pd + 32, t.pt4 + 3, a);
    ReadApart(Write64(mem, t.pd + 32, t.pt4 + 3), t.pt4, t.upage + 7, a);
  }

  predicate PagesApartOk(t: Pages) {
    && Apart(t.pml4, 4096, t.pdpt, 4096) && Apart(t.pml4, 4096, t.pd, 4096) && Apart(t.pml4, 4096, t.pt4, 4096)
    && Apart(t.pdpt, 4096, t.pd, 4096) && Apart(t.pdpt, 4096, t.pt4, 4096) && Apart(t.pd, 4096, t.pt4, 4096)
    && Apart(t.kpd, 4096, t.pml4, 4096) && Apart(t.kpd, 4096, t.pdpt, 4096) && Apart(t.kpd, 4096, t.pd, 4096)
    && Apart(t.kpd, 4096, t.pt4, 4096)
  }

  lemma AllApart(t: Pages, v: Env)
    requires PagesOk(t, v)
    ensures PagesApartOk(t)
  {
    PagesApart(t.pml4, t.pdpt);
    PagesApart(t.pml4, t.pd);
    PagesApart(t.pml4, t.pt4);
    PagesApart(t.pdpt, t.pd);
    PagesApart(t.pdpt, t.pt4);
    PagesApart(t.pd, t.pt4);
    PagesApart(t.kpd, t.pml4);
    PagesApart(t.kpd, t.pdpt);
    PagesApart(t.kpd, t.pd);
    PagesApart(t.kpd, t.pt4);
  }

  /** The eight entries, as words. */
  lemma BuiltEntries(mem: Ram8, t: Pages)
    requires InRam(t) && PagesApartOk(t)
    ensures var mem' := Built(mem, t);
      && Read64(mem', t.pml4) == t.pdpt + 3 && Read64(mem', t.pdpt) == t.pd + 3
      && Read64(mem', t.pd + 32) == t.pt4 + 3 && Read64(mem', t.pt4) == t.upage + 7
  {
    hide Read64, Write64, CopyMem;
    var mem0 := Write64(mem, t.pml4, t.pdpt + 3);
    var mem1 := UpperMem(mem, t);
    var mem2 := CopyMem(mem1, t, 4);
    ReadBack(mem, t.pml4, t.pdpt + 3);
    ReadBack(mem0, t.pdpt, t.pd + 3);
    ReadApart(mem0, t.pdpt, t.pd + 3, t.pml4);
    CopyElsewhere(mem1, t, 4, t.pml4);
    CopyElsewhere(mem1, t, 4, t.pdpt);
    KeptBelow(mem2, t, t.pml4);
    KeptBelow(mem2, t, t.pdpt);
    ReadBack(mem2, t.pd + 32, t.pt4 + 3);
    ReadBack(Write64(mem2, t.pd + 32, t.pt4 + 3), t.pt4, t.upage + 7);
    ReadApart(Write64(mem2, t.pd + 32, t.pt4 + 3), t.pt4, t.upage + 7, t.pd + 32);
  }

  lemma CopySource(mem: Ram8, t: Pages, j: nat)
    requires InRam(t) && PagesApartOk(t) && j < 4
    ensures Read64(Built(mem, t), t.kpd + 8 * j) == Read64(mem, t.kpd + 8 * j)
  {
    hide Read64, Built;
    BuiltElsewhere(mem, t, t.kpd + 8 * j);
  }

  lemma BuiltCopies(mem: Ram8, t: Pages, j: nat)
    requires InRam(t) && PagesApartOk(t) && j < 4
    ensures Read64(Built(mem, t), t.pd + 8 * j) == Read64(mem, t.kpd + 8 * j) == Read64(Built(mem, t), t.kpd + 8 * j)
  {
    hide Read64, Write64, CopyMem;
    CopySource(mem, t, j);
    var mem0 := Write64(mem, t.pml4, t.pdpt + 3);
    var mem1 := UpperMem(mem, t);
    CopyHolds(mem1, t, 4, j);
    KeptBelow(CopyMem(mem1, t, 4), t, t.pd + 8 * j);
    ReadApart(mem, t.pml4, t.pdpt + 3, t.kpd + 8 * j);
    ReadApart(mem0, t.pdpt, t.pd + 3, t.kpd + 8 * j);
  }

  /** The process's chain: the kernel's four directory entries shared, its own PT4 fifth, its page
      first in PT4.  Marks in leaf tables do not matter. */
  lemma BuiltChain(mem: Ram8, mem': Ram8, t: Pages, v: Env)
    requires PagesOk(t, v) && Alike(Built(mem, t), mem', v)
    ensures ProcessChain(mem', t.kpd, t.pml4, t.pdpt, t.pd, t.pt4, t.upage)
  {
    hide Read64, SameEntry, Built, Alike;
    var built := Built(mem, t);
    assert SameTables(built, mem') by { AlikeTables(built, mem', v); }
    AllApart(t, v);
    BuiltEntries(mem, t);
    PageAligned(t.pml4, 0);
    PageAligned(t.pdpt, 0);
    PageAligned(t.pd, 4);
    PageAligned(t.pt4, 0);
    SameFlip(Read64(built, t.pml4), Read64(mem', t.pml4));
    SameFlip(Read64(built, t.pdpt), Read64(mem', t.pdpt));
    SameFlip(Read64(built, t.pd + 32), Read64(mem', t.pd + 32));
    SameFlip(Read64(built, t.pt4), Read64(mem', t.pt4));
    forall j: nat | j < 4 ensures Holds(mem', t.pd + 8 * j, Read64(mem', t.kpd + 8 * j)) {
      BuiltCopies(mem, t, j);
      PageAligned(t.pd, j);
      PageAligned(t.kpd, j);
      SameFlip(Read64(built, t.pd + 8 * j), Read64(mem', t.pd + 8 * j));
      SameTrans(Read64(mem', t.pd + 8 * j), Read64(built, t.pd + 8 * j), Read64(mem', t.kpd + 8 * j));
    }
  }

  // ---- The subroutine as a whole ----------------------------------------------------------------

  /** build_tables returns to x15 after thirty steps, with the eight entries of the process's chain
      stored and, up to A and D bits of the leaf tables, nothing else: the kernel goes on. */
  lemma BuildTablesRuns(m: Machine, p: nat, t: Pages, k: nat, v: Env)
    requires KernFor(m, 30 + k, v) && Called(m, p, t, v)
    ensures exists d: Machine ::
      && Leads(m, 30, d, v.cached) && KernFor(d, k, v) && d.pc == m.regs[15] && SameModes(m, d)
      && d.regs == m.regs[1 := t.upage][2 := t.pt4][3 := t.upage + 7] && Alike(Built(m.mem, t), d.mem, v)
      && ProcessChain(d.mem, t.kpd, t.pml4, t.pdpt, t.pd, t.pt4, t.upage)
  {
    hide Code, Glides, Kern, Alike, Built, ProcessChain, Scratch, CodeApart, KernFor;
    var s := Shadow(m);
    ShadowFlat(m, 30 + k, v);
    BuildGlides(s, p, t, v);
    var e := After(s, s.regs[15], t.upage, t.pt4, t.upage + 7, Built(s.mem, t));
    CarriesFor(m, 30, k, e, v);
    var d: Machine :| LandsFor(m, 30, k, d, e, v);
    BuiltChain(m.mem, d.mem, t, v);
  }

  /** A page apart from the four new ones. */
  predicate PageOff(q: nat, t: Pages) { q % 4096 == 0 && q != t.pml4 && q != t.pdpt && q != t.pd && q != t.pt4 }

  lemma WordOff(q: nat, t: Pages, a: nat, v: Env)
    requires PageOff(q, t) && PagesOk(t, v) && q <= a && a + 8 <= q + 4096
    ensures Untouched(a, t)
  {
    PagesApart(q, t.pml4);
    PagesApart(q, t.pdpt);
    PagesApart(q, t.pd);
    PagesApart(q, t.pt4);
  }

  /** An entry of such a page holds after what it held before. */
  lemma HoldsOff(mem: Ram8, mem': Ram8, t: Pages, v: Env, q: nat, i: nat, w: nat)
    requires PagesOk(t, v) && Alike(Built(mem, t), mem', v) && PageOff(q, t) && i < 512 && Holds(mem, q + 8 * i, w)
    ensures Holds(mem', q + 8 * i, w)
  {
    hide Read64, SameEntry, Built, Alike;
    var built, a := Built(mem, t), q + 8 * i;
    WordOff(q, t, a, v);
    BuiltElsewhere(mem, t, a);
    AlikeTables(built, mem', v);
    PageAligned(q, i);
    HoldsAgree(built, mem', a, w);
  }

  /** The pages of the leaf tables are apart from the new ones. */
  predicate LeavesOff(pt: nat, t: Pages) {
    PageOff(pt, t) && PageOff(pt + 0x1000, t) && PageOff(pt + 0x2000, t) && PageOff(pt + 0x3000, t)
  }

  lemma LeavesStand(mem: Ram8, mem': Ram8, t: Pages, v: Env, pt: nat)
    requires PagesOk(t, v) && Alike(Built(mem, t), mem', v) && LeavesOff(pt, t) && LeafTables(mem, pt)
    ensures LeafTables(mem', pt)
  {
    hide Holds, Built, Alike, PagesOk, PageOff;
    forall n: nat | n < 2048 ensures Holds(mem', pt + 8 * n, 4096 * n + 3) {
      LeafOf(mem, pt, n);
      if n < 512 {
        HoldsOff(mem, mem', t, v, pt, n, 4096 * n + 3);
      } else if n < 1024 {
        HoldsOff(mem, mem', t, v, pt + 0x1000, n - 512, 4096 * n + 3);
      } else if n < 1536 {
        HoldsOff(mem, mem', t, v, pt + 0x2000, n - 1024, 4096 * n + 3);
      } else {
        HoldsOff(mem, mem', t, v, pt + 0x3000, n - 1536, 4096 * n + 3);
      }
    }
  }

  lemma PdStands(mem: Ram8, mem': Ram8, t: Pages, v: Env, pt: nat)
    requires PagesOk(t, v) && Alike(Built(mem, t), mem', v) && LeavesOff(pt, t) && KernelPd(mem, t.kpd, pt)
    ensures KernelPd(mem', t.kpd, pt)
  {
    hide Holds, Built, Alike, LeafTables, LeavesOff;
    LeavesStand(mem, mem', t, v, pt);
    forall j: nat | j < 4 ensures Holds(mem', t.kpd + 8 * j, pt + 0x1000 * j + 3) {
      HoldsOff(mem, mem', t, v, t.kpd, j, pt + 0x1000 * j + 3);
    }
  }

  /** After build_tables, in the running kernel, the kernel's own chain still stands, and switching
      PTBR between it and the new process's never moves the kernel: below 8 MiB both lead to the
      same entries. */
  lemma SwitchIsInvisible(mem: Ram8, mem': Ram8, t: Pages, v: Env, k4: nat, k3: nat, pt: nat, va: nat)
    requires PagesOk(t, v) && Alike(Built(mem, t), mem', v) && KernelChain(mem, k4, k3, t.kpd, pt)
    requires PageOff(k4, t) && PageOff(k3, t) && LeavesOff(pt, t) && va < KERNEL_TOP
    ensures KernelChain(mem', k4, k3, t.kpd, pt) && KernelChain(mem', t.pml4, t.pdpt, t.pd, pt)
    ensures Walk(mem', t.pml4, va, 3) == Walk(mem', k4, va, 3) && Walk(mem', k4, va, 3).Leaf?
  {
    hide Holds, Built, Alike, KernelPd, PageOff, Walk, PagesOk, ProcessChain, LeavesOff;
    PdStands(mem, mem', t, v, pt);
    HoldsOff(mem, mem', t, v, k4, 0, k3 + 3);
    HoldsOff(mem, mem', t, v, k3, 0, t.kpd + 3);
    BuiltChain(mem, mem', t, v);
    ProcessHasKernel(mem', t.kpd, pt, t.pml4, t.pdpt, t.pd, t.pt4, t.upage);
    SwitchKeepsKernel(mem', k4, k3, t.kpd, pt, t.pml4, t.pdpt, t.pd, t.pt4, t.upage, va);
  }

  // ---- A space of its own ----------------------------------------------------------------------

  /** The tables of the new process. */
  function SpaceOf(t: Pages, pt: nat): Tables { Tables(t.pml4, t.pdpt, t.pd, pt, t.pt4) }

  /** Built in pages without present entries, the new tables map the kernel half, the region of PT4
      and nothing else. */
  lemma NewSpace(mem: Ram8, mem': Ram8, t: Pages, v: Env, pt: nat)
    requires PagesOk(t, v) && Alike(Built(mem, t), mem', v) && KernelPd(mem, t.kpd, pt) && LeavesOff(pt, t)
    requires Only(mem, t.pml4, 0) && Only(mem, t.pdpt, 0) && Only(mem, t.pd, 0)
    ensures Space(mem', SpaceOf(t, pt))
  {
    hide Holds, Built, Alike, KernelPd, LeavesOff, Only;
    PdStands(mem, mem', t, v, pt);
    BuiltChain(mem, mem', t, v);
    ProcessHasKernel(mem', t.kpd, pt, t.pml4, t.pdpt, t.pd, t.pt4, t.upage);
    AllApart(t, v);
    StillOnly(mem, mem', t, v, t.pml4, 1);
    StillOnly(mem, mem', t, v, t.pdpt, 1);
    StillOnly(mem, mem', t, v, t.pd, 5);
    assert TablesOk(SpaceOf(t, pt)) by { NewTablesOk(mem, t, v, pt); }
  }

  lemma NewTablesOk(mem: Ram8, t: Pages, v: Env, pt: nat)
    requires PagesOk(t, v) && KernelPd(mem, t.kpd, pt) && LeavesOff(pt, t)
    ensures TablesOk(SpaceOf(t, pt))
  {
    hide Holds, Read64;
    Off4(pt, t.pml4);
    Off4(pt, t.pdpt);
    Off4(pt, t.pd);
    Off4(pt, t.pt4);
  }

  /** A page that is none of four consecutive ones is apart from all of them. */
  lemma Off4(pt: nat, q: nat)
    requires pt % 4096 == 0 && q % 4096 == 0 && q != pt && q != pt + 0x1000 && q != pt + 0x2000 && q != pt + 0x3000
    ensures Apart(q, 4096, pt, 0x4000)
  {
    var a, b := pt / 4096, q / 4096;
    assert pt == 4096 * a && q == 4096 * b;
  }

  lemma StillOnly(mem: Ram8, mem': Ram8, t: Pages, v: Env, q: nat, n: nat)
    requires PagesOk(t, v) && PagesApartOk(t) && Alike(Built(mem, t), mem', v) && Only(mem, q, 0)
    requires (q == t.pml4 && n == 1) || (q == t.pdpt && n == 1) || (q == t.pd && n == 5)
    ensures Only(mem', q, n)
  {
    hide Read64, Built, Alike, SameEntry;
    var built := Built(mem, t);
    forall i: nat | n <= i < 512 ensures Absent(mem', q + 8 * i) {
      OnlyAt(mem, q, 0, i);
      BuiltElsewhere(mem, t, q + 8 * i);
      AlikeTables(built, mem', v);
      PageAligned(q, i);
      AbsentAgree(built, mem', q + 8 * i);
    }
  }

  // ---- Switching to it ---------------------------------------------------------------------------

  /** The start of sched_restore: PTBR from the slot in x15, paging kept on. */
  const SLOT_PTBR := 120

  function SwitchCode(): (code: seq<Ins>)
    ensures |code| == 4
  {
    [Ins(LOAD64, 1, 15, 0, SLOT_PTBR), Ins(WRCSR, 0, 1, 0, CSR_PTBR), Ins(LI, 1, 0, 0, 1), Ins(WRCSR, 0, 1, 0, CSR_PMODE)]
  }

  /** Writing PTBR or PMODE flushes, and the kernel goes on in whatever space is then in force. */
  lemma CsrRuns(m: Machine, i: Ins, v: Env, t: Tables)
    requires Kern(m, v) && Here(m, i, v) && i.opcode == WRCSR && (i.imm == CSR_PTBR || i.imm == CSR_PMODE)
    requires var csrs := m.csrs[i.imm := m.regs[i.rs1]];
      csrs[CSR_PMODE] != 0 && csrs[CSR_PTBR] == t.pml4 && Space(m.mem, t)
    ensures Step(m, v.cached).Ok?
    ensures var d := Step(m, v.cached).m;
      && Kern(d, EnvOf(t, v.cached)) && d.pc == m.pc + 8 && d.regs == m.regs && d.mode == m.mode && d.out == m.out
      && d.csrs == m.csrs[i.imm := m.regs[i.rs1]] && Alike(m.mem, d.mem, v)
  {
    hide Translate, Step, WordOf, Read64, Paged, Retire, Alike, Space, FlushTlb, PagesOf, Coherent;
    KernFetch(m, i, v);
    var u := Translate(m, m.pc, Fetch, v.cached).m.(pc := m.pc + 8);
    var u1 := u.(csrs := m.csrs[i.imm := m.regs[i.rs1]]);
    FlushKeeps(u1);
    FlushCoherent(u1);
    var f := FlushTlb(u1);
    CalmRetire(f);
    var d := Retire(f);
    AlikeTables(m.mem, u.mem, v);
    SpaceAlike(m.mem, d.mem, t);
    CoherentFrame(f, d);
    RootIs(d, t, m.mem);
    SpacePaged(d, t, v.cached);
  }

  lemma RootIs(d: Machine, t: Tables, mem: Ram8)
    requires d.csrs[CSR_PTBR] == t.pml4 && Space(mem, t)
    ensures Root(d) == t.pml4
  {}

  /** The new process's slot names its PML4: sched_restore switches to its tables with the kernel
      going on at the next instruction, TLB or not, in the new space. */
  lemma SwitchRuns(m: Machine, r: nat, t: Tables, v: Env)
    requires Kern(m, v) && m.csrs[CSR_PMODE] != 0 && Code(m.mem, r, SwitchCode(), v) && m.pc == r && Space(m.mem, t)
    requires Code(m.mem, r, SwitchCode(), EnvOf(t, v.cached))
    requires WordOk(m.regs[15] + SLOT_PTBR, v) && Read64(m.mem, m.regs[15] + SLOT_PTBR) == t.pml4
    ensures exists d: Machine ::
      && Leads(m, 4, d, v.cached) && Kern(d, EnvOf(t, v.cached)) && d.pc == r + 32 && d.regs == m.regs[1 := 1]
      && Root(d) == t.pml4 && d.csrs[CSR_PMODE] != 0 && Space(d.mem, t) && SameTables(m.mem, d.mem)
      && d.mode == m.mode && d.out == m.out
  {
    hide Step, At, Read64, Paged, Alike, Space, PagesOf, Listing, Plus, EnvOf, Root, SameTables;
    var e, c := EnvOf(t, v.cached), SwitchCode();
    assert e.cached == v.cached by { EnvCached(t, v.cached); }
    CodeHere(m, r, c, 0, v);
    PlusSmall(m.regs[15], SLOT_PTBR);
    KernLoad(m, c[0], m.regs[15] + SLOT_PTBR, v);
    var m1 := Step(m, v.cached).m;
    CodeAlike(m.mem, m1.mem, r, c, v);
    SpaceOn(m.mem, m1.mem, t, v);
    CodeHere(m1, r, c, 1, v);
    CsrRuns(m1, c[1], v, t);
    var m2 := Step(m1, v.cached).m;
    SpaceOn(m1.mem, m2.mem, t, v);
    CodeAlike(m1.mem, m2.mem, r, c, v);
    CodeFits(m.mem, m2.mem, r, c, v, e);
    CodeHere(m2, r, c, 2, e);
    KernReg(m2, c[2], e);
    var m3 := Step(m2, v.cached).m;
    SpaceOn(m2.mem, m3.mem, t, e);
    CodeAlike(m2.mem, m3.mem, r, c, e);
    CodeHere(m3, r, c, 3, e);
    CsrRuns(m3, c[3], e, t);
    var d := Step(m3, v.cached).m;
    SpaceOn(m3.mem, d.mem, t, e);
    RootIs(d, t, d.mem);
    TablesTrans(m.mem, m1.mem, m2.mem);
    TablesTrans(m.mem, m2.mem, m3.mem);
    TablesTrans(m.mem, m3.mem, d.mem);
    assert d.regs == m.regs[1 := 1];
    LeadsRefl(d, v.cached);
    LeadsStep(m3, d, 0, d, v.cached);
    LeadsStep(m2, m3, 1, d, v.cached);
    LeadsStep(m1, m2, 2, d, v.cached);
    LeadsStep(m, m1, 3, d, v.cached);
  }

  lemma EnvCached(t: Tables, cached: bool)
    ensures EnvOf(t, cached).cached == cached
  {}

  lemma SpaceOn(mem: Ram8, mem': Ram8, t: Tables, v: Env)
    requires Space(mem, t) && Alike(mem, mem', v)
    ensures Space(mem', t) && SameTables(mem, mem')
  {
    AlikeTables(mem, mem', v);
    SpaceAlike(mem, mem', t);
  }

  lemma CodeHere(m: Machine, p: nat, code: seq<Ins>, k: nat, v: Env)
    requires Code(m.mem, p, code, v) && k < |code| && m.pc == p + 8 * k
    ensures Here(m, code[k], v)
  {
    hide At;
    Listed(m.mem, p, code, k, v);
  }

  /** Code is code in either environment. */
  lemma CodeFits(mem: Ram8, mem': Ram8, p: nat, code: seq<Ins>, v: Env, e: Env)
    requires Code(mem, p, code, e) && Code(mem', p, code, v)
    ensures Code(mem', p, code, e)
  {
    hide At;
  }
}
